# shadowCanvas drawing engine — a Dafny model

shadowCanvas is a collaborative whiteboard. In its browser front end:

- a React hook (`useCanvas`) keeps the drawing document. That document is an ordered list of elements (list position is z-order), a selection, undo and redo stacks of ADD/DELETE actions, and a counter of persisted events with a queue of events not yet sent. Every 50 events the hook asks the backend for a snapshot. On load, the hook rebuilds the document by replaying the event log on top of the latest snapshot.
- the canvas component (`Canvas.jsx`) turns pointer gestures into document operations: draw, select, drag, resize, erase and type text.
- `geometry.js` holds the bounding boxes, hit tests and resize handles those gestures use.
- `thumbnail.js` frames all elements for a preview image.

This project models that engine and proves properties of it:

- `elements.dfy`: **Elements**. An element is an id plus a map of properties. The property values include JavaScript's `undefined` and `NaN`, so falsy defaults (`a || b`) and object spread (`{...e, ...patch}`) are written out.
- `geometry.dfy`: **Geometry**. The helpers of `geometry.js` on `real`. Every `Math.sqrt` comparison is restated on squared distances (`d < t` becomes `d² < t²` for `t > 0`).
- `document.dfy`: **Document**. The list rewrites the hook performs: find, remove by id, merge a patch, reorder a layer, and translate an element.
- `replay.dfy`: **Replay**. `replayEvents` as a loop proved against a left fold over the event log.
- `session.dfy`: **Session**. The hook as a class `CanvasSession` whose fields are the hook's state and refs. Each method is proved to make exactly the transition a pure function on a `CanvasState` value describes. The lemmas state the hook's promises about those functions. Sending is recorded rather than performed: `sent` lists the events handed to the backend and `snapshots` the snapshot requests.
- `gestures.dfy`: **Gestures**. The gesture state machine of `Canvas.jsx` as a class `CanvasController`. Its fields are drawing, dragging, resizing, panning, text editing and text input. Its handlers act on a `CanvasSession` and are proved against step functions; the topmost-first search and the handle test are loops.
- `thumbnail.dfy`: **Thumbnail**. The bounds loop, padding, finiteness check and output sizes of `generateThumbnail`. Numbers are JavaScript numbers there (finite, ±Infinity or NaN), because the bounds start at ±Infinity and a missing coordinate makes NaN.

## Model

| member | source | states |
|---|---|---|
| Elements.Or | frontend/src/features/canvas/utils/geometry.js:87-89 | `a \|\| b` is `a` when `a` is truthy and `b` otherwise |
| Elements.Merge | frontend/src/features/canvas/hooks/useCanvas.js:112 | `{...e, ...patch}` keeps the id. Its keys are the union; patch values win and other values are kept |
| Geometry.PointInRectIsClosed | frontend/src/features/canvas/utils/geometry.js:13-20 | all four corners of a box with non-negative sides are inside it (the test is inclusive) |
| Geometry.SqDist | frontend/src/features/canvas/utils/geometry.js:23-25 | the squared distance between two points is non-negative |
| Geometry.Clamp01 | frontend/src/features/canvas/utils/geometry.js:42 | the clamped parameter lies in [0,1] and equals the input when the input is already there |
| Geometry.SegmentDistanceIsMinimal | frontend/src/features/canvas/utils/geometry.js:36-44 | the distance to a segment is at most the distance to any point of the segment, including a zero-length segment |
| Geometry.SegmentDistanceIsAttained | frontend/src/features/canvas/utils/geometry.js:36-44 | that distance is reached at some parameter in [0,1], so it is the true distance to the segment |
| Geometry.DistToSegmentSq | frontend/src/features/canvas/utils/geometry.js:36-44 | the method that computes and clamps `t` returns the distance to the segment, which is at most the distance to every point on it |
| Geometry.PointNearPath | frontend/src/features/canvas/utils/geometry.js:28-34 | the early-return loop answers true iff some segment is closer than the threshold; fewer than 2 points gives false |
| Geometry.NearPathIsNearSomePoint | frontend/src/features/canvas/utils/geometry.js:28-44 | a path is near the point iff some point on one of its segments is closer than the threshold |
| Geometry.Extent | frontend/src/features/canvas/utils/geometry.js:49-55 | the running min/max encloses every point |
| Geometry.ExtentIsAttained | frontend/src/features/canvas/utils/geometry.js:49-55 | each of the four extremes is a coordinate of some point |
| Geometry.PointsBBox | frontend/src/features/canvas/utils/geometry.js:47-62 | no points give the zero box; otherwise every point lies at least 4 inside the box |
| Geometry.PointsBBoxIsTight | frontend/src/features/canvas/utils/geometry.js:47-62 | the box is the min/max box padded by exactly 4: each edge lies exactly 4 beyond some point |
| Geometry.BBoxFromPoints | frontend/src/features/canvas/utils/geometry.js:47-62 | the loop that keeps the running extremes computes exactly that box |
| Geometry.ArrowBBox | frontend/src/features/canvas/utils/geometry.js:65-76 | both endpoints lie at least 6 inside the arrow's box |
| Geometry.ArrowBBoxSymmetric | frontend/src/features/canvas/utils/geometry.js:65-76 | swapping the endpoints leaves the box unchanged |
| Geometry.ShapeBBox | frontend/src/features/canvas/utils/geometry.js:79-94 | rect/diamond/circle give their stored box. Text and image keep x and y and a non-zero size; a falsy size becomes 120 by 30 for text and 100 by 100 for an image. A stroke's box holds all its points; an arrow's holds both endpoints. An arrow without a numeric end has no box here |
| Geometry.ElementBBox | frontend/src/features/canvas/utils/geometry.js:79-94 | no element gives no box; an element with a geometry gets that geometry's box, except an arrow whose end is not a number, which gets none |
| Geometry.BoxHitIsPointInRect | frontend/src/features/canvas/utils/geometry.js:128-131 | rect, text and image are hit exactly when the point is in their box |
| Geometry.FreehandHitIsNearSegment | frontend/src/features/canvas/utils/geometry.js:103-104 | a stroke is hit iff the point is in its padded box and closer than 8 to one of its segments |
| Geometry.ArrowHitNearStart | frontend/src/features/canvas/utils/geometry.js:123-127 | within 8 of the start point is a hit, wherever the end point is |
| Geometry.ArrowWithoutEndHit | frontend/src/features/canvas/utils/geometry.js:123-127 | an arrow with a numeric start and a missing or non-numeric end is hit exactly within 8 of its start, since its NaN box contains no point; it has no box |
| Geometry.ArrowHit | frontend/src/features/canvas/utils/geometry.js:123-127 | an arrow is hit iff the point is within 8 of (x1,y1) or inside the arrow's padded box |
| Geometry.ArrowMissesBesideItsMiddle | frontend/src/features/canvas/utils/geometry.js:123-127 | (50,7) is 7 from the arrow (0,0)-(100,0) and still misses it, because only the start point and the box are tested |
| Geometry.CentreHits | frontend/src/features/canvas/utils/geometry.js:105-122 | a circle and a diamond of non-zero size are hit at their centre; a diamond is also hit at its left and top vertices |
| Geometry.ShiftPoints | frontend/src/features/canvas/hooks/useCanvas.js:222 | every point is moved by (dx, dy) and the count is kept |
| Geometry.ExtentShifts | frontend/src/features/canvas/utils/geometry.js:49-55 | shifting the points shifts their extent |
| Geometry.ShapeBBoxShifts | frontend/src/features/canvas/utils/geometry.js:79-94 | translating a geometry translates its box and keeps its size |
| Geometry.SegmentSqShifts | frontend/src/features/canvas/utils/geometry.js:36-44 | the distance to a segment does not change when point and segment move together |
| Geometry.SqDistShifts | frontend/src/features/canvas/utils/geometry.js:23-25 | the distance between two points does not change when both move together |
| Geometry.NearPathShifts | frontend/src/features/canvas/utils/geometry.js:28-34 | the path test with threshold 8 does not change when point and path move together |
| Geometry.HitShapeShifts | frontend/src/features/canvas/utils/geometry.js:97-131 | every hit test does not change when point and geometry move together |
| Geometry.ResizeHandles | frontend/src/features/canvas/utils/geometry.js:135-148 | no box gives no handles; a box gives exactly eight, in the order nw, n, ne, e, se, s, sw, w |
| Geometry.HandlesFollowCompass | frontend/src/features/canvas/utils/geometry.js:135-148 | each handle sits on the edges its letters name and midway along an axis it does not name |
| Geometry.SnapIsNearestMultiple | frontend/src/features/canvas/utils/geometry.js:151-153 | snap gives a multiple of the size that is at most half a size from the value |
| Document.IndexOf | frontend/src/features/canvas/hooks/useCanvas.js:252 | `findIndex` finds nothing iff no element has the id; otherwise it finds the first element with the id |
| Document.FindById | frontend/src/features/canvas/hooks/useCanvas.js:207 | `find` finds nothing iff no element has the id; otherwise it returns the first element in list order with that id |
| Document.RemoveId | frontend/src/features/canvas/hooks/useCanvas.js:115 | the filter keeps exactly the elements whose id differs |
| Document.RemoveIdAbsent | frontend/src/features/canvas/hooks/useCanvas.js:115 | filtering out an absent id returns the same list |
| Document.RemoveIdAppend | frontend/src/features/canvas/hooks/useCanvas.js:115 | filtering distributes over concatenation |
| Document.MergeWhere | frontend/src/features/canvas/hooks/useCanvas.js:112 | the map keeps length and order, merges the patch into each element with the id and keeps the others |
| Document.Insert | frontend/src/features/canvas/hooks/useCanvas.js:130 | a splice insertion puts the element at the index and adds it to the multiset |
| Document.RemoveAt | frontend/src/features/canvas/hooks/useCanvas.js:128 | a splice removal drops exactly that element from the multiset |
| Document.Reorder | frontend/src/features/canvas/hooks/useCanvas.js:250-263 | an absent id leaves the list unchanged |
| Document.ReorderPermutes | frontend/src/features/canvas/hooks/useCanvas.js:123-139 | forward/backward/front/back keep the length and the multiset of elements |
| Document.ReorderOtherDirectionDrops | frontend/src/features/canvas/hooks/useCanvas.js:254-260 | any other direction removes the element and does not reinsert it |
| Document.ReorderPlacesElement | frontend/src/features/canvas/hooks/useCanvas.js:256-259 | the element lands one slot later (clamped at the end), one slot earlier (clamped at the start), last, or first |
| Document.ReorderForwardSwaps | frontend/src/features/canvas/hooks/useCanvas.js:256 | away from the end, forward swaps the element with its successor |
| Document.ReorderBackwardSwaps | frontend/src/features/canvas/hooks/useCanvas.js:257 | away from the start, backward swaps the element with its predecessor |
| Document.Translate | frontend/src/features/canvas/hooks/useCanvas.js:219-228 | moving keeps the id and the type |
| Document.TranslateWhere | frontend/src/features/canvas/hooks/useCanvas.js:217-230 | only elements with the id are translated; length and order are kept |
| Document.TranslateMovesStroke | frontend/src/features/canvas/hooks/useCanvas.js:221-223 | a stroke's geometry is translated point by point |
| Document.TranslateMovesArrow | frontend/src/features/canvas/hooks/useCanvas.js:224-226 | an arrow's geometry is translated at both endpoints |
| Document.TranslateMovesBox | frontend/src/features/canvas/hooks/useCanvas.js:227 | any other element's geometry is translated by its x and y, and its size is kept |
| Document.TranslateMovesView | frontend/src/features/canvas/hooks/useCanvas.js:217-228 | moving an element translates exactly its geometry |
| Document.TranslatedHitTest | frontend/src/features/canvas/hooks/useCanvas.js:217-228 | a moved element is hit at the moved point exactly where it was hit before |
| Replay.ApplyEvent | frontend/src/features/canvas/hooks/useCanvas.js:107-145 | one pass of the switch, including the splice and unshift steps of REORDER, computes the fold's step |
| Replay.ReplayEvents | frontend/src/features/canvas/hooks/useCanvas.js:104-147 | the loop over the events is the left fold of the step over them, starting from the snapshot's elements |
| Replay.ApplyAddAppends | frontend/src/features/canvas/hooks/useCanvas.js:108-110 | ADD appends the event's element as the last one and keeps the rest |
| Replay.ApplyMergeKeepsShape | frontend/src/features/canvas/hooks/useCanvas.js:111-122 | UPDATE/MOVE/RESIZE keep length, order and ids, merge into the elements with the id, and do nothing when the id is absent |
| Replay.ApplyDeleteRemoves | frontend/src/features/canvas/hooks/useCanvas.js:114-116 | DELETE removes every element with the id and nothing else |
| Replay.ApplyClearAndUnknown | frontend/src/features/canvas/hooks/useCanvas.js:140-144 | CLEAR gives the empty list; an unknown type is skipped |
| Replay.ReplayConcat | frontend/src/features/canvas/hooks/useCanvas.js:104-147 | replaying a log in two parts equals replaying it whole |
| Replay.ReplayFromLastClear | frontend/src/features/canvas/hooks/useCanvas.js:140-142 | everything before a CLEAR is irrelevant to the result |
| Replay.LastOrderIsLargest | backend/src/routes/canvas.js:142-144 | in an ascending log, the last event has the largest order |
| Session.QueueIsIncreasing | frontend/src/features/canvas/hooks/useCanvas.js:151-158 | a consecutively numbered queue is strictly increasing and bounded by the counter |
| Session.PersistNumbers | frontend/src/features/canvas/hooks/useCanvas.js:151-158 | offline or without a canvas id, nothing changes. Otherwise the counter rises by 1, the event is queued with the new value, and the queue stays consecutive |
| Session.FlushSendsInOrder | frontend/src/features/canvas/hooks/useCanvas.js:160-185 | the flush empties the queue and sends it in order. It requests a snapshot of the current elements and counter iff the counter is positive and divisible by 50 |
| Session.SnapshotSkippedAcrossMultiple | frontend/src/features/canvas/hooks/useCanvas.js:153-177 | a batch whose orders step over 50 before one flush takes no snapshot |
| Session.AddAppends | frontend/src/features/canvas/hooks/useCanvas.js:188-195 | one element is appended on top and pushed as ADD, redo is cleared, and one ADD_ELEMENT is queued. A caller-supplied id overrides the fresh one |
| Session.DeleteUnknownIsNoOp | frontend/src/features/canvas/hooks/useCanvas.js:206-208 | deleting an unknown id changes nothing: no undo entry and no event |
| Session.DeleteRemoves | frontend/src/features/canvas/hooks/useCanvas.js:206-214 | the element is removed and pushed as DELETE; redo is cleared, DELETE_ELEMENT is queued, and its selection is dropped |
| Session.MoveTouchesOnlyTarget | frontend/src/features/canvas/hooks/useCanvas.js:217-230 | only the element list changes, and only at the element with the id; no event is queued and the stacks are untouched |
| Session.CommitEmitsCurrentElement | frontend/src/features/canvas/hooks/useCanvas.js:232-247 | commitMove/commitResize queue one MOVE/RESIZE carrying the current element if it exists, and nothing otherwise |
| Session.ReorderAlwaysEmits | frontend/src/features/canvas/hooks/useCanvas.js:250-263 | an unknown id still queues REORDER_ELEMENT, and the list is unchanged |
| Session.UndoRedoEmptyAreNoOps | frontend/src/features/canvas/hooks/useCanvas.js:266-293 | undo and redo on an empty stack change nothing |
| Session.UndoThenRedoRestoresStacks | frontend/src/features/canvas/hooks/useCanvas.js:266-293 | undo followed by redo restores both stacks |
| Session.RedoThenUndoRestoresStacks | frontend/src/features/canvas/hooks/useCanvas.js:266-293 | redo followed by undo restores both stacks |
| Session.AddThenUndoRestoresElements | frontend/src/features/canvas/hooks/useCanvas.js:266-272 | undoing an add of a new id restores the list and the undo stack |
| Session.DeleteThenUndoAppends | frontend/src/features/canvas/hooks/useCanvas.js:273-277 | undoing a delete puts the element back at the end, not at its old position |
| Session.ClearEmpties | frontend/src/features/canvas/hooks/useCanvas.js:296-302 | clear empties elements, both stacks and the selection, and queues CLEAR_CANVAS |
| Session.AddReplays | frontend/src/features/canvas/hooks/useCanvas.js:188-195 | the ADD_ELEMENT queued replays, on the old list, to the new list |
| Session.UpdateReplays | frontend/src/features/canvas/hooks/useCanvas.js:198-203 | the same for UPDATE_ELEMENT |
| Session.DeleteReplays | frontend/src/features/canvas/hooks/useCanvas.js:206-214 | the same for DELETE_ELEMENT |
| Session.ReorderReplays | frontend/src/features/canvas/hooks/useCanvas.js:250-263 | the same for REORDER_ELEMENT |
| Session.UndoRedoReplay | frontend/src/features/canvas/hooks/useCanvas.js:266-293 | the same for the inverse event an undo or a redo queues |
| Session.ClearReplays | frontend/src/features/canvas/hooks/useCanvas.js:296-302 | the same for CLEAR_CANVAS |
| Session.LoadThenPersistIsFresh | frontend/src/features/canvas/hooks/useCanvas.js:74-102 | after a load of ascending events newer than the snapshot, the next event is numbered above every loaded order |
| Session.CanvasSession.constructor | frontend/src/features/canvas/hooks/useCanvas.js:8-41 | the initial state is empty, offline, with counter 0 |
| Session.CanvasSession.PersistEvent | frontend/src/features/canvas/hooks/useCanvas.js:151-158 | the fields make the `Persist` transition |
| Session.CanvasSession.FlushEvents | frontend/src/features/canvas/hooks/useCanvas.js:160-185 | the fields make the `Flush` transition: the batch is sent one event at a time, then the snapshot test runs |
| Session.CanvasSession.AddElement | frontend/src/features/canvas/hooks/useCanvas.js:188-195 | returns the new element; the fields make the `Add` transition |
| Session.CanvasSession.UpdateElement | frontend/src/features/canvas/hooks/useCanvas.js:198-203 | the fields make the `Update` transition |
| Session.CanvasSession.DeleteElement | frontend/src/features/canvas/hooks/useCanvas.js:206-214 | the fields make the `Delete` transition |
| Session.CanvasSession.MoveElement | frontend/src/features/canvas/hooks/useCanvas.js:217-230 | the fields make the `Move` transition |
| Session.CanvasSession.CommitMoveElement | frontend/src/features/canvas/hooks/useCanvas.js:232-235 | the fields make the `CommitMove` transition |
| Session.CanvasSession.ResizeElement | frontend/src/features/canvas/hooks/useCanvas.js:238-242 | the fields make the `Resize` transition |
| Session.CanvasSession.CommitResizeElement | frontend/src/features/canvas/hooks/useCanvas.js:244-247 | the fields make the `CommitResize` transition |
| Session.CanvasSession.ReorderElement | frontend/src/features/canvas/hooks/useCanvas.js:250-263 | the fields make the `ReorderLayer` transition |
| Session.CanvasSession.UndoAction | frontend/src/features/canvas/hooks/useCanvas.js:266-278 | pops, inverts and pushes onto redo: the `Undo` transition |
| Session.CanvasSession.RedoAction | frontend/src/features/canvas/hooks/useCanvas.js:281-293 | pops, re-applies and pushes onto undo: the `Redo` transition |
| Session.CanvasSession.ClearCanvas | frontend/src/features/canvas/hooks/useCanvas.js:296-302 | the fields make the `Clear` transition |
| Session.CanvasSession.SetSelectedId | frontend/src/features/canvas/hooks/useCanvas.js:9 | only the selection changes |
| Session.CanvasSession.LoadCanvas | frontend/src/features/canvas/hooks/useCanvas.js:74-102 | a load starts offline with nothing queued. It replays the events on the snapshot, takes the last event's order, marks the backend ready and keeps the queue invariant: the `Load` transition |
| Session.LoadKeepsQueue | frontend/src/features/canvas/hooks/useCanvas.js:74-102 | a load from an offline session with an empty queue gives a ready session whose queue is empty and consecutive |
| Gestures.TopHit | frontend/src/features/canvas/components/Canvas.jsx:332-337 | the index found is in range |
| Gestures.TopHitIsTopmost | frontend/src/features/canvas/components/Canvas.jsx:332-337 | the found element is hit and none above it is; nothing is found iff no element is hit |
| Gestures.FindTopElement | frontend/src/features/canvas/components/Canvas.jsx:332-337 | the reverse scan with early return finds exactly the topmost hit element, or null |
| Gestures.FirstHandleHit | frontend/src/features/canvas/components/Canvas.jsx:153-158 | the handle found is strictly within 6 on both axes and no earlier handle is; nothing is found iff no handle is that close |
| Gestures.HandleUnder | frontend/src/features/canvas/components/Canvas.jsx:153-158 | the loop over the handles returns exactly that first handle |
| Gestures.HandleGrab | frontend/src/features/canvas/components/Canvas.jsx:148-158 | a resize starts only with a selection, for the selected element, from the pointer position |
| Gestures.GrabHandle | frontend/src/features/canvas/components/Canvas.jsx:148-158 | the handle check on the session computes exactly that resize |
| Gestures.EraserDeletesTopmost | frontend/src/features/canvas/components/Canvas.jsx:123-128 | the eraser deletes exactly the topmost hit element (all with its id); over empty canvas the elements, undo stack and queue are untouched |
| Gestures.SelectPressRules | frontend/src/features/canvas/components/Canvas.jsx:146-171 | a press on a handle starts a resize. Otherwise a hit selects the topmost element and starts dragging it, and a miss clears the selection |
| Gestures.ResizeBoxRules | frontend/src/features/canvas/components/Canvas.jsx:305-311 | 'e'/'s' stretch to `max(20, orig + d)`; 'w'/'n' move the origin by d and size to `max(20, orig - d)`. A named side is at least 20 and an unnamed one keeps its place and length |
| Gestures.HandlesNameASide | frontend/src/features/canvas/components/Canvas.jsx:308-311 | every handle names at least one side, so every resize keeps a side of at least 20 |
| Gestures.WestHandleDriftsWhenClamped | frontend/src/features/canvas/components/Canvas.jsx:310 | the east edge stays put until the width reaches 20; after that the box slides east |
| Gestures.ResizeKeepsArrowAndStrokeGeometry | frontend/src/features/canvas/components/Canvas.jsx:313 | writing x/y/width/height leaves an arrow's or a stroke's geometry unchanged |
| Gestures.TranslateCompose | frontend/src/features/canvas/components/Canvas.jsx:219-224 | two moves of an element compose into one move by the sum |
| Gestures.TranslateWhereCompose | frontend/src/features/canvas/components/Canvas.jsx:219-224 | the same holds for moving the element with an id in a list |
| Gestures.DragFrame | frontend/src/features/canvas/components/Canvas.jsx:219-224 | a move while dragging translates the dragged element by the increment since the last frame and records the new displacement |
| Gestures.IncrementsSumToDisplacement | frontend/src/features/canvas/components/Canvas.jsx:219-224 | over any run of frames, the increments add up to the pointer displacement less what was already passed on |
| Gestures.FreshDragSumsToDisplacement | frontend/src/features/canvas/components/Canvas.jsx:166-224 | from the press, the increments add up to exactly the total pointer displacement |
| Gestures.Normalize | frontend/src/features/canvas/components/Canvas.jsx:276-281 | flipping a negative size gives non-negative sides covering the same rectangle |
| Gestures.Finalize | frontend/src/features/canvas/components/Canvas.jsx:273-290 | a shape is dropped iff both normalised sides are under 5, an arrow iff it is shorter than 10, and a stroke iff it has fewer than 3 points. A kept shape carries its normalised box |
| Gestures.FinalizeDraft | frontend/src/features/canvas/components/Canvas.jsx:273-290 | the in-place normalisation and early returns compute exactly that |
| Gestures.PointerUpAddsAtMostOne | frontend/src/features/canvas/components/Canvas.jsx:273-293 | finishing a drawing adds exactly one element on top, or nothing when it is dropped; the drawing ends either way |
| Gestures.PointerUpCommitsDrag | frontend/src/features/canvas/components/Canvas.jsx:259-262 | releasing a drag commits the move once and ends the drag |
| Gestures.Trim | frontend/src/features/canvas/components/Canvas.jsx:341 | the trimmed text is empty iff the input is all white space; otherwise it is the input without leading and trailing white space |
| Gestures.CommitTextRules | frontend/src/features/canvas/components/Canvas.jsx:340-358 | blank input adds nothing; other input appends one text element; the editing ends either way |
| Gestures.TextPropsRules | frontend/src/features/canvas/components/Canvas.jsx:342-354 | the text element is 40 high. It is at least 120 wide when its width is a number, and is sized for font size 16 when the style has none |
| Gestures.CanvasController.constructor | frontend/src/features/canvas/components/Canvas.jsx:15-20 | no gesture in progress |
| Gestures.CanvasController.PointerDown | frontend/src/features/canvas/components/Canvas.jsx:117-204 | the handler's effect on gesture and session is `PointerDownStep` |
| Gestures.CanvasController.HandleResize | frontend/src/features/canvas/components/Canvas.jsx:297-314 | the handler's effect is `ResizeStep`: nothing once the element is gone |
| Gestures.CanvasController.PointerMove | frontend/src/features/canvas/components/Canvas.jsx:207-251 | the handler's effect is `PointerMoveStep` |
| Gestures.CanvasController.DragTo | frontend/src/features/canvas/components/Canvas.jsx:219-224 | one drag frame moves the dragged element by the increment since the last frame, through `moveElement`, and records the new displacement; nothing else in the gesture changes |
| Gestures.CanvasController.PointerUp | frontend/src/features/canvas/components/Canvas.jsx:254-294 | the handler's effect is `PointerUpStep` |
| Gestures.CanvasController.SetTextInput | frontend/src/features/canvas/components/Canvas.jsx:457 | only the text input changes |
| Gestures.CanvasController.CommitText | frontend/src/features/canvas/components/Canvas.jsx:340-358 | the handler's effect is `CommitTextStep` |
| Gestures.CanvasController.CancelText | frontend/src/features/canvas/components/Canvas.jsx:461 | Escape ends the edit and empties the input; the session is not touched, so nothing is added |
| Thumbnail.ToNumber | frontend/src/features/canvas/utils/thumbnail.js:16-22 | converting a stored value to a number never gives an infinity |
| Thumbnail.NumMin | frontend/src/features/canvas/utils/thumbnail.js:29-40 | `Math.min` is NaN iff an argument is |
| Thumbnail.NumMax | frontend/src/features/canvas/utils/thumbnail.js:31-43 | `Math.max` is NaN iff an argument is |
| Thumbnail.WalkPoints | frontend/src/features/canvas/utils/thumbnail.js:28-33 | the inner `forEach` folds every point into the running bounds |
| Thumbnail.AddElementBounds | frontend/src/features/canvas/utils/thumbnail.js:14-44 | one turn of the outer loop folds in a stroke's points, an arrow's endpoints, or a flipped box |
| Thumbnail.FrameThumbnail | frontend/src/features/canvas/utils/thumbnail.js:9-62 | the loop, default, padding and finiteness check compute exactly `ComputeFraming` |
| Thumbnail.EmptyCanvasFraming | frontend/src/features/canvas/utils/thumbnail.js:46-56 | no elements frame (0,0)-(800,600) padded: origin (-50,-50), size 900 by 700 |
| Thumbnail.PaddingIsFifty | frontend/src/features/canvas/utils/thumbnail.js:52-62 | the result exists iff the raw x bounds are finite. The framing is the raw bounds grown by exactly 50 on every side |
| Thumbnail.AddPointsKeepsNaN | frontend/src/features/canvas/utils/thumbnail.js:28-33 | a NaN bound stays NaN through the points |
| Thumbnail.ContributeKeepsNaN | frontend/src/features/canvas/utils/thumbnail.js:12-45 | a NaN bound stays NaN through any element |
| Thumbnail.PrefixNaNPersists | frontend/src/features/canvas/utils/thumbnail.js:12-45 | a NaN minimum x after some elements is still NaN after all of them |
| Thumbnail.NaNXIsNull | frontend/src/features/canvas/utils/thumbnail.js:59 | one element making the minimum x NaN makes the thumbnail null, wherever it sits |
| Thumbnail.AddPointGrows | frontend/src/features/canvas/utils/thumbnail.js:29-32 | without NaN, adding a point only widens the bounds and encloses the point |
| Thumbnail.AddPointsGrows | frontend/src/features/canvas/utils/thumbnail.js:28-33 | without NaN, a stroke's points only widen the bounds and all lie inside |
| Thumbnail.AddArrowGrows | frontend/src/features/canvas/utils/thumbnail.js:34-38 | without NaN, an arrow only widens the bounds and both endpoints lie inside |
| Thumbnail.AddBoxGrows | frontend/src/features/canvas/utils/thumbnail.js:39-44 | without NaN, a box only widens the bounds and both flipped corners lie inside |
| Thumbnail.BoxSpanOrdered | frontend/src/features/canvas/utils/thumbnail.js:16-22 | after flipping a negative width or height, the low corner is not above the high corner |
| Thumbnail.EnclosesElementGrows | frontend/src/features/canvas/utils/thumbnail.js:12-45 | an element enclosed by some bounds stays enclosed when they widen |
| Thumbnail.ContributeGrows | frontend/src/features/canvas/utils/thumbnail.js:12-45 | without NaN, each element only widens the bounds and is enclosed |
| Thumbnail.AccumulateEncloses | frontend/src/features/canvas/utils/thumbnail.js:11-45 | without NaN, the final bounds enclose every element: all stroke points, both arrow endpoints, and each flipped box with missing sizes as 0 |
| Thumbnail.FramingEnclosesElements | frontend/src/features/canvas/utils/thumbnail.js:11-62 | whenever a finite framing is produced, the raw bounds enclose every element |
| Thumbnail.AddPointsFin | frontend/src/features/canvas/utils/thumbnail.js:28-33 | finite points keep the bounds finite, and leave them at ±Infinity only when there are none |
| Thumbnail.ContributeNumeric | frontend/src/features/canvas/utils/thumbnail.js:12-45 | a numeric element keeps the bounds finite, and leaves them at ±Infinity only when it contributes nothing |
| Thumbnail.AccumulateNumeric | frontend/src/features/canvas/utils/thumbnail.js:11-45 | numeric elements give finite bounds, or ±Infinity when none contributes |
| Thumbnail.NullIffNothingContributed | frontend/src/features/canvas/utils/thumbnail.js:59 | for numeric elements the result is null iff there are elements and none contributed a coordinate. Otherwise it is finite and at least 100 by 100 |
| Thumbnail.FramedOrdered | frontend/src/features/canvas/utils/thumbnail.js:52-62 | untouched bounds give null; finite ordered bounds give a finite framing at least 100 wide and, when its height is finite, 100 high |
| Thumbnail.FramingIsAtLeastPadding | frontend/src/features/canvas/utils/thumbnail.js:52-62 | every produced framing is at least 100 wide, and at least 100 high when its height is finite |
| Thumbnail.MissingYIsNotNull | frontend/src/features/canvas/utils/thumbnail.js:59 | only x is checked: a box without `y` still gives a framing, with NaN top and height |
| Thumbnail.SvgKeepsAspect | frontend/src/features/canvas/utils/thumbnail.js:84-85 | the SVG is 500 wide and its height keeps the framing's aspect ratio |
| Thumbnail.CapRaster | frontend/src/features/canvas/utils/thumbnail.js:101-115 | the capping branches compute exactly `RasterSize` |
| Thumbnail.RasterKeepsAspect | frontend/src/features/canvas/utils/thumbnail.js:101-115 | the raster keeps the aspect ratio |
| Thumbnail.RasterCapsLongerSide | frontend/src/features/canvas/utils/thumbnail.js:101-115 | sides both within 400 are kept. Otherwise the longer side becomes 400, and equal sides take the else branch |
| Thumbnail.RasterWithinCap | frontend/src/features/canvas/utils/thumbnail.js:101-115 | positive sides stay positive, and both fit within 400 once one exceeds it |

## Left out

- Network, persistence and timing. The axios calls, the 600 ms debounce timer, `localStorage` and the async `initNewCanvas` are not modelled. A flush runs synchronously and records what it sends and which snapshots it requests.
- Failed sends. The flush empties the queue before sending, and an event whose send fails is logged and dropped, not re-queued. The model follows that code, so a flushed queue is always empty.
- React state timing. `deleteElement`, `commitMove` and `commitResize` read the `elements` the last render saw, while the list updates use the newest list. The model has one list, so both reads see the same state. The same holds for a drag: `PointerMove` reads `dragging.lastDx` from the last render, and the model runs the frames strictly one after another.
- uuid generation, the wall clock and logging. The fresh id is a parameter.
- Viewport. `zoomIn`/`zoomOut`, the wheel handler and pointer-to-canvas coordinate conversion are outside the model. Pan moves only set or clear a `panning` flag. Pointer positions are canvas coordinates.
- Other handlers. Keyboard shortcuts, the image insert handler and presses that land on the text overlay are not modelled. Of the overlay's keys, Enter is `CommitText` and Escape is `CancelText`.
- Rendering. SVG output, selection-box drawing and the DOM work of the thumbnail (`cloneNode`, `XMLSerializer`, `Image`, `toDataURL`) are not modelled.
- Gestures.CanvasController.CommitText: requires a text edit in progress. The source reads the edit position only when the input is not blank, and it is only reachable while the overlay is shown.
- Document.Translate: a freehand element whose `points` is not an array is left unchanged; the source throws there. A coordinate that is not a number becomes NaN when moved. A string coordinate would be concatenated by `+` in the source, and that case is not modelled.
- Thumbnail.ToNumber: a non-empty string converts to NaN. Numeric strings (which JavaScript converts to numbers) and string concatenation by `+` are not modelled. Signed zero is not distinguished.
- Thumbnail.RasterSize: modelled on finite sides only. A NaN height, which a missing `y` produces, is not carried into the raster step.
- Thumbnail.SvgKeepsAspect: requires a positive width and a finite height. Every produced framing is at least 100 wide.
- Thumbnail: a null `elements` argument is treated as the empty list; the source takes the same default branch for both.
- Thumbnail.AddElementBounds: a freehand element whose `points` is truthy but not an array (a non-empty string, a non-zero number, `true`) is not a stroke here, so its `x`/`y`/`width`/`height` box is folded into the bounds. In the source it enters the stroke branch and `points.forEach` throws, which rejects the thumbnail promise. That error path is not modelled.
- Geometry.ElementBBox: a rect, diamond, circle or unknown-type element whose `x` and `y` are numbers but whose `width` or `height` is missing or not a number gets no box, and so no resize handles. The source returns the partial box, and `getResizeHandles` puts real handles wherever it reads only numbers: `nw` always, `sw` and `w` with a numeric height, `n` and `ne` with a numeric width. `Gestures.HandleGrab` therefore misses a press on those handles that the source turns into a resize; the model then clears the selection instead.
- Geometry.View: a text or image size that is not a number is read as 0, so it takes the default size. The source keeps a truthy non-number there. A freehand element without a `points` array is read as a stroke with no points, so it never hits. In the source, `bboxFromPoints(undefined)` gives the zero box, and at (0, 0) `pointNearPath` then throws on `points.length`. An arrow whose `x2` or `y2` is not a number has a NaN box in the source. The model gives it no box at all, so it has no resize handles either; in the source its NaN handles are never hit, so the result is the same.
- Geometry: `Math.sqrt` distances are compared squared. Distances are never computed as values.
- Elements: a UTF-16 string length is a character count.
- Session.Load: the `snapshot.elements || []` and `lastEventOrder || 0` defaults are not modelled. A typed snapshot always has a list and a number.
- Geometry.SnapIsNearestMultiple: requires a non-zero size, where `snap(v, 0)` in the source gives NaN. The default `size = 10` is not modelled either; the size is always passed. Nothing in the source calls `snap`.
- Gestures.IncrementsSumToDisplacement: states the drag through sums of increments over a run of frames, not through a run of `PointerMove` calls on the class.
