/** The pointer gestures of the canvas component: what a pointer-down,
    pointer-move and pointer-up do to the gesture in progress (a shape being
    drawn, an element being dragged or resized, a pan, a text being typed)
    and to the canvas session.

    Each handler is a pure step function from the gesture and the session
    state to their new values; the class `CanvasController` keeps the gesture
    in fields and its methods are proved to take exactly those steps. */
module Gestures {
  import opened Elements
  import opened Geometry
  import Document
  import Session

  // ─── Gesture state ────────────────────────────────────────────────────

  /** A drawing in progress, typed per tool; `style` is the current style
      spread into it. */
  datatype Draft =
    | ShapeDraft(kind: string, x: real, y: real, width: real, height: real, style: Fields)
    | ArrowDraft(x1: real, y1: real, x2: real, y2: real, style: Fields)
    | StrokeDraft(points: seq<Point>, style: Fields)

  /** A drag: where it started, which element, and the displacement already
      passed on (`lastDx || 0`, so 0 before the first move). */
  datatype Drag = Drag(startX: real, startY: real, elId: string, lastDx: real, lastDy: real)

  /** A resize: the handle grabbed, where, the box at that moment, and the element. */
  datatype ResizeGrab = ResizeGrab(handleId: string, startX: real, startY: real, origBBox: BBox, elId: string)

  datatype Gesture = GestureState(
    drawing: Option<Draft>,
    dragging: Option<Drag>,
    resizing: Option<ResizeGrab>,
    panning: bool,
    editing: Option<Point>,
    textInput: string)

  /** The gesture and the session state after a handler. */
  datatype Outcome = Outcome(gesture: Gesture, canvas: Session.CanvasState)

  const SHAPE_TOOLS: set<string> := {"rect", "diamond", "circle"}

  // ─── Topmost element under the pointer ────────────────────────────────

  /** The hit test's verdict on each element. */
  function Hits(els: seq<Element>, px: real, py: real): (h: seq<bool>)
    ensures |h| == |els|
  {
    if |els| == 0 then []
    else Hits(els[..|els| - 1], px, py) + [HitTest(px, py, els[|els| - 1])]
  }

  /** Position i of `Hits` is the hit test of element i. */
  lemma {:induction false} HitsAt(els: seq<Element>, px: real, py: real, i: nat)
    requires i < |els|
    ensures Hits(els, px, py)[i] == HitTest(px, py, els[i])
    decreases |els|
  {
    if i < |els| - 1 {
      HitsAt(els[..|els| - 1], px, py, i);
    }
  }

  /** The last position holding true. */
  function LastTrue(h: seq<bool>): (r: Option<nat>)
    ensures r.Some? ==> r.value < |h| && h[r.value]
    ensures r.Some? ==> forall j :: r.value < j < |h| ==> !h[j]
    ensures r.None? <==> forall j :: 0 <= j < |h| ==> !h[j]
  {
    if |h| == 0 then None
    else if h[|h| - 1] then Some(|h| - 1)
    else LastTrue(h[..|h| - 1])
  }

  /** A true position with nothing true after it is the last one. */
  lemma LastTrueAt(h: seq<bool>, k: nat)
    requires k < |h| && h[k]
    requires forall j :: k < j < |h| ==> !h[j]
    ensures LastTrue(h) == Some(k)
  {
  }

  /** The index of the last element the hit test accepts: the one drawn on top. */
  function TopHit(els: seq<Element>, px: real, py: real): (r: Option<nat>)
    ensures r.Some? ==> r.value < |els|
  {
    LastTrue(Hits(els, px, py))
  }

  /** `TopHit` finds an element under the pointer with none above it, and
      finds nothing exactly when no element is under the pointer. */
  lemma TopHitIsTopmost(els: seq<Element>, px: real, py: real)
    ensures var r := TopHit(els, px, py);
      && (r.Some? ==> HitTest(px, py, els[r.value]))
      && (r.Some? ==> forall j :: r.value < j < |els| ==> !HitTest(px, py, els[j]))
      && (r.None? <==> forall j :: 0 <= j < |els| ==> !HitTest(px, py, els[j]))
  {
    var h := Hits(els, px, py);
    forall i | 0 <= i < |els| ensures h[i] == HitTest(px, py, els[i]) {
      HitsAt(els, px, py, i);
    }
  }

  /** `findTopElement`: scans from the end of the list down. */
  method FindTopElement(els: seq<Element>, px: real, py: real) returns (top: Option<Element>)
    ensures top.None? <==> TopHit(els, px, py).None?
    ensures top.Some? ==> top.value == els[TopHit(els, px, py).value]
  {
    ghost var h := Hits(els, px, py);
    var i := |els|;
    while i > 0
      invariant 0 <= i <= |els|
      invariant forall j :: i <= j < |h| ==> !h[j]
    {
      var hit := HitTest(px, py, els[i - 1]);
      HitsAt(els, px, py, i - 1);
      if hit {
        LastTrueAt(h, i - 1);
        return Some(els[i - 1]);
      }
      i := i - 1;
    }
    return None;
  }

  // ─── Resize handle under the pointer ──────────────────────────────────

  /** Strictly within 6 of the handle on both axes. */
  predicate OnHandle(h: Handle, px: real, py: real)
  {
    Abs(px - h.x) < 6.0 && Abs(py - h.y) < 6.0
  }

  /** The first handle, in list order, under the pointer. */
  function FirstHandleHit(hs: seq<Handle>, px: real, py: real): (r: Option<nat>)
    ensures r.Some? ==> r.value < |hs| && OnHandle(hs[r.value], px, py)
    ensures r.Some? ==> forall j :: 0 <= j < r.value ==> !OnHandle(hs[j], px, py)
    ensures r.None? <==> forall j :: 0 <= j < |hs| ==> !OnHandle(hs[j], px, py)
  {
    if |hs| == 0 then None
    else if OnHandle(hs[0], px, py) then Some(0)
    else
      var rest := FirstHandleHit(hs[1..], px, py);
      if rest.None? then None else Some(rest.value + 1)
  }

  /** The `for (const h of handles)` scan of the select tool. */
  method HandleUnder(hs: seq<Handle>, px: real, py: real) returns (found: Option<Handle>)
    ensures found.None? <==> FirstHandleHit(hs, px, py).None?
    ensures found.Some? ==> found.value == hs[FirstHandleHit(hs, px, py).value]
  {
    var i := 0;
    while i < |hs|
      invariant 0 <= i <= |hs|
      invariant forall j :: 0 <= j < i ==> !OnHandle(hs[j], px, py)
    {
      if OnHandle(hs[i], px, py) {
        return Some(hs[i]);
      }
      i := i + 1;
    }
    return None;
  }

  /** `if (selectedId)`: an empty id is falsy. */
  predicate HasSelection(st: Session.CanvasState)
  {
    st.selected.Some? && st.selected.value != ""
  }

  /** The resize the select tool starts, if the pointer is on a handle of the
      selected element's box. */
  function HandleGrab(st: Session.CanvasState, pt: Point): (r: Option<ResizeGrab>)
    ensures r.Some? ==> HasSelection(st) && r.value.elId == st.selected.value
    ensures r.Some? ==> r.value.startX == pt.x && r.value.startY == pt.y
  {
    if !HasSelection(st) then None
    else
      match Document.FindById(st.elements, st.selected.value)
      case None => None
      case Some(el) =>
        var bb := ElementBBox(Some(el));
        var hs := ResizeHandles(bb);
        match FirstHandleHit(hs, pt.x, pt.y)
        case None => None
        case Some(k) => Some(ResizeGrab(hs[k].id, pt.x, pt.y, bb.value, st.selected.value))
  }

  /** The handle test of `onPointerDown` with the select tool: the selected
      element's box, its eight handles, and the first handle under the pointer. */
  method GrabHandle(canvas: Session.CanvasSession, pt: Point) returns (grab: Option<ResizeGrab>)
    ensures grab == HandleGrab(canvas.State(), pt)
  {
    grab := None;
    if canvas.selected.Some? && canvas.selected.value != "" {
      var selEl := Document.FindById(canvas.elements, canvas.selected.value);
      if selEl.Some? {
        var bb := ElementBBox(selEl);
        var handles := ResizeHandles(bb);
        var h := HandleUnder(handles, pt.x, pt.y);
        if h.Some? {
          grab := Some(ResizeGrab(h.value.id, pt.x, pt.y, bb.value, canvas.selected.value));
        }
      }
    }
  }

  // ─── Pointer-down ─────────────────────────────────────────────────────

  /** `onPointerDown`.  `panButton` is the middle button or a held space bar. */
  function PointerDownStep(g: Gesture, st: Session.CanvasState, tool: string, pt: Point, panButton: bool, style: Fields): Outcome
  {
    var hit := TopHit(st.elements, pt.x, pt.y);
    if tool == "eraser" && hit.Some? then
      Outcome(g, Session.Delete(st, st.elements[hit.value].id))
    else if tool == "hand" || panButton then
      Outcome(g.(panning := true), st)
    else if tool == "text" then
      Outcome(g.(editing := Some(pt), textInput := ""), st)
    else if tool == "select" then
      var grab := HandleGrab(st, pt);
      if grab.Some? then Outcome(g.(resizing := grab), st)
      else if hit.Some? then
        var id := st.elements[hit.value].id;
        Outcome(g.(dragging := Some(Drag(pt.x, pt.y, id, 0.0, 0.0))), st.(selected := Some(id)))
      else Outcome(g, st.(selected := None))
    else if tool in SHAPE_TOOLS then
      Outcome(g.(drawing := Some(ShapeDraft(tool, pt.x, pt.y, 0.0, 0.0, style))), st)
    else if tool == "arrow" then
      Outcome(g.(drawing := Some(ArrowDraft(pt.x, pt.y, pt.x, pt.y, style))), st)
    else if tool == "pencil" then
      Outcome(g.(drawing := Some(StrokeDraft([pt], style))), st)
    else Outcome(g, st)
  }

  /** The eraser deletes the topmost element under the pointer and nothing
      else; over empty canvas it deletes nothing. */
  lemma EraserDeletesTopmost(g: Gesture, st: Session.CanvasState, pt: Point, panButton: bool, style: Fields)
    ensures var o, hit := PointerDownStep(g, st, "eraser", pt, panButton, style), TopHit(st.elements, pt.x, pt.y);
      && (hit.Some? ==>
            && o.gesture == g
            && o.canvas == Session.Delete(st, st.elements[hit.value].id)
            && (forall e :: e in o.canvas.elements <==> e in st.elements && e.id != st.elements[hit.value].id))
      && (hit.None? ==> o.canvas.elements == st.elements && o.canvas.undo == st.undo && o.canvas.pending == st.pending)
  {
    var hit := TopHit(st.elements, pt.x, pt.y);
    if hit.Some? {
      var top := st.elements[hit.value];
      assert top in st.elements;
      Session.DeleteRemoves(st, top.id);
    }
  }

  /** With the select tool, a press on a handle of the selection starts a
      resize; otherwise a press on an element selects the topmost one and
      starts dragging it; a press on empty canvas clears the selection. */
  lemma SelectPressRules(g: Gesture, st: Session.CanvasState, pt: Point, style: Fields)
    ensures var o, hit := PointerDownStep(g, st, "select", pt, false, style), TopHit(st.elements, pt.x, pt.y);
      && (HandleGrab(st, pt).Some? ==> o == Outcome(g.(resizing := HandleGrab(st, pt)), st))
      && (HandleGrab(st, pt).None? && hit.Some? ==>
            o.canvas == st.(selected := Some(st.elements[hit.value].id))
            && o.gesture.dragging == Some(Drag(pt.x, pt.y, st.elements[hit.value].id, 0.0, 0.0)))
      && (HandleGrab(st, pt).None? && hit.None? ==> o == Outcome(g, st.(selected := None)))
  {
  }

  // ─── Pointer-move ─────────────────────────────────────────────────────

  /** A drawing follows the pointer: a stroke gains the point, an arrow moves
      its head, a shape stretches from its anchor. */
  function Extend(d: Draft, pt: Point): Draft
  {
    match d
    case StrokeDraft(points, style) => StrokeDraft(points + [pt], style)
    case ArrowDraft(x1, y1, _, _, style) => ArrowDraft(x1, y1, pt.x, pt.y, style)
    case ShapeDraft(kind, x, y, _, _, style) => ShapeDraft(kind, x, y, pt.x - x, pt.y - y, style)
  }

  /** `handleResize`'s box: an 'e' or 's' handle stretches the far edge, a
      'w' or 'n' handle moves the origin by the pointer displacement; every
      side a handle names is kept at least 20. */
  function ResizeBox(handleId: string, o: BBox, dx: real, dy: real): BBox
  {
    var w := if 'e' in handleId then Max(20.0, o.width + dx) else o.width;
    var h := if 's' in handleId then Max(20.0, o.height + dy) else o.height;
    var x := if 'w' in handleId then o.x + dx else o.x;
    var w' := if 'w' in handleId then Max(20.0, o.width - dx) else w;
    var y := if 'n' in handleId then o.y + dy else o.y;
    var h' := if 'n' in handleId then Max(20.0, o.height - dy) else h;
    BBox(x, y, w', h')
  }

  function BoxFields(b: BBox): Fields
  {
    map["x" := Num(b.x), "y" := Num(b.y), "width" := Num(b.width), "height" := Num(b.height)]
  }

  /** `handleResize`: nothing once the element is gone. */
  function ResizeStep(st: Session.CanvasState, r: ResizeGrab, pt: Point): Session.CanvasState
  {
    if Document.FindById(st.elements, r.elId).None? then st
    else Session.Resize(st, r.elId, ResizePatch(r, pt))
  }

  /** The properties `handleResize` writes for the pointer at `pt`. */
  function ResizePatch(r: ResizeGrab, pt: Point): Fields
  {
    BoxFields(ResizeBox(r.handleId, r.origBBox, pt.x - r.startX, pt.y - r.startY))
  }

  /** The displacement since the previous frame that a drag passes to
      `moveElement` when the pointer is at `pt`. */
  function IncrementX(d: Drag, pt: Point): real
  {
    (pt.x - d.startX) - d.lastDx
  }

  function IncrementY(d: Drag, pt: Point): real
  {
    (pt.y - d.startY) - d.lastDy
  }

  /** The drag after that frame remembers the displacement passed on so far. */
  function DragAdvance(d: Drag, pt: Point): Drag
  {
    d.(lastDx := pt.x - d.startX, lastDy := pt.y - d.startY)
  }

  /** `onPointerMove`; a pan changes only the viewport, which is not modelled. */
  function PointerMoveStep(g: Gesture, st: Session.CanvasState, pt: Point): Outcome
  {
    if g.panning then Outcome(g, st)
    else if g.dragging.Some? then
      var d := g.dragging.value;
      Outcome(g.(dragging := Some(DragAdvance(d, pt))),
              Session.Move(st, d.elId, IncrementX(d, pt), IncrementY(d, pt)))
    else if g.resizing.Some? then Outcome(g, ResizeStep(st, g.resizing.value, pt))
    else if g.drawing.Some? then Outcome(g.(drawing := Some(Extend(g.drawing.value, pt))), st)
    else Outcome(g, st)
  }

  /** Each side a handle names ends up at least 20 long; a side it does not
      name keeps its original position and length. */
  lemma ResizeBoxRules(handleId: string, o: BBox, dx: real, dy: real)
    ensures var r := ResizeBox(handleId, o, dx, dy);
      && ('e' in handleId || 'w' in handleId ==> r.width >= 20.0)
      && ('s' in handleId || 'n' in handleId ==> r.height >= 20.0)
      && ('e' !in handleId && 'w' !in handleId ==> r.x == o.x && r.width == o.width)
      && ('s' !in handleId && 'n' !in handleId ==> r.y == o.y && r.height == o.height)
      && ('w' !in handleId ==> r.x == o.x)
      && ('n' !in handleId ==> r.y == o.y)
      && ('e' in handleId && 'w' !in handleId ==> r.width == Max(20.0, o.width + dx))
      && ('s' in handleId && 'n' !in handleId ==> r.height == Max(20.0, o.height + dy))
      && ('w' in handleId ==> r.x == o.x + dx && r.width == Max(20.0, o.width - dx))
      && ('n' in handleId ==> r.y == o.y + dy && r.height == Max(20.0, o.height - dy))
  {
  }

  /** Every handle `getResizeHandles` produces names at least one side, so a
      resize from any of them keeps a side at least 20 long. */
  lemma HandlesNameASide(b: BBox, k: nat)
    requires k < 8
    ensures var id := ResizeHandles(Some(b))[k].id;
      ('e' in id || 'w' in id) || ('s' in id || 'n' in id)
  {
    HandlesFollowCompass(b, k);
    var hs := ResizeHandles(Some(b));
    assert hs[k].id == HandleIds(hs)[k];
  }

  /** Dragging a west handle keeps the east edge in place until the width
      reaches 20; beyond that the origin keeps following the pointer while
      the width stays 20, so the whole box slides east. */
  lemma WestHandleDriftsWhenClamped(o: BBox, dx: real)
    ensures var r := ResizeBox("w", o, dx, 0.0);
      && (dx <= o.width - 20.0 ==> r.x + r.width == o.x + o.width)
      && (dx > o.width - 20.0 ==> r.width == 20.0 && r.x + r.width == o.x + dx + 20.0 && r.x + r.width > o.x + o.width)
  {
    assert 'w' in "w" && 'e' !in "w" && 's' !in "w" && 'n' !in "w";
  }

  /** Resizing writes x, y, width and height; an arrow or a stroke draws from
      its endpoints or points, so its geometry is not changed by it. */
  lemma ResizeKeepsArrowAndStrokeGeometry(e: Element, b: BBox)
    requires TypeOf(e) in {"arrow", "freehand"}
    ensures View(Merge(e, BoxFields(b))) == View(e)
  {
    var m := Merge(e, BoxFields(b));
    assert Field(m, "type") == Field(e, "type");
    assert Field(m, "points") == Field(e, "points");
    assert Field(m, "x1") == Field(e, "x1") && Field(m, "y1") == Field(e, "y1");
    assert Field(m, "x2") == Field(e, "x2") && Field(m, "y2") == Field(e, "y2");
  }

  // ─── Dragging ─────────────────────────────────────────────────────────

  lemma ShiftCompose(v: Value, a: real, b: real)
    ensures Shift(Shift(v, a), b) == Shift(v, a + b)
  {
  }

  lemma ShiftPointsCompose(ps: seq<Point>, a: real, b: real, c: real, d: real)
    ensures ShiftPoints(ShiftPoints(ps, a, b), c, d) == ShiftPoints(ps, a + c, b + d)
  {
    var l := ShiftPoints(ShiftPoints(ps, a, b), c, d);
    var r := ShiftPoints(ps, a + c, b + d);
    assert forall i :: 0 <= i < |ps| ==> l[i] == r[i];
  }

  /** Spreading a patch over an earlier one that it fully covers. */
  lemma MergeTwice(e: Element, m1: Fields, m2: Fields)
    requires m1.Keys <= m2.Keys
    ensures Merge(Merge(e, m1), m2) == Merge(e, m2)
  {
    assert (e.fields + m1) + m2 == e.fields + m2;
  }

  lemma TranslateComposeStroke(e: Element, ps: seq<Point>, a: real, b: real, c: real, d: real)
    requires TypeOf(e) == "freehand" && Field(e, "points") == Points(ps)
    ensures Document.Translate(Document.Translate(e, a, b), c, d) == Document.Translate(e, a + c, b + d)
  {
    var m1 := map["points" := Points(ShiftPoints(ps, a, b))];
    var e1 := Merge(e, m1);
    assert Document.Translate(e, a, b) == e1;
    assert Field(e1, "points") == Points(ShiftPoints(ps, a, b));
    ShiftPointsCompose(ps, a, b, c, d);
    assert Document.Translate(e1, c, d) == Merge(e1, map["points" := Points(ShiftPoints(ps, a + c, b + d))]);
    MergeTwice(e, m1, map["points" := Points(ShiftPoints(ps, a + c, b + d))]);
  }

  lemma TranslateComposeArrow(e: Element, a: real, b: real, c: real, d: real)
    requires TypeOf(e) == "arrow"
    ensures Document.Translate(Document.Translate(e, a, b), c, d) == Document.Translate(e, a + c, b + d)
  {
    var m1 := map["x1" := Shift(Field(e, "x1"), a), "y1" := Shift(Field(e, "y1"), b),
                  "x2" := Shift(Field(e, "x2"), a), "y2" := Shift(Field(e, "y2"), b)];
    var e1 := Merge(e, m1);
    assert Document.Translate(e, a, b) == e1;
    assert TypeOf(e1) == "arrow";
    assert Field(e1, "x1") == Shift(Field(e, "x1"), a) && Field(e1, "y1") == Shift(Field(e, "y1"), b);
    assert Field(e1, "x2") == Shift(Field(e, "x2"), a) && Field(e1, "y2") == Shift(Field(e, "y2"), b);
    ShiftCompose(Field(e, "x1"), a, c);
    ShiftCompose(Field(e, "y1"), b, d);
    ShiftCompose(Field(e, "x2"), a, c);
    ShiftCompose(Field(e, "y2"), b, d);
    var m2 := map["x1" := Shift(Field(e, "x1"), a + c), "y1" := Shift(Field(e, "y1"), b + d),
                  "x2" := Shift(Field(e, "x2"), a + c), "y2" := Shift(Field(e, "y2"), b + d)];
    assert Document.Translate(e1, c, d) == Merge(e1, m2);
    MergeTwice(e, m1, m2);
  }

  lemma TranslateComposeBox(e: Element, a: real, b: real, c: real, d: real)
    requires TypeOf(e) != "freehand" && TypeOf(e) != "arrow"
    ensures Document.Translate(Document.Translate(e, a, b), c, d) == Document.Translate(e, a + c, b + d)
  {
    var m1 := map["x" := Shift(Field(e, "x"), a), "y" := Shift(Field(e, "y"), b)];
    var e1 := Merge(e, m1);
    assert Document.Translate(e, a, b) == e1;
    ShiftCompose(Field(e, "x"), a, c);
    ShiftCompose(Field(e, "y"), b, d);
    var m2 := map["x" := Shift(Field(e, "x"), a + c), "y" := Shift(Field(e, "y"), b + d)];
    assert Document.Translate(e1, c, d) == Merge(e1, m2);
    MergeTwice(e, m1, m2);
  }

  /** Two moves of one element are one move by the summed displacement. */
  lemma TranslateCompose(e: Element, a: real, b: real, c: real, d: real)
    ensures Document.Translate(Document.Translate(e, a, b), c, d) == Document.Translate(e, a + c, b + d)
  {
    var t := TypeOf(e);
    if t == "freehand" {
      match Field(e, "points")
      case Points(ps) => TranslateComposeStroke(e, ps, a, b, c, d);
      case _ =>
        assert Document.Translate(e, a, b) == e;
        assert Document.Translate(e, a + c, b + d) == e;
    } else if t == "arrow" {
      TranslateComposeArrow(e, a, b, c, d);
    } else {
      TranslateComposeBox(e, a, b, c, d);
    }
  }

  lemma TranslateWhereCompose(els: seq<Element>, id: string, a: real, b: real, c: real, d: real)
    ensures Document.TranslateWhere(Document.TranslateWhere(els, id, a, b), id, c, d)
         == Document.TranslateWhere(els, id, a + c, b + d)
  {
    var l := Document.TranslateWhere(Document.TranslateWhere(els, id, a, b), id, c, d);
    var r := Document.TranslateWhere(els, id, a + c, b + d);
    forall i | 0 <= i < |els| ensures l[i] == r[i] {
      if els[i].id == id {
        TranslateCompose(els[i], a, b, c, d);
      }
    }
  }

  /** A pointer-move during a drag moves the dragged element by the increment
      and advances the drag. */
  lemma DragFrame(g: Gesture, st: Session.CanvasState, pt: Point)
    requires !g.panning && g.dragging.Some?
    ensures var d := g.dragging.value;
      && PointerMoveStep(g, st, pt).gesture == g.(dragging := Some(DragAdvance(d, pt)))
      && PointerMoveStep(g, st, pt).canvas
           == st.(elements := Document.TranslateWhere(st.elements, d.elId, IncrementX(d, pt), IncrementY(d, pt)))
  {
  }

  /** The drag after frames at the pointer positions `pts`. */
  function DragAfter(d: Drag, pts: seq<Point>): Drag
    decreases |pts|
  {
    if |pts| == 0 then d else DragAfter(DragAdvance(d, pts[0]), pts[1..])
  }

  /** The sum of the increments passed on during those frames. */
  function SumIncrementsX(d: Drag, pts: seq<Point>): real
    decreases |pts|
  {
    if |pts| == 0 then 0.0 else IncrementX(d, pts[0]) + SumIncrementsX(DragAdvance(d, pts[0]), pts[1..])
  }

  function SumIncrementsY(d: Drag, pts: seq<Point>): real
    decreases |pts|
  {
    if |pts| == 0 then 0.0 else IncrementY(d, pts[0]) + SumIncrementsY(DragAdvance(d, pts[0]), pts[1..])
  }

  /** The increments a drag passes to `moveElement` add up to the pointer's
      displacement since the drag started (less what was passed on before
      these frames), and the drag remembers that displacement. */
  lemma {:induction false} IncrementsSumToDisplacement(d: Drag, pts: seq<Point>)
    requires |pts| > 0
    ensures var last := pts[|pts| - 1];
      && SumIncrementsX(d, pts) == last.x - d.startX - d.lastDx
      && SumIncrementsY(d, pts) == last.y - d.startY - d.lastDy
      && DragAfter(d, pts) == d.(lastDx := last.x - d.startX, lastDy := last.y - d.startY)
    decreases |pts|
  {
    if |pts| > 1 {
      var d1 := DragAdvance(d, pts[0]);
      IncrementsSumToDisplacement(d1, pts[1..]);
      assert pts[1..][|pts[1..]| - 1] == pts[|pts| - 1];
    }
  }

  /** A fresh drag passes on, in total, exactly the pointer displacement. */
  lemma FreshDragSumsToDisplacement(pt0: Point, id: string, pts: seq<Point>)
    requires |pts| > 0
    ensures SumIncrementsX(Drag(pt0.x, pt0.y, id, 0.0, 0.0), pts) == pts[|pts| - 1].x - pt0.x
    ensures SumIncrementsY(Drag(pt0.x, pt0.y, id, 0.0, 0.0), pts) == pts[|pts| - 1].y - pt0.y
  {
    IncrementsSumToDisplacement(Drag(pt0.x, pt0.y, id, 0.0, 0.0), pts);
  }

  // ─── Pointer-up ───────────────────────────────────────────────────────

  /** A shape drawn leftward or upward has a negative size: flip it by
      moving the origin.  The box covers the same rectangle. */
  function Normalize(x: real, y: real, width: real, height: real): (b: BBox)
    ensures b.width >= 0.0 && b.height >= 0.0
    ensures b.x == Min(x, x + width) && b.x + b.width == Max(x, x + width)
    ensures b.y == Min(y, y + height) && b.y + b.height == Max(y, y + height)
  {
    BBox(if width < 0.0 then x + width else x, if height < 0.0 then y + height else y,
         if width < 0.0 then -width else width, if height < 0.0 then -height else height)
  }

  /** The properties a draft is committed with: its geometry, then the style. */
  function DraftProps(d: Draft): Fields
  {
    match d
    case ShapeDraft(kind, x, y, w, h, style) =>
      map["type" := Str(kind), "x" := Num(x), "y" := Num(y), "width" := Num(w), "height" := Num(h)] + style
    case ArrowDraft(x1, y1, x2, y2, style) =>
      map["type" := Str("arrow"), "x1" := Num(x1), "y1" := Num(y1), "x2" := Num(x2), "y2" := Num(y2)] + style
    case StrokeDraft(points, style) =>
      map["type" := Str("freehand"), "points" := Points(points)] + style
  }

  /** The element a draft becomes at pointer-up, or None when it is too small:
      a shape under 5 on both sides, an arrow shorter than 10, a stroke of
      fewer than 3 points. */
  function Finalize(d: Draft): (r: Option<Fields>)
    ensures d.ShapeDraft? ==>
      var b := Normalize(d.x, d.y, d.width, d.height);
      (r.None? <==> b.width < 5.0 && b.height < 5.0)
    ensures d.ArrowDraft? ==> (r.None? <==> SqDist(d.x1, d.y1, d.x2, d.y2) < 100.0)
    ensures d.StrokeDraft? ==> (r.None? <==> |d.points| < 3)
    ensures d.ShapeDraft? && r.Some? ==>
      var b := Normalize(d.x, d.y, d.width, d.height);
      r.value == DraftProps(d) + BoxFields(b) && b.width >= 0.0 && b.height >= 0.0
    ensures !d.ShapeDraft? && r.Some? ==> r.value == DraftProps(d)
  {
    match d
    case ShapeDraft(_, x, y, w, h, _) =>
      var b := Normalize(x, y, w, h);
      if b.width < 5.0 && b.height < 5.0 then None else Some(DraftProps(d) + BoxFields(b))
    case ArrowDraft(x1, y1, x2, y2, _) =>
      if Within(SqDist(x1, y1, x2, y2), 10.0) then None else Some(DraftProps(d))
    case StrokeDraft(points, _) =>
      if |points| < 3 then None else Some(DraftProps(d))
  }

  /** `onPointerUp`'s finishing of a drawing: a shape's box is normalised in
      place, and a drawing too small to keep is dropped. */
  method FinalizeDraft(d: Draft) returns (props: Option<Fields>)
    ensures props == Finalize(d)
  {
    var finalEl := DraftProps(d);
    match d {
      case ShapeDraft(_, x0, y0, w0, h0, _) =>
        var x, y, width, height := x0, y0, w0, h0;
        if width < 0.0 { x := x + width; width := -width; }
        if height < 0.0 { y := y + height; height := -height; }
        if width < 5.0 && height < 5.0 {
          return None;
        }
        finalEl := finalEl + BoxFields(BBox(x, y, width, height));
      case ArrowDraft(x1, y1, x2, y2, _) =>
        var dx := x2 - x1;
        var dy := y2 - y1;
        if Within(Sq(dx) + Sq(dy), 10.0) {
          return None;
        }
      case StrokeDraft(points, _) =>
        if |points| < 3 {
          return None;
        }
    }
    return Some(finalEl);
  }

  /** `onPointerUp`: the first gesture in progress, in the order pan, drag,
      resize, drawing, is finished; a drawing that survives `Finalize` is
      added under the id `newId`. */
  function PointerUpStep(g: Gesture, st: Session.CanvasState, newId: string): Outcome
  {
    if g.panning then Outcome(g.(panning := false), st)
    else if g.dragging.Some? then Outcome(g.(dragging := None), Session.CommitMove(st, g.dragging.value.elId))
    else if g.resizing.Some? then Outcome(g.(resizing := None), Session.CommitResize(st, g.resizing.value.elId))
    else if g.drawing.Some? then
      match Finalize(g.drawing.value)
      case None => Outcome(g.(drawing := None), st)
      case Some(props) => Outcome(g.(drawing := None), Session.Add(st, newId, None, props))
    else Outcome(g, st)
  }

  /** Finishing a drawing adds exactly one element, on top, or nothing when
      the drawing is discarded; either way the drawing is over. */
  lemma PointerUpAddsAtMostOne(g: Gesture, st: Session.CanvasState, newId: string)
    requires !g.panning && g.dragging.None? && g.resizing.None? && g.drawing.Some?
    ensures var o := PointerUpStep(g, st, newId); o.gesture == g.(drawing := None)
    ensures Finalize(g.drawing.value).None? ==> PointerUpStep(g, st, newId).canvas == st
    ensures Finalize(g.drawing.value).Some? ==>
      var o := PointerUpStep(g, st, newId);
      && o.canvas.elements == st.elements + [Element(newId, Finalize(g.drawing.value).value)]
      && o.canvas.undo == st.undo + [Session.Action(Session.AddAction, Element(newId, Finalize(g.drawing.value).value))]
      && (Session.CanPersist(st) ==> |o.canvas.pending| == |st.pending| + 1)
  {
    if Finalize(g.drawing.value).Some? {
      Session.AddAppends(st, newId, None, Finalize(g.drawing.value).value);
    }
  }

  /** Releasing a drag commits the move once, for the dragged element. */
  lemma PointerUpCommitsDrag(g: Gesture, st: Session.CanvasState, newId: string)
    requires !g.panning && g.dragging.Some?
    ensures PointerUpStep(g, st, newId) == Outcome(g.(dragging := None), Session.CommitMove(st, g.dragging.value.elId))
    ensures Session.CanPersist(st) && Document.HasId(st.elements, g.dragging.value.elId) ==>
      |PointerUpStep(g, st, newId).canvas.pending| == |st.pending| + 1
  {
    if Session.CanPersist(st) && Document.HasId(st.elements, g.dragging.value.elId) {
      Session.CommitEmitsCurrentElement(st, g.dragging.value.elId);
    }
  }

  // ─── Text ─────────────────────────────────────────────────────────────

  /** The characters `String.prototype.trim` strips: white space and line
      terminators. */
  predicate IsSpace(c: char)
  {
    var n := c as int;
    (0x09 <= n <= 0x0D) || n == 0x20 || n == 0xA0 || n == 0x1680 || (0x2000 <= n <= 0x200A)
    || n == 0x2028 || n == 0x2029 || n == 0x202F || n == 0x205F || n == 0x3000 || n == 0xFEFF
  }

  /** The number of white-space characters `s` starts with. */
  function Leading(s: string): (n: nat)
    ensures n <= |s|
    ensures forall i :: 0 <= i < n ==> IsSpace(s[i])
    ensures n < |s| ==> !IsSpace(s[n])
  {
    if |s| > 0 && IsSpace(s[0]) then 1 + Leading(s[1..]) else 0
  }

  /** The number of white-space characters `s` ends with. */
  function Trailing(s: string): (n: nat)
    ensures n <= |s|
    ensures forall i :: |s| - n <= i < |s| ==> IsSpace(s[i])
    ensures n < |s| ==> !IsSpace(s[|s| - 1 - n])
  {
    if |s| > 0 && IsSpace(s[|s| - 1]) then 1 + Trailing(s[..|s| - 1]) else 0
  }

  /** `s.trim()`: s without its leading and trailing white space. */
  function Trim(s: string): (r: string)
    ensures r == "" <==> forall i :: 0 <= i < |s| ==> IsSpace(s[i])
    ensures r != "" ==> r == s[Leading(s)..|s| - Trailing(s)] && !IsSpace(r[0]) && !IsSpace(r[|r| - 1])
  {
    var a := Leading(s);
    if a == |s| then ""
    else
      var b := |s| - Trailing(s);
      assert !IsSpace(s[a]);
      assert a < b;
      s[a..b]
  }

  /** `currentStyle.fontSize || 16` */
  function FontSize(style: Fields): Value
  {
    Or(Get(style, "fontSize"), Num(16.0))
  }

  /** `Math.max(120, length * fontSize * 0.6)`; a font size that is not a
      number makes NaN. */
  function TextWidth(length: nat, fontSize: Value): Value
  {
    match fontSize
    case Num(f) => Num(Max(120.0, (length as real) * f * 0.6))
    case _ => NotANumber
  }

  /** The element `commitText` adds for the text typed at `at`. */
  function TextProps(at: Point, text: string, style: Fields): Fields
  {
    map["type" := Str("text"),
        "x" := Num(at.x),
        "y" := Num(at.y),
        "width" := TextWidth(|text|, FontSize(style)),
        "height" := Num(40.0),
        "text" := Str(text),
        "fontSize" := FontSize(style),
        "fontFamily" := Or(Get(style, "fontFamily"), Str("normal")),
        "textAlign" := Or(Get(style, "textAlign"), Str("left")),
        "strokeColor" := Get(style, "strokeColor"),
        "opacity" := Get(style, "opacity")]
  }

  /** `commitText`: adds the typed text unless it is blank, then ends the editing. */
  function CommitTextStep(g: Gesture, st: Session.CanvasState, newId: string, style: Fields): Outcome
    requires g.editing.Some?
  {
    var st' := if Trim(g.textInput) != "" then Session.Add(st, newId, None, TextProps(g.editing.value, g.textInput, style)) else st;
    Outcome(g.(editing := None, textInput := ""), st')
  }

  /** Blank input adds nothing; any other input adds one text element at
      least 120 wide and 40 high, sized by the font (16 by default). */
  lemma CommitTextRules(g: Gesture, st: Session.CanvasState, newId: string, style: Fields)
    requires g.editing.Some?
    ensures var o := CommitTextStep(g, st, newId, style);
      && o.gesture.editing.None? && o.gesture.textInput == ""
      && ((forall i :: 0 <= i < |g.textInput| ==> IsSpace(g.textInput[i])) ==> o.canvas == st)
      && (!(forall i :: 0 <= i < |g.textInput| ==> IsSpace(g.textInput[i])) ==>
            o.canvas.elements == st.elements + [Element(newId, TextProps(g.editing.value, g.textInput, style))])
  {
  }

  /** The committed text element is 40 high and at least 120 wide; without a
      font size in the style it is sized for 16. */
  lemma TextPropsRules(at: Point, text: string, style: Fields)
    ensures var p := TextProps(at, text, style);
      && p["height"] == Num(40.0) && p["text"] == Str(text)
      && (!Truthy(Get(style, "fontSize")) ==>
            p["fontSize"] == Num(16.0) && p["width"] == Num(Max(120.0, (|text| as real) * 16.0 * 0.6)))
      && (p["width"].Num? ==> p["width"].n >= 120.0)
  {
  }

  // ─── The controller ───────────────────────────────────────────────────

  class CanvasController {
    var drawing: Option<Draft>
    var dragging: Option<Drag>
    var resizing: Option<ResizeGrab>
    var panning: bool
    var editing: Option<Point>
    var textInput: string

    function Current(): Gesture
      reads this
    {
      GestureState(drawing, dragging, resizing, panning, editing, textInput)
    }

    /** No gesture in progress. */
    constructor ()
      ensures Current() == GestureState(None, None, None, false, None, "")
    {
      drawing, dragging, resizing := None, None, None;
      panning, editing, textInput := false, None, "";
    }

    method PointerDown(canvas: Session.CanvasSession, tool: string, pt: Point, panButton: bool, style: Fields)
      requires canvas.Valid()
      modifies this, canvas
      ensures canvas.Valid()
      ensures Outcome(Current(), canvas.State())
           == PointerDownStep(old(Current()), old(canvas.State()), tool, pt, panButton, style)
    {
      if tool == "eraser" {
        var clicked := FindTopElement(canvas.elements, pt.x, pt.y);
        if clicked.Some? {
          canvas.DeleteElement(clicked.value.id);
          return;
        }
      }
      if tool == "hand" || panButton {
        panning := true;
        return;
      }
      if tool == "text" {
        editing := Some(pt);
        textInput := "";
        return;
      }
      if tool == "select" {
        var grab := GrabHandle(canvas, pt);
        if grab.Some? {
          resizing := grab;
          return;
        }
        var hit := FindTopElement(canvas.elements, pt.x, pt.y);
        if hit.Some? {
          canvas.SetSelectedId(Some(hit.value.id));
          dragging := Some(Drag(pt.x, pt.y, hit.value.id, 0.0, 0.0));
        } else {
          canvas.SetSelectedId(None);
        }
        return;
      }
      if tool in SHAPE_TOOLS {
        drawing := Some(ShapeDraft(tool, pt.x, pt.y, 0.0, 0.0, style));
        return;
      }
      if tool == "arrow" {
        drawing := Some(ArrowDraft(pt.x, pt.y, pt.x, pt.y, style));
        return;
      }
      if tool == "pencil" {
        drawing := Some(StrokeDraft([pt], style));
        return;
      }
    }

    /** `handleResize`, with the box kept in local variables. */
    method HandleResize(canvas: Session.CanvasSession, r: ResizeGrab, pt: Point)
      requires canvas.Valid()
      modifies canvas
      ensures canvas.Valid()
      ensures canvas.State() == ResizeStep(old(canvas.State()), r, pt)
    {
      var el := Document.FindById(canvas.elements, r.elId);
      if el.None? {
        return;
      }
      var dx := pt.x - r.startX;
      var dy := pt.y - r.startY;
      var newX, newY := r.origBBox.x, r.origBBox.y;
      var newW, newH := r.origBBox.width, r.origBBox.height;
      if 'e' in r.handleId { newW := Max(20.0, r.origBBox.width + dx); }
      if 's' in r.handleId { newH := Max(20.0, r.origBBox.height + dy); }
      if 'w' in r.handleId { newX := r.origBBox.x + dx; newW := Max(20.0, r.origBBox.width - dx); }
      if 'n' in r.handleId { newY := r.origBBox.y + dy; newH := Max(20.0, r.origBBox.height - dy); }
      ghost var box := ResizeBox(r.handleId, r.origBBox, dx, dy);
      assert newX == box.x && newW == box.width;
      assert newY == box.y && newH == box.height;
      assert BoxFields(BBox(newX, newY, newW, newH)) == ResizePatch(r, pt);
      canvas.ResizeElement(r.elId, BoxFields(BBox(newX, newY, newW, newH)));
    }

    /** One drag frame: move by the increment since the last frame and
        remember the new displacement. */
    method DragTo(canvas: Session.CanvasSession, d: Drag, pt: Point)
      requires canvas.Valid()
      modifies this, canvas
      ensures canvas.Valid()
      ensures Current() == old(Current()).(dragging := Some(DragAdvance(d, pt)))
      ensures canvas.State() == Session.Move(old(canvas.State()), d.elId, IncrementX(d, pt), IncrementY(d, pt))
    {
      var dx := pt.x - d.startX;
      var dy := pt.y - d.startY;
      canvas.MoveElement(d.elId, dx - d.lastDx, dy - d.lastDy);
      dragging := Some(d.(lastDx := dx, lastDy := dy));
    }

    method PointerMove(canvas: Session.CanvasSession, pt: Point)
      requires canvas.Valid()
      modifies this, canvas
      ensures canvas.Valid()
      ensures Outcome(Current(), canvas.State()) == PointerMoveStep(old(Current()), old(canvas.State()), pt)
    {
      if panning {
        return;
      }
      if dragging.Some? {
        DragTo(canvas, dragging.value, pt);
        return;
      }
      if resizing.Some? {
        HandleResize(canvas, resizing.value, pt);
        return;
      }
      if drawing.Some? {
        drawing := Some(Extend(drawing.value, pt));
      }
    }

    method PointerUp(canvas: Session.CanvasSession, newId: string)
      requires canvas.Valid()
      modifies this, canvas
      ensures canvas.Valid()
      ensures Outcome(Current(), canvas.State()) == PointerUpStep(old(Current()), old(canvas.State()), newId)
    {
      if panning {
        panning := false;
        return;
      }
      if dragging.Some? {
        canvas.CommitMoveElement(dragging.value.elId);
        dragging := None;
        return;
      }
      if resizing.Some? {
        canvas.CommitResizeElement(resizing.value.elId);
        resizing := None;
        return;
      }
      if drawing.Some? {
        var finalEl := FinalizeDraft(drawing.value);
        if finalEl.Some? {
          var _ := canvas.AddElement(newId, None, finalEl.value);
        }
        drawing := None;
      }
    }

    /** The text overlay's input handler. */
    method SetTextInput(text: string)
      modifies this
      ensures Current() == old(Current()).(textInput := text)
    {
      textInput := text;
    }

    method CommitText(canvas: Session.CanvasSession, newId: string, style: Fields)
      requires canvas.Valid() && editing.Some?
      modifies this, canvas
      ensures canvas.Valid()
      ensures Outcome(Current(), canvas.State()) == CommitTextStep(old(Current()), old(canvas.State()), newId, style)
    {
      if Trim(textInput) != "" {
        var _ := canvas.AddElement(newId, None, TextProps(editing.value, textInput, style));
      }
      editing := None;
      textInput := "";
    }

    /** Escape on the text overlay: the edit ends and its input is dropped;
        nothing is added to the canvas. */
    method CancelText()
      modifies this
      ensures Current() == old(Current()).(editing := None, textInput := "")
    {
      editing := None;
      textInput := "";
    }
  }
}
