/** The canvas session held by the `useCanvas` hook: the element list, the
    selection, the undo and redo stacks of ADD/DELETE actions, the event
    counter and the queue of events waiting to be sent.

    The pure functions below say what each operation does to the whole
    state; the class `CanvasSession` keeps the same state in fields and its
    methods are proved to perform exactly those transitions.  Sending is
    recorded rather than performed: `sent` lists every event handed to the
    backend and `snapshots` every snapshot requested. */
module Session {
  import opened Elements
  import opened Document
  import opened Replay

  datatype ActionKind = AddAction | DeleteAction

  /** An undo-stack entry: the element that was added or deleted. */
  datatype Action = Action(kind: ActionKind, element: Element)

  /** A snapshot of the element list, tagged with the last event order it covers. */
  datatype Snapshot = Snapshot(elements: seq<Element>, lastEventOrder: int)

  /** The canvas id "" stands for a missing id (`!canvasIdRef.current`). */
  datatype CanvasState = CanvasState(
    elements: seq<Element>,
    selected: Option<string>,
    undo: seq<Action>,
    redo: seq<Action>,
    canvasId: string,
    ready: bool,
    eventOrder: int,
    pending: seq<Event>,
    sent: seq<Event>,
    snapshots: seq<Snapshot>)

  const SNAPSHOT_EVERY := 50

  // ─── Transitions ──────────────────────────────────────────────────────

  predicate CanPersist(st: CanvasState)
  {
    st.ready && st.canvasId != ""
  }

  /** `persistEvent`: nothing without a ready backend and a canvas id;
      otherwise the counter goes up by one and the event is queued with it. */
  function Persist(st: CanvasState, kind: string, data: Element): CanvasState
  {
    if !CanPersist(st) then st
    else st.(eventOrder := st.eventOrder + 1,
             pending := st.pending + [Event(kind, data, st.eventOrder + 1)])
  }

  /** `flushEvents`: the queue is emptied and sent in queue order; a snapshot
      of the current elements is requested when the counter is a positive
      multiple of 50. */
  function Flush(st: CanvasState): CanvasState
  {
    st.(pending := [],
        sent := st.sent + st.pending,
        snapshots := if st.eventOrder > 0 && st.eventOrder % SNAPSHOT_EVERY == 0
                     then st.snapshots + [Snapshot(st.elements, st.eventOrder)]
                     else st.snapshots)
  }

  /** `{ id: uuidv4(), ...el }`: an id the caller supplies wins over the generated one. */
  function NewElement(newId: string, given: Option<string>, props: Fields): Element
  {
    Element(if given.Some? then given.value else newId, props)
  }

  function Add(st: CanvasState, newId: string, given: Option<string>, props: Fields): CanvasState
  {
    var el := NewElement(newId, given, props);
    Persist(st.(elements := st.elements + [el], undo := st.undo + [Action(AddAction, el)], redo := []), ADD, el)
  }

  function Update(st: CanvasState, id: string, updates: Fields): CanvasState
  {
    Persist(st.(elements := MergeWhere(st.elements, id, updates)), UPDATE, Element(id, updates))
  }

  function Delete(st: CanvasState, id: string): CanvasState
  {
    match FindById(st.elements, id)
    case None => st
    case Some(el) =>
      Persist(st.(elements := RemoveId(st.elements, id),
                  undo := st.undo + [Action(DeleteAction, el)],
                  redo := [],
                  selected := if st.selected == Some(id) then None else st.selected),
              DELETE, Element(id, map[]))
  }

  function Move(st: CanvasState, id: string, dx: real, dy: real): CanvasState
  {
    st.(elements := TranslateWhere(st.elements, id, dx, dy))
  }

  function CommitMove(st: CanvasState, id: string): CanvasState
  {
    match FindById(st.elements, id)
    case None => st
    case Some(el) => Persist(st, MOVE, el)
  }

  function Resize(st: CanvasState, id: string, updates: Fields): CanvasState
  {
    st.(elements := MergeWhere(st.elements, id, updates))
  }

  function CommitResize(st: CanvasState, id: string): CanvasState
  {
    match FindById(st.elements, id)
    case None => st
    case Some(el) => Persist(st, RESIZE, el)
  }

  function ReorderPayload(id: string, direction: Value): Element
  {
    Element(id, map["direction" := direction])
  }

  function ReorderLayer(st: CanvasState, id: string, direction: Value): CanvasState
  {
    Persist(st.(elements := Reorder(st.elements, id, direction)), REORDER, ReorderPayload(id, direction))
  }

  /** `undo`: pop, move the action to the redo stack, invert it. */
  function Undo(st: CanvasState): CanvasState
  {
    if |st.undo| == 0 then st
    else
      var a := st.undo[|st.undo| - 1];
      var popped := st.(undo := st.undo[..|st.undo| - 1], redo := st.redo + [a]);
      match a.kind
      case AddAction =>
        Persist(popped.(elements := RemoveId(st.elements, a.element.id)), DELETE, Element(a.element.id, map[]))
      case DeleteAction =>
        Persist(popped.(elements := st.elements + [a.element]), ADD, a.element)
  }

  /** `redo`: pop, move the action back to the undo stack, perform it again. */
  function Redo(st: CanvasState): CanvasState
  {
    if |st.redo| == 0 then st
    else
      var a := st.redo[|st.redo| - 1];
      var popped := st.(redo := st.redo[..|st.redo| - 1], undo := st.undo + [a]);
      match a.kind
      case AddAction =>
        Persist(popped.(elements := st.elements + [a.element]), ADD, a.element)
      case DeleteAction =>
        Persist(popped.(elements := RemoveId(st.elements, a.element.id)), DELETE, Element(a.element.id, map[]))
  }

  function Clear(st: CanvasState): CanvasState
  {
    Persist(st.(elements := [], undo := [], redo := [], selected := None), CLEAR, Element("", map[]))
  }

  /** The order bookkeeping of `loadCanvasFromBackend` after a successful
      load: start from the snapshot (if any) and its order, replay the
      later events, and take the order of the last one. */
  function Load(st: CanvasState, canvasId: string, snapshot: Option<Snapshot>, events: seq<Event>): CanvasState
  {
    var initial := if snapshot.Some? then snapshot.value.elements else [];
    var order0 := if snapshot.Some? then snapshot.value.lastEventOrder else st.eventOrder;
    st.(canvasId := canvasId,
        elements := ReplayAll(events, initial),
        eventOrder := if |events| > 0 then events[|events| - 1].order else order0,
        ready := true)
  }

  // ─── Invariant: the queue is numbered consecutively ───────────────────

  /** The queued events carry consecutive orders ending at the counter. */
  predicate QueueConsecutive(st: CanvasState)
  {
    forall i :: 0 <= i < |st.pending| ==> st.pending[i].order == st.eventOrder - |st.pending| + 1 + i
  }

  /** Nothing is queued while the backend is not ready, since `persistEvent`
      returns before queueing until then. */
  predicate QueueNeedsBackend(st: CanvasState)
  {
    !st.ready ==> st.pending == []
  }

  /** A load starts from an offline session with an empty queue, so the
      loaded session is online with a (still empty) consecutive queue. */
  lemma LoadKeepsQueue(st: CanvasState, canvasId: string, snapshot: Option<Snapshot>, events: seq<Event>)
    requires !st.ready && QueueNeedsBackend(st)
    ensures Load(st, canvasId, snapshot, events).ready
    ensures Load(st, canvasId, snapshot, events).pending == []
    ensures QueueConsecutive(Load(st, canvasId, snapshot, events))
    ensures QueueNeedsBackend(Load(st, canvasId, snapshot, events))
  {
  }

  lemma QueueIsIncreasing(st: CanvasState)
    requires QueueConsecutive(st)
    ensures forall i, j :: 0 <= i < j < |st.pending| ==> st.pending[i].order < st.pending[j].order
    ensures forall i :: 0 <= i < |st.pending| ==> st.pending[i].order <= st.eventOrder
  {
  }

  /** `persistEvent` raises the counter by exactly one and queues the event
      under the new value, or changes nothing at all. */
  lemma PersistNumbers(st: CanvasState, kind: string, data: Element)
    requires QueueConsecutive(st)
    ensures CanPersist(st) ==> Persist(st, kind, data).eventOrder == st.eventOrder + 1
    ensures CanPersist(st) ==> Persist(st, kind, data).pending == st.pending + [Event(kind, data, st.eventOrder + 1)]
    ensures !CanPersist(st) ==> Persist(st, kind, data) == st
    ensures QueueConsecutive(Persist(st, kind, data))
  {
    var r := Persist(st, kind, data);
    if CanPersist(st) {
      forall i | 0 <= i < |r.pending|
        ensures r.pending[i].order == r.eventOrder - |r.pending| + 1 + i
      {
        if i < |st.pending| {
          assert r.pending[i] == st.pending[i];
        }
      }
    }
  }

  /** Flushing empties the queue, sends it in order and snapshots exactly at
      positive multiples of 50. */
  lemma FlushSendsInOrder(st: CanvasState)
    ensures Flush(st).pending == [] && QueueConsecutive(Flush(st))
    ensures Flush(st).sent == st.sent + st.pending
    ensures Flush(st).elements == st.elements && Flush(st).eventOrder == st.eventOrder
    ensures |Flush(st).snapshots| == |st.snapshots| + 1 <==> st.eventOrder > 0 && st.eventOrder % 50 == 0
    ensures |Flush(st).snapshots| == |st.snapshots| + 1 ==>
      Flush(st).snapshots[|st.snapshots|] == Snapshot(st.elements, st.eventOrder)
  {
  }

  /** The snapshot test looks at the counter only when the queue is flushed:
      a batch whose orders step over a multiple of 50 takes no snapshot. */
  lemma SnapshotSkippedAcrossMultiple(st: CanvasState, kind: string, data: Element)
    requires CanPersist(st) && st.eventOrder == 49
    ensures Persist(st, kind, data).pending[|st.pending|].order == 50
    ensures Flush(Persist(Persist(st, kind, data), kind, data)).snapshots == st.snapshots
  {
  }

  // ─── Properties of the operations ─────────────────────────────────────

  /** `addElement` appends exactly one element on top, records it for undo,
      forgets the redo history and emits one ADD_ELEMENT. */
  lemma AddAppends(st: CanvasState, newId: string, given: Option<string>, props: Fields)
    ensures var r, el := Add(st, newId, given, props), NewElement(newId, given, props);
      r.elements == st.elements + [el] && r.undo == st.undo + [Action(AddAction, el)] && r.redo == []
      && el.id == (if given.Some? then given.value else newId)
      && (CanPersist(st) ==> r.pending == st.pending + [Event(ADD, el, st.eventOrder + 1)])
      && (!CanPersist(st) ==> r.pending == st.pending)
  {
  }

  /** `deleteElement` of an unknown id changes nothing: no undo entry, no event. */
  lemma DeleteUnknownIsNoOp(st: CanvasState, id: string)
    requires !HasId(st.elements, id)
    ensures Delete(st, id) == st
  {
  }

  /** `deleteElement` of a known id removes it, remembers the element for
      undo, clears redo, emits DELETE_ELEMENT and drops the selection of it. */
  lemma DeleteRemoves(st: CanvasState, id: string)
    requires HasId(st.elements, id)
    ensures var r := Delete(st, id);
      (forall e :: e in r.elements <==> e in st.elements && e.id != id)
      && |r.undo| == |st.undo| + 1 && r.undo[..|st.undo|] == st.undo
      && r.undo[|st.undo|].kind == DeleteAction && r.undo[|st.undo|].element in st.elements
      && r.undo[|st.undo|].element.id == id
      && r.redo == []
      && (st.selected == Some(id) ==> r.selected == None)
      && (st.selected != Some(id) ==> r.selected == st.selected)
      && (CanPersist(st) ==> r.pending == st.pending + [Event(DELETE, Element(id, map[]), st.eventOrder + 1)])
  {
  }

  /** `moveElement` touches only the element list, and only the element with the id. */
  lemma MoveTouchesOnlyTarget(st: CanvasState, id: string, dx: real, dy: real)
    ensures var r := Move(st, id, dx, dy);
      r == st.(elements := r.elements) && |r.elements| == |st.elements|
      && (forall i :: 0 <= i < |st.elements| && st.elements[i].id != id ==> r.elements[i] == st.elements[i])
      && (forall i :: 0 <= i < |st.elements| ==> r.elements[i].id == st.elements[i].id)
  {
  }

  /** `commitMove` and `commitResize` emit one event with the current element
      when it exists, and nothing otherwise. */
  lemma CommitEmitsCurrentElement(st: CanvasState, id: string)
    requires CanPersist(st)
    ensures HasId(st.elements, id) ==>
      CommitMove(st, id).pending == st.pending + [Event(MOVE, FindById(st.elements, id).value, st.eventOrder + 1)]
      && CommitResize(st, id).pending == st.pending + [Event(RESIZE, FindById(st.elements, id).value, st.eventOrder + 1)]
    ensures !HasId(st.elements, id) ==> CommitMove(st, id) == st && CommitResize(st, id) == st
    ensures CommitMove(st, id).elements == st.elements && CommitResize(st, id).elements == st.elements
  {
  }

  /** `reorderElement` emits its event even when the id is unknown and the
      list stays as it was. */
  lemma ReorderAlwaysEmits(st: CanvasState, id: string, direction: Value)
    requires CanPersist(st) && !HasId(st.elements, id)
    ensures ReorderLayer(st, id, direction).elements == st.elements
    ensures ReorderLayer(st, id, direction).pending == st.pending + [Event(REORDER, ReorderPayload(id, direction), st.eventOrder + 1)]
  {
  }

  lemma UndoRedoEmptyAreNoOps(st: CanvasState)
    ensures |st.undo| == 0 ==> Undo(st) == st
    ensures |st.redo| == 0 ==> Redo(st) == st
  {
  }

  /** Neither `undo` nor `redo` clears the other stack: undoing then redoing
      gives both stacks back. */
  lemma UndoThenRedoRestoresStacks(st: CanvasState)
    requires |st.undo| > 0
    ensures Redo(Undo(st)).undo == st.undo && Redo(Undo(st)).redo == st.redo
  {
    var n := |st.undo|;
    assert st.undo[..n - 1] + [st.undo[n - 1]] == st.undo;
    var u := Undo(st);
    assert u.redo[..|u.redo| - 1] == st.redo;
  }

  lemma RedoThenUndoRestoresStacks(st: CanvasState)
    requires |st.redo| > 0
    ensures Undo(Redo(st)).undo == st.undo && Undo(Redo(st)).redo == st.redo
  {
    var n := |st.redo|;
    assert st.redo[..n - 1] + [st.redo[n - 1]] == st.redo;
    var r := Redo(st);
    assert r.undo[..|r.undo| - 1] == st.undo;
  }

  /** Undoing an add whose id was new gives back the element list from
      before the add. */
  lemma AddThenUndoRestoresElements(st: CanvasState, newId: string, given: Option<string>, props: Fields)
    requires !HasId(st.elements, NewElement(newId, given, props).id)
    ensures Undo(Add(st, newId, given, props)).elements == st.elements
    ensures Undo(Add(st, newId, given, props)).undo == st.undo
  {
    var el := NewElement(newId, given, props);
    RemoveIdAppend(st.elements, [el], el.id);
    RemoveIdAbsent(st.elements, el.id);
    assert RemoveId([el], el.id) == [];
    var a := Add(st, newId, given, props);
    assert a.undo[..|a.undo| - 1] == st.undo;
  }

  /** Undoing a delete puts the element back on top, not where it was. */
  lemma DeleteThenUndoAppends(st: CanvasState, id: string)
    requires HasId(st.elements, id)
    ensures Undo(Delete(st, id)).elements == RemoveId(st.elements, id) + [FindById(st.elements, id).value]
  {
  }

  /** `clearCanvas` empties the list, both stacks and the selection. */
  lemma ClearEmpties(st: CanvasState)
    ensures Clear(st).elements == [] && Clear(st).undo == [] && Clear(st).redo == [] && Clear(st).selected == None
    ensures CanPersist(st) ==> Clear(st).pending == st.pending + [Event(CLEAR, Element("", map[]), st.eventOrder + 1)]
  {
  }

  /** The last event `after` queued replays, on the element list of
      `before`, to the element list of `after`. */
  predicate ReplaysToLocalChange(before: CanvasState, after: CanvasState)
  {
    |after.pending| > 0 && Apply(before.elements, after.pending[|after.pending| - 1]) == after.elements
  }

  /** Every event the session emits replays, on the list it was emitted
      from, to the list the session shows: ADD_ELEMENT, */
  lemma AddReplays(st: CanvasState, newId: string, given: Option<string>, props: Fields)
    requires CanPersist(st)
    ensures ReplaysToLocalChange(st, Add(st, newId, given, props))
  {
  }

  /** UPDATE_ELEMENT, */
  lemma UpdateReplays(st: CanvasState, id: string, updates: Fields)
    requires CanPersist(st)
    ensures ReplaysToLocalChange(st, Update(st, id, updates))
  {
  }

  /** DELETE_ELEMENT, */
  lemma DeleteReplays(st: CanvasState, id: string)
    requires CanPersist(st) && HasId(st.elements, id)
    ensures ReplaysToLocalChange(st, Delete(st, id))
  {
  }

  /** REORDER_ELEMENT, */
  lemma ReorderReplays(st: CanvasState, id: string, direction: Value)
    requires CanPersist(st)
    ensures ReplaysToLocalChange(st, ReorderLayer(st, id, direction))
  {
    assert Get(ReorderPayload(id, direction).fields, "direction") == direction;
  }

  /** the inverse event of an undo and of a redo, */
  lemma UndoRedoReplay(st: CanvasState)
    requires CanPersist(st)
    ensures |st.undo| > 0 ==> ReplaysToLocalChange(st, Undo(st))
    ensures |st.redo| > 0 ==> ReplaysToLocalChange(st, Redo(st))
  {
  }

  /** and CLEAR_CANVAS. */
  lemma ClearReplays(st: CanvasState)
    requires CanPersist(st)
    ensures ReplaysToLocalChange(st, Clear(st))
  {
  }

  /** After a load whose events are ascending and newer than the snapshot,
      the next persisted event is numbered above every loaded order. */
  lemma LoadThenPersistIsFresh(st: CanvasState, canvasId: string, snapshot: Option<Snapshot>, events: seq<Event>, kind: string, data: Element)
    requires canvasId != "" && Ascending(events)
    requires snapshot.Some? ==> forall ev :: ev in events ==> ev.order > snapshot.value.lastEventOrder
    ensures var r := Persist(Load(st, canvasId, snapshot, events), kind, data);
      var order := r.pending[|r.pending| - 1].order;
      (forall ev :: ev in events ==> ev.order < order)
      && (snapshot.Some? ==> snapshot.value.lastEventOrder < order)
  {
    if |events| > 0 {
      LastOrderIsLargest(events);
    }
  }

  // ─── The session object ───────────────────────────────────────────────

  class CanvasSession {
    var elements: seq<Element>
    var selected: Option<string>
    var undoStack: seq<Action>
    var redoStack: seq<Action>
    var canvasId: string
    var backendReady: bool
    var eventOrder: int
    var pending: seq<Event>
    var sent: seq<Event>
    var snapshots: seq<Snapshot>

    function State(): CanvasState
      reads this
    {
      CanvasState(elements, selected, undoStack, redoStack, canvasId, backendReady, eventOrder, pending, sent, snapshots)
    }

    predicate Valid()
      reads this
    {
      QueueConsecutive(State()) && QueueNeedsBackend(State())
    }

    /** The hook's initial state: nothing drawn, offline, counter at 0. */
    constructor ()
      ensures Valid()
      ensures State() == CanvasState([], None, [], [], "", false, 0, [], [], [])
    {
      elements, selected, undoStack, redoStack := [], None, [], [];
      canvasId, backendReady, eventOrder := "", false, 0;
      pending, sent, snapshots := [], [], [];
    }

    method PersistEvent(kind: string, data: Element)
      requires Valid()
      modifies this
      ensures Valid()
      ensures State() == Persist(old(State()), kind, data)
    {
      PersistNumbers(State(), kind, data);
      if !backendReady || canvasId == "" {
        return;
      }
      eventOrder := eventOrder + 1;
      pending := pending + [Event(kind, data, eventOrder)];
    }

    /** Sends the batch event by event, then applies the snapshot rule. */
    method FlushEvents()
      requires Valid()
      modifies this
      ensures Valid()
      ensures State() == Flush(old(State()))
    {
      var batch := pending;
      pending := [];
      var i := 0;
      while i < |batch|
        invariant 0 <= i <= |batch|
        invariant sent == old(sent) + batch[..i]
        invariant pending == [] && elements == old(elements) && eventOrder == old(eventOrder)
        invariant snapshots == old(snapshots)
        invariant selected == old(selected) && undoStack == old(undoStack) && redoStack == old(redoStack)
        invariant canvasId == old(canvasId) && backendReady == old(backendReady)
      {
        assert batch[..i + 1] == batch[..i] + [batch[i]];
        sent := sent + [batch[i]];
        i := i + 1;
      }
      assert batch[..i] == batch;
      if eventOrder > 0 && eventOrder % SNAPSHOT_EVERY == 0 {
        snapshots := snapshots + [Snapshot(elements, eventOrder)];
      }
    }

    method AddElement(newId: string, given: Option<string>, props: Fields) returns (el: Element)
      requires Valid()
      modifies this
      ensures Valid()
      ensures el == NewElement(newId, given, props)
      ensures State() == Add(old(State()), newId, given, props)
    {
      el := Element(if given.Some? then given.value else newId, props);
      elements := elements + [el];
      undoStack := undoStack + [Action(AddAction, el)];
      redoStack := [];
      PersistEvent(ADD, el);
    }

    method UpdateElement(id: string, updates: Fields)
      requires Valid()
      modifies this
      ensures Valid()
      ensures State() == Update(old(State()), id, updates)
    {
      elements := MergeWhere(elements, id, updates);
      PersistEvent(UPDATE, Element(id, updates));
    }

    method DeleteElement(id: string)
      requires Valid()
      modifies this
      ensures Valid()
      ensures State() == Delete(old(State()), id)
    {
      var found := FindById(elements, id);
      if found.None? {
        return;
      }
      var el := found.value;
      elements := RemoveId(elements, id);
      undoStack := undoStack + [Action(DeleteAction, el)];
      redoStack := [];
      var wasSelected := selected == Some(id);
      PersistEvent(DELETE, Element(id, map[]));
      if wasSelected {
        selected := None;
      }
    }

    method MoveElement(id: string, dx: real, dy: real)
      requires Valid()
      modifies this
      ensures Valid()
      ensures State() == Move(old(State()), id, dx, dy)
    {
      elements := TranslateWhere(elements, id, dx, dy);
    }

    method CommitMoveElement(id: string)
      requires Valid()
      modifies this
      ensures Valid()
      ensures State() == CommitMove(old(State()), id)
    {
      var found := FindById(elements, id);
      if found.Some? {
        PersistEvent(MOVE, found.value);
      }
    }

    method ResizeElement(id: string, updates: Fields)
      requires Valid()
      modifies this
      ensures Valid()
      ensures State() == Resize(old(State()), id, updates)
    {
      elements := MergeWhere(elements, id, updates);
    }

    method CommitResizeElement(id: string)
      requires Valid()
      modifies this
      ensures Valid()
      ensures State() == CommitResize(old(State()), id)
    {
      var found := FindById(elements, id);
      if found.Some? {
        PersistEvent(RESIZE, found.value);
      }
    }

    method ReorderElement(id: string, direction: Value)
      requires Valid()
      modifies this
      ensures Valid()
      ensures State() == ReorderLayer(old(State()), id, direction)
    {
      elements := Reorder(elements, id, direction);
      PersistEvent(REORDER, ReorderPayload(id, direction));
    }

    method UndoAction()
      requires Valid()
      modifies this
      ensures Valid()
      ensures State() == Undo(old(State()))
    {
      if |undoStack| == 0 {
        return;
      }
      var action := undoStack[|undoStack| - 1];
      undoStack := undoStack[..|undoStack| - 1];
      match action.kind {
        case AddAction =>
          elements := RemoveId(elements, action.element.id);
          redoStack := redoStack + [action];
          PersistEvent(DELETE, Element(action.element.id, map[]));
        case DeleteAction =>
          elements := elements + [action.element];
          redoStack := redoStack + [action];
          PersistEvent(ADD, action.element);
      }
    }

    method RedoAction()
      requires Valid()
      modifies this
      ensures Valid()
      ensures State() == Redo(old(State()))
    {
      if |redoStack| == 0 {
        return;
      }
      var action := redoStack[|redoStack| - 1];
      redoStack := redoStack[..|redoStack| - 1];
      match action.kind {
        case AddAction =>
          elements := elements + [action.element];
          undoStack := undoStack + [action];
          PersistEvent(ADD, action.element);
        case DeleteAction =>
          elements := RemoveId(elements, action.element.id);
          undoStack := undoStack + [action];
          PersistEvent(DELETE, Element(action.element.id, map[]));
      }
    }

    method ClearCanvas()
      requires Valid()
      modifies this
      ensures Valid()
      ensures State() == Clear(old(State()))
    {
      elements := [];
      undoStack := [];
      redoStack := [];
      selected := None;
      PersistEvent(CLEAR, Element("", map[]));
    }

    method SetSelectedId(id: Option<string>)
      requires Valid()
      modifies this
      ensures Valid()
      ensures State() == old(State()).(selected := id)
    {
      selected := id;
    }

    /** A successful `loadCanvasFromBackend` for the stored canvas id. */
    method LoadCanvas(cid: string, snapshot: Option<Snapshot>, events: seq<Event>)
      requires Valid() && !backendReady
      modifies this
      ensures Valid()
      ensures State() == Load(old(State()), cid, snapshot, events)
    {
      canvasId := cid;
      var initial: seq<Element> := [];
      if snapshot.Some? {
        initial := snapshot.value.elements;
        eventOrder := snapshot.value.lastEventOrder;
      }
      elements := ReplayEvents(events, initial);
      if |events| > 0 {
        eventOrder := events[|events| - 1].order;
      }
      backendReady := true;
    }
  }
}
