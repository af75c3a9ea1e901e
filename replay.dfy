/** The event log and its replay: `replayEvents` rebuilds the element list
    by folding the events, in the order given, over a starting list (the
    snapshot's elements, or nothing). */
module Replay {
  import opened Elements
  import opened Document

  /** One persisted event: its type, its payload and its position in the log.
      A payload without an id (CLEAR_CANVAS sends `{}`) has the id "". */
  datatype Event = Event(kind: string, data: Element, order: int)

  const ADD := "ADD_ELEMENT"
  const UPDATE := "UPDATE_ELEMENT"
  const DELETE := "DELETE_ELEMENT"
  const MOVE := "MOVE_ELEMENT"
  const RESIZE := "RESIZE_ELEMENT"
  const REORDER := "REORDER_ELEMENT"
  const CLEAR := "CLEAR_CANVAS"

  /** One step of the fold. */
  function Apply(els: seq<Element>, ev: Event): seq<Element>
  {
    var k := ev.kind;
    if k == ADD then els + [ev.data]
    else if k == UPDATE || k == MOVE || k == RESIZE then MergeWhere(els, ev.data.id, ev.data.fields)
    else if k == DELETE then RemoveId(els, ev.data.id)
    else if k == REORDER then Reorder(els, ev.data.id, Get(ev.data.fields, "direction"))
    else if k == CLEAR then []
    else els
  }

  /** The fold, written from the last event so that a prefix of the log
      replays to the state after that prefix. */
  function ReplayAll(events: seq<Event>, initial: seq<Element>): seq<Element>
  {
    if |events| == 0 then initial
    else Apply(ReplayAll(events[..|events| - 1], initial), events[|events| - 1])
  }

  /** One iteration of `replayEvents`: push, map, filter or splice. */
  method ApplyEvent(els: seq<Element>, ev: Event) returns (r: seq<Element>)
    ensures r == Apply(els, ev)
  {
    r := els;
    if ev.kind == ADD {
      r := r + [ev.data];
    } else if ev.kind == UPDATE || ev.kind == MOVE || ev.kind == RESIZE {
      r := MergeWhere(r, ev.data.id, ev.data.fields);
    } else if ev.kind == DELETE {
      r := RemoveId(r, ev.data.id);
    } else if ev.kind == REORDER {
      var direction := Get(ev.data.fields, "direction");
      var found := IndexOf(r, ev.data.id);
      if found.Some? {
        var idx := found.value;
        var el := r[idx];
        r := RemoveAt(r, idx);
        if direction == Str("forward") {
          r := Insert(r, MinInt(idx + 1, |r|), el);
        } else if direction == Str("backward") {
          r := Insert(r, MaxInt(idx as int - 1, 0), el);
        } else if direction == Str("front") {
          r := r + [el];
        } else if direction == Str("back") {
          r := [el] + r;
        }
      }
    } else if ev.kind == CLEAR {
      r := [];
    }
  }

  /** `replayEvents`: copies the starting list, then rewrites it event by event. */
  method ReplayEvents(events: seq<Event>, initial: seq<Element>) returns (els: seq<Element>)
    ensures els == ReplayAll(events, initial)
  {
    els := initial;
    var i := 0;
    while i < |events|
      invariant 0 <= i <= |events|
      invariant els == ReplayAll(events[..i], initial)
    {
      assert events[..i + 1][..i] == events[..i];
      els := ApplyEvent(els, events[i]);
      i := i + 1;
    }
    assert events[..i] == events;
  }

  /** ADD_ELEMENT appends its payload as the topmost element. */
  lemma ApplyAddAppends(els: seq<Element>, ev: Event)
    requires ev.kind == ADD
    ensures |Apply(els, ev)| == |els| + 1
    ensures Apply(els, ev)[|els|] == ev.data && Apply(els, ev)[..|els|] == els
  {
  }

  /** UPDATE, MOVE and RESIZE merge the payload into the elements carrying its
      id and leave length, order and ids alone; an unknown id changes nothing. */
  lemma ApplyMergeKeepsShape(els: seq<Element>, ev: Event)
    requires ev.kind in {UPDATE, MOVE, RESIZE}
    ensures |Apply(els, ev)| == |els|
    ensures forall i :: 0 <= i < |els| ==> Apply(els, ev)[i].id == els[i].id
    ensures forall i :: 0 <= i < |els| && els[i].id != ev.data.id ==> Apply(els, ev)[i] == els[i]
    ensures forall i :: 0 <= i < |els| && els[i].id == ev.data.id ==>
      Apply(els, ev)[i].fields == els[i].fields + ev.data.fields
    ensures (forall e :: e in els ==> e.id != ev.data.id) ==> Apply(els, ev) == els
  {
    var r := Apply(els, ev);
    if forall e :: e in els ==> e.id != ev.data.id {
      assert forall i :: 0 <= i < |els| ==> r[i] == els[i];
    }
  }

  /** DELETE_ELEMENT removes every element with the id and keeps the rest. */
  lemma ApplyDeleteRemoves(els: seq<Element>, ev: Event)
    requires ev.kind == DELETE
    ensures forall e :: e in Apply(els, ev) <==> e in els && e.id != ev.data.id
  {
  }

  /** CLEAR_CANVAS empties the list; a type the replay does not know is skipped. */
  lemma ApplyClearAndUnknown(els: seq<Element>, ev: Event)
    ensures ev.kind == CLEAR ==> Apply(els, ev) == []
    ensures ev.kind !in {ADD, UPDATE, DELETE, MOVE, RESIZE, REORDER, CLEAR} ==> Apply(els, ev) == els
  {
  }

  /** Replaying a log in two pieces is replaying it whole: a snapshot taken
      after the first piece is a valid starting point for the rest. */
  lemma {:induction false} ReplayConcat(a: seq<Event>, b: seq<Event>, initial: seq<Element>)
    ensures ReplayAll(a + b, initial) == ReplayAll(b, ReplayAll(a, initial))
  {
    if |b| == 0 {
      assert a + b == a;
    } else {
      var n := |b|;
      assert (a + b)[..|a + b| - 1] == a + b[..n - 1];
      assert (a + b)[|a + b| - 1] == b[n - 1];
      ReplayConcat(a, b[..n - 1], initial);
    }
  }

  /** Everything up to a CLEAR_CANVAS, the starting list included, is irrelevant to the result. */
  lemma {:induction false} ReplayFromLastClear(events: seq<Event>, k: nat, initial: seq<Element>)
    requires k < |events| && events[k].kind == CLEAR
    ensures ReplayAll(events, initial) == ReplayAll(events[k + 1..], [])
  {
    assert events == events[..k + 1] + events[k + 1..];
    ReplayConcat(events[..k + 1], events[k + 1..], initial);
    assert events[..k + 1][..k] == events[..k];
  }

  /** The backend hands the events back in ascending order. */
  predicate Ascending(events: seq<Event>)
  {
    forall i, j :: 0 <= i < j < |events| ==> events[i].order < events[j].order
  }

  /** In an ascending log the last event carries the largest order. */
  lemma LastOrderIsLargest(events: seq<Event>)
    requires Ascending(events) && |events| > 0
    ensures forall ev :: ev in events ==> ev.order <= events[|events| - 1].order
  {
  }
}
