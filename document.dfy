/** The list rewrites the canvas applies to its ordered element list.  The
    list position is the z-order: the last element is drawn on top.  Both
    the live session and the replay of the event log use these rewrites. */
module Document {
  import opened Elements
  import Geometry

  /** `els.findIndex((e) => e.id === id)`, None for -1. */
  function IndexOf(els: seq<Element>, id: string): (r: Option<nat>)
    ensures r.None? <==> forall e :: e in els ==> e.id != id
    ensures r.Some? ==> r.value < |els| && els[r.value].id == id
    ensures r.Some? ==> forall j :: 0 <= j < r.value ==> els[j].id != id
  {
    if |els| == 0 then None
    else if els[0].id == id then Some(0)
    else
      var rest := IndexOf(els[1..], id);
      assert forall e :: e in els[1..] ==> e in els;
      assert forall e :: e in els ==> e == els[0] || e in els[1..];
      if rest.None? then None else Some(rest.value + 1)
  }

  /** `els.find((e) => e.id === id)` */
  function FindById(els: seq<Element>, id: string): (r: Option<Element>)
    ensures r.None? <==> forall e :: e in els ==> e.id != id
    ensures r.Some? ==> r.value in els && r.value.id == id
    ensures r.Some? ==> exists i :: 0 <= i < |els| && els[i] == r.value && (forall j :: 0 <= j < i ==> els[j].id != id)
  {
    match IndexOf(els, id)
    case None => None
    case Some(i) => Some(els[i])
  }

  predicate HasId(els: seq<Element>, id: string)
  {
    exists e :: e in els && e.id == id
  }

  /** `els.filter((e) => e.id !== id)` */
  function RemoveId(els: seq<Element>, id: string): (r: seq<Element>)
    ensures forall e :: e in r <==> e in els && e.id != id
    ensures |r| <= |els|
  {
    if |els| == 0 then []
    else
      var rest := RemoveId(els[1..], id);
      assert forall e :: e in els <==> e == els[0] || e in els[1..];
      if els[0].id == id then rest else [els[0]] + rest
  }

  /** Filtering an id out of a list without it changes nothing. */
  lemma {:induction false} RemoveIdAbsent(els: seq<Element>, id: string)
    requires forall e :: e in els ==> e.id != id
    ensures RemoveId(els, id) == els
  {
    if |els| > 0 {
      RemoveIdAbsent(els[1..], id);
    }
  }

  /** Filtering keeps the order of what remains: it distributes over concatenation. */
  lemma {:induction false} RemoveIdAppend(a: seq<Element>, b: seq<Element>, id: string)
    ensures RemoveId(a + b, id) == RemoveId(a, id) + RemoveId(b, id)
  {
    if |a| > 0 {
      var h, rest := a[0], a[1..];
      assert (a + b)[0] == h && (a + b)[1..] == rest + b;
      RemoveIdAppend(rest, b, id);
      var x, y := RemoveId(rest, id), RemoveId(b, id);
      if h.id == id {
        assert RemoveId(a + b, id) == x + y;
        assert RemoveId(a, id) == x;
      } else {
        assert RemoveId(a + b, id) == [h] + (x + y);
        assert RemoveId(a, id) == [h] + x;
        assert [h] + (x + y) == ([h] + x) + y;
      }
    } else {
      assert a + b == b;
    }
  }

  /** `els.map((e) => (e.id === id ? { ...e, ...patch } : e))` */
  function MergeWhere(els: seq<Element>, id: string, patch: Fields): (r: seq<Element>)
    ensures |r| == |els|
    ensures forall i :: 0 <= i < |els| ==> r[i] == if els[i].id == id then Merge(els[i], patch) else els[i]
  {
    seq(|els|, i requires 0 <= i < |els| => if els[i].id == id then Merge(els[i], patch) else els[i])
  }

  /** `s.splice(k, 0, x)` */
  function Insert(s: seq<Element>, k: nat, x: Element): (r: seq<Element>)
    requires k <= |s|
    ensures |r| == |s| + 1 && r[k] == x
    ensures multiset(r) == multiset(s) + multiset{x}
  {
    assert s == s[..k] + s[k..];
    s[..k] + [x] + s[k..]
  }

  /** `els` without its element at index k: `els.splice(k, 1)`. */
  function RemoveAt(s: seq<Element>, k: nat): (r: seq<Element>)
    requires k < |s|
    ensures |r| == |s| - 1
    ensures multiset(r) == multiset(s) - multiset{s[k]}
  {
    assert s == s[..k] + [s[k]] + s[k + 1..];
    s[..k] + s[k + 1..]
  }

  /** The layer change of `reorderElement` and of a replayed REORDER_ELEMENT:
      take the element out, then put it back one slot later (`forward`), one
      slot earlier (`backward`), last (`front`) or first (`back`); any other
      direction leaves it out. */
  function Reorder(els: seq<Element>, id: string, direction: Value): (r: seq<Element>)
    ensures IndexOf(els, id).None? ==> r == els
  {
    match IndexOf(els, id)
    case None => els
    case Some(idx) =>
      var el := els[idx];
      var rest := RemoveAt(els, idx);
      if direction == Str("forward") then Insert(rest, MinInt(idx + 1, |rest|), el)
      else if direction == Str("backward") then Insert(rest, MaxInt(idx - 1, 0), el)
      else if direction == Str("front") then rest + [el]
      else if direction == Str("back") then [el] + rest
      else rest
  }

  function MinInt(a: int, b: int): (r: int)
    ensures r <= a && r <= b && (r == a || r == b)
  {
    if a <= b then a else b
  }

  function MaxInt(a: int, b: int): (r: int)
    ensures r >= a && r >= b && (r == a || r == b)
  {
    if a >= b then a else b
  }

  predicate KnownDirection(direction: Value)
  {
    direction in {Str("forward"), Str("backward"), Str("front"), Str("back")}
  }

  /** The four named directions only permute the list. */
  lemma ReorderPermutes(els: seq<Element>, id: string, direction: Value)
    requires KnownDirection(direction)
    ensures |Reorder(els, id, direction)| == |els|
    ensures multiset(Reorder(els, id, direction)) == multiset(els)
  {
    match IndexOf(els, id)
    case None =>
    case Some(idx) =>
      var rest := RemoveAt(els, idx);
      assert multiset(els) == multiset(rest) + multiset{els[idx]} by {
        assert els[idx] in multiset(els);
      }
  }

  /** Any other direction removes the element and reinserts nothing. */
  lemma ReorderOtherDirectionDrops(els: seq<Element>, id: string, direction: Value)
    requires !KnownDirection(direction)
    requires IndexOf(els, id).Some?
    ensures Reorder(els, id, direction) == RemoveAt(els, IndexOf(els, id).value)
    ensures |Reorder(els, id, direction)| == |els| - 1
    ensures multiset(Reorder(els, id, direction)) == multiset(els) - multiset{els[IndexOf(els, id).value]}
  {
  }

  /** Where the element lands, per direction: one slot later, clamped at the
      end; one slot earlier, clamped at the start; last; first. */
  lemma ReorderPlacesElement(els: seq<Element>, id: string, direction: Value)
    requires IndexOf(els, id).Some?
    ensures var idx, n, r := IndexOf(els, id).value, |els|, Reorder(els, id, direction);
      (direction == Str("forward") ==> r[MinInt(idx + 1, n - 1)] == els[idx])
      && (direction == Str("backward") ==> r[MaxInt(idx - 1, 0)] == els[idx])
      && (direction == Str("front") ==> r[n - 1] == els[idx])
      && (direction == Str("back") ==> r[0] == els[idx])
  {
  }

  /** Away from the ends, `forward` and `backward` swap the element with its
      neighbour and leave every other position alone. */
  lemma ReorderForwardSwaps(els: seq<Element>, id: string)
    requires IndexOf(els, id).Some? && IndexOf(els, id).value + 1 < |els|
    ensures var idx := IndexOf(els, id).value;
      Reorder(els, id, Str("forward")) == els[idx := els[idx + 1]][idx + 1 := els[idx]]
  {
    var idx := IndexOf(els, id).value;
    var rest := els[..idx] + els[idx + 1..];
    assert RemoveAt(els, idx) == rest;
    var r := rest[..idx + 1] + [els[idx]] + rest[idx + 1..];
    assert Reorder(els, id, Str("forward")) == r;
    var want := els[idx := els[idx + 1]][idx + 1 := els[idx]];
    assert |r| == |want|;
    forall k | 0 <= k < |r| ensures r[k] == want[k] {
      if k < idx {
        assert r[k] == rest[k];
      } else if k == idx {
        assert r[k] == rest[idx];
      } else if k > idx + 1 {
        assert r[k] == rest[k - 1];
      }
    }
  }

  lemma ReorderBackwardSwaps(els: seq<Element>, id: string)
    requires IndexOf(els, id).Some? && IndexOf(els, id).value > 0
    ensures var idx := IndexOf(els, id).value;
      Reorder(els, id, Str("backward")) == els[idx := els[idx - 1]][idx - 1 := els[idx]]
  {
    var idx := IndexOf(els, id).value;
    var rest := els[..idx] + els[idx + 1..];
    assert RemoveAt(els, idx) == rest;
    var r := rest[..idx - 1] + [els[idx]] + rest[idx - 1..];
    assert Reorder(els, id, Str("backward")) == r;
    var want := els[idx := els[idx - 1]][idx - 1 := els[idx]];
    assert |r| == |want|;
    forall k | 0 <= k < |r| ensures r[k] == want[k] {
      if k < idx - 1 {
        assert r[k] == rest[k];
      } else if k == idx {
        assert r[k] == rest[idx - 1];
      } else if k > idx {
        assert r[k] == rest[k - 1];
      }
    }
  }

  /** `moveElement`'s rewrite of one element: every point of a freehand
      stroke, both endpoints of an arrow, or `x` and `y` otherwise. */
  function Translate(e: Element, dx: real, dy: real): (r: Element)
    ensures r.id == e.id && TypeOf(r) == TypeOf(e)
  {
    var t := TypeOf(e);
    if t == "freehand" then
      match Field(e, "points")
      case Points(ps) => Merge(e, map["points" := Points(Geometry.ShiftPoints(ps, dx, dy))])
      case _ => e
    else if t == "arrow" then
      Merge(e, map["x1" := Shift(Field(e, "x1"), dx), "y1" := Shift(Field(e, "y1"), dy),
                   "x2" := Shift(Field(e, "x2"), dx), "y2" := Shift(Field(e, "y2"), dy)])
    else Merge(e, map["x" := Shift(Field(e, "x"), dx), "y" := Shift(Field(e, "y"), dy)])
  }

  /** `els.map((e) => e.id !== id ? e : <translated e>)` */
  function TranslateWhere(els: seq<Element>, id: string, dx: real, dy: real): (r: seq<Element>)
    ensures |r| == |els|
    ensures forall i :: 0 <= i < |els| ==> r[i] == if els[i].id == id then Translate(els[i], dx, dy) else els[i]
  {
    seq(|els|, i requires 0 <= i < |els| => if els[i].id == id then Translate(els[i], dx, dy) else els[i])
  }

  lemma TranslateMovesStroke(e: Element, dx: real, dy: real)
    requires TypeOf(e) == "freehand"
    ensures Geometry.View(Translate(e, dx, dy))
         == match Geometry.View(e)
            case None => None
            case Some(s) => Some(Geometry.TranslateShape(s, dx, dy))
  {
    match Field(e, "points")
    case Points(ps) =>
      assert Field(Translate(e, dx, dy), "points") == Points(Geometry.ShiftPoints(ps, dx, dy));
    case _ =>
  }

  lemma TranslateMovesArrow(e: Element, dx: real, dy: real)
    requires TypeOf(e) == "arrow"
    ensures Geometry.View(Translate(e, dx, dy))
         == match Geometry.View(e)
            case None => None
            case Some(s) => Some(Geometry.TranslateShape(s, dx, dy))
  {
    var r := Translate(e, dx, dy);
    assert Field(r, "x1") == Shift(Field(e, "x1"), dx) && Field(r, "y1") == Shift(Field(e, "y1"), dy);
    assert Field(r, "x2") == Shift(Field(e, "x2"), dx) && Field(r, "y2") == Shift(Field(e, "y2"), dy);
  }

  lemma TranslateMovesBox(e: Element, dx: real, dy: real)
    requires TypeOf(e) != "freehand" && TypeOf(e) != "arrow"
    ensures Geometry.View(Translate(e, dx, dy))
         == match Geometry.View(e)
            case None => None
            case Some(s) => Some(Geometry.TranslateShape(s, dx, dy))
  {
    var r := Translate(e, dx, dy);
    assert Field(r, "x") == Shift(Field(e, "x"), dx) && Field(r, "y") == Shift(Field(e, "y"), dy);
    assert Field(r, "width") == Field(e, "width") && Field(r, "height") == Field(e, "height");
  }

  /** Moving an element moves exactly its geometry. */
  lemma TranslateMovesView(e: Element, dx: real, dy: real)
    ensures Geometry.View(Translate(e, dx, dy))
         == match Geometry.View(e)
            case None => None
            case Some(s) => Some(Geometry.TranslateShape(s, dx, dy))
  {
    var t := TypeOf(e);
    if t == "freehand" {
      TranslateMovesStroke(e, dx, dy);
    } else if t == "arrow" {
      TranslateMovesArrow(e, dx, dy);
    } else {
      TranslateMovesBox(e, dx, dy);
    }
  }

  /** A moved element is hit at the moved point exactly where it was hit before. */
  lemma TranslatedHitTest(px: real, py: real, e: Element, dx: real, dy: real)
    ensures Geometry.HitTest(px + dx, py + dy, Translate(e, dx, dy)) == Geometry.HitTest(px, py, e)
  {
    TranslateMovesView(e, dx, dy);
    match Geometry.View(e)
    case None =>
    case Some(s) => Geometry.HitShapeShifts(px, py, s, dx, dy);
  }
}
