/** The framing arithmetic of `generateThumbnail`: the union of the elements'
    extents, padded by 50, with a fixed frame for an empty canvas; the SVG
    output size; and the 400-pixel cap on the raster size.

    The accumulation starts from plus and minus Infinity and goes through
    `Math.min`, `Math.max`, `+` and `Math.abs`, so the model keeps JavaScript
    numbers as they are: finite, infinite, or NaN. */
module Thumbnail {
  import opened Elements

  /** A JavaScript number.  Signed zero is not distinguished. */
  datatype JsNum = Fin(v: real) | PosInf | NegInf | NaN

  /** `Number(v)` for a property value: `undefined` and NaN give NaN,
      booleans 1 and 0, the empty string and the empty array 0. */
  function ToNumber(v: Value): (r: JsNum)
    ensures !r.PosInf? && !r.NegInf?
  {
    match v
    case Num(n) => Fin(n)
    case Bool(b) => if b then Fin(1.0) else Fin(0.0)
    case Str(s) => if s == "" then Fin(0.0) else NaN
    case Points(ps) => if |ps| == 0 then Fin(0.0) else NaN
    case Undefined => NaN
    case NotANumber => NaN
  }

  /** `Math.min(a, b)`: NaN if either is. */
  function NumMin(a: JsNum, b: JsNum): (r: JsNum)
    ensures r.NaN? <==> a.NaN? || b.NaN?
  {
    if a.NaN? || b.NaN? then NaN
    else if a.NegInf? || b.PosInf? then a
    else if b.NegInf? || a.PosInf? then b
    else Fin(Min(a.v, b.v))
  }

  /** `Math.max(a, b)`: NaN if either is. */
  function NumMax(a: JsNum, b: JsNum): (r: JsNum)
    ensures r.NaN? <==> a.NaN? || b.NaN?
  {
    if a.NaN? || b.NaN? then NaN
    else if a.PosInf? || b.NegInf? then a
    else if b.PosInf? || a.NegInf? then b
    else Fin(Max(a.v, b.v))
  }

  /** `a + b`; Infinity plus -Infinity is NaN. */
  function NumAdd(a: JsNum, b: JsNum): JsNum
  {
    match (a, b)
    case (Fin(x), Fin(y)) => Fin(x + y)
    case (NaN, _) => NaN
    case (_, NaN) => NaN
    case (PosInf, NegInf) => NaN
    case (NegInf, PosInf) => NaN
    case (PosInf, _) => PosInf
    case (NegInf, _) => NegInf
    case (_, PosInf) => PosInf
    case (_, NegInf) => NegInf
  }

  function NumNeg(a: JsNum): JsNum
  {
    match a
    case Fin(x) => Fin(-x)
    case PosInf => NegInf
    case NegInf => PosInf
    case NaN => NaN
  }

  /** `a - b` */
  function NumSub(a: JsNum, b: JsNum): JsNum
  {
    NumAdd(a, NumNeg(b))
  }

  /** `Math.abs(a)` */
  function NumAbs(a: JsNum): JsNum
  {
    match a
    case Fin(x) => Fin(Abs(x))
    case NaN => NaN
    case _ => PosInf
  }

  /** `a < b`: false whenever NaN is involved. */
  predicate Lt(a: JsNum, b: JsNum)
  {
    match (a, b)
    case (Fin(x), Fin(y)) => x < y
    case (NaN, _) => false
    case (_, NaN) => false
    case (NegInf, NegInf) => false
    case (NegInf, _) => true
    case (_, PosInf) => !a.PosInf?
    case _ => false
  }

  /** `a <= b`: false whenever NaN is involved. */
  predicate Le(a: JsNum, b: JsNum)
  {
    match (a, b)
    case (Fin(x), Fin(y)) => x <= y
    case (NaN, _) => false
    case (_, NaN) => false
    case (NegInf, _) => true
    case (_, PosInf) => true
    case _ => false
  }

  /** `a / d` for a divisor that is a finite number (never -0 here). */
  function DivBy(a: JsNum, d: real): JsNum
  {
    match a
    case NaN => NaN
    case Fin(x) =>
      if d != 0.0 then Fin(x / d)
      else if x > 0.0 then PosInf
      else if x < 0.0 then NegInf
      else NaN
    case PosInf => if d < 0.0 then NegInf else PosInf
    case NegInf => if d < 0.0 then PosInf else NegInf
  }

  /** `k * a` for a positive constant k. */
  function Scale(k: real, a: JsNum): JsNum
    requires k > 0.0
  {
    match a
    case Fin(x) => Fin(k * x)
    case _ => a
  }

  // ─── Accumulating the bounds ──────────────────────────────────────────

  /** The four running values `minX`, `minY`, `maxX`, `maxY`. */
  datatype Frame = Frame(minX: JsNum, minY: JsNum, maxX: JsNum, maxY: JsNum)

  /** The starting values: nothing seen yet. */
  const EMPTY := Frame(PosInf, PosInf, NegInf, NegInf)

  /** The bounds of an empty canvas. */
  const DEFAULT := Frame(Fin(0.0), Fin(0.0), Fin(800.0), Fin(600.0))

  const PADDING := 50.0

  /** The smallest and largest coordinates one element brings. */
  datatype Span = Span(loX: JsNum, loY: JsNum, hiX: JsNum, hiY: JsNum)

  function Coord(e: Element, key: string): JsNum
  {
    ToNumber(Field(e, key))
  }

  /** A freehand element with a points array: its points are walked. */
  predicate IsStroke(e: Element)
  {
    TypeOf(e) == "freehand" && Field(e, "points").Points?
  }

  /** The box of any other element: `x`, `y`, `width || 0`, `height || 0`,
      moved back by a negative width or height and then made non-negative. */
  function BoxSpan(e: Element): Span
  {
    var x, y := Coord(e, "x"), Coord(e, "y");
    var w := ToNumber(Or(Field(e, "width"), Num(0.0)));
    var h := ToNumber(Or(Field(e, "height"), Num(0.0)));
    var rX := if Lt(w, Fin(0.0)) then NumAdd(x, w) else x;
    var rY := if Lt(h, Fin(0.0)) then NumAdd(y, h) else y;
    Span(rX, rY, NumAdd(rX, NumAbs(w)), NumAdd(rY, NumAbs(h)))
  }

  function AddPoint(f: Frame, p: Point): Frame
  {
    Frame(NumMin(f.minX, Fin(p.x)), NumMin(f.minY, Fin(p.y)), NumMax(f.maxX, Fin(p.x)), NumMax(f.maxY, Fin(p.y)))
  }

  /** The points of a stroke, one at a time. */
  function AddPoints(f: Frame, ps: seq<Point>): Frame
  {
    if |ps| == 0 then f else AddPoint(AddPoints(f, ps[..|ps| - 1]), ps[|ps| - 1])
  }

  /** `Math.min(minX, el.x1, el.x2)` and the like: NaN if any argument is. */
  function AddArrow(f: Frame, e: Element): Frame
  {
    var x1, y1, x2, y2 := Coord(e, "x1"), Coord(e, "y1"), Coord(e, "x2"), Coord(e, "y2");
    Frame(NumMin(NumMin(f.minX, x1), x2), NumMin(NumMin(f.minY, y1), y2),
          NumMax(NumMax(f.maxX, x1), x2), NumMax(NumMax(f.maxY, y1), y2))
  }

  function AddBox(f: Frame, e: Element): Frame
  {
    var b := BoxSpan(e);
    Frame(NumMin(f.minX, b.loX), NumMin(f.minY, b.loY), NumMax(f.maxX, b.hiX), NumMax(f.maxY, b.hiY))
  }

  /** One element's turn of the `forEach`. */
  function Contribute(f: Frame, e: Element): Frame
  {
    if IsStroke(e) then AddPoints(f, Field(e, "points").points)
    else if TypeOf(e) == "arrow" then AddArrow(f, e)
    else AddBox(f, e)
  }

  function Accumulate(f: Frame, els: seq<Element>): Frame
  {
    if |els| == 0 then f else Contribute(Accumulate(f, els[..|els| - 1]), els[|els| - 1])
  }

  /** The bounds before padding. */
  function RawBounds(els: seq<Element>): Frame
  {
    if |els| > 0 then Accumulate(EMPTY, els) else DEFAULT
  }

  /** `minX -= padding; ... maxY += padding` */
  function Pad(f: Frame): Frame
  {
    Frame(NumSub(f.minX, Fin(PADDING)), NumSub(f.minY, Fin(PADDING)),
          NumAdd(f.maxX, Fin(PADDING)), NumAdd(f.maxY, Fin(PADDING)))
  }

  /** The view box: its corner and size.  Only the x bounds are checked for
      finiteness, so the y values stay JavaScript numbers. */
  datatype Framing = Framing(minX: real, minY: JsNum, width: real, height: JsNum)

  /** Padding, the finiteness check and the view box, from the raw bounds. */
  function Framed(raw: Frame): Option<Framing>
  {
    var p := Pad(raw);
    if !p.minX.Fin? || !p.maxX.Fin? then None
    else Some(Framing(p.minX.v, p.minY, p.maxX.v - p.minX.v, NumSub(p.maxY, p.minY)))
  }

  /** The framing step of `generateThumbnail`: accumulate the bounds, fall back
      to 800 by 600, pad by 50, and give null unless both x bounds are finite. */
  function ComputeFraming(els: seq<Element>): Option<Framing>
  {
    Framed(RawBounds(els))
  }

  /** The inner `forEach` over a stroke's points. */
  method WalkPoints(minX0: JsNum, minY0: JsNum, maxX0: JsNum, maxY0: JsNum, ps: seq<Point>)
    returns (minX: JsNum, minY: JsNum, maxX: JsNum, maxY: JsNum)
    ensures Frame(minX, minY, maxX, maxY) == AddPoints(Frame(minX0, minY0, maxX0, maxY0), ps)
  {
    minX, minY, maxX, maxY := minX0, minY0, maxX0, maxY0;
    var j := 0;
    while j < |ps|
      invariant 0 <= j <= |ps|
      invariant Frame(minX, minY, maxX, maxY) == AddPoints(Frame(minX0, minY0, maxX0, maxY0), ps[..j])
    {
      var p := ps[j];
      assert ps[..j + 1][..j] == ps[..j];
      minX := NumMin(minX, Fin(p.x));
      minY := NumMin(minY, Fin(p.y));
      maxX := NumMax(maxX, Fin(p.x));
      maxY := NumMax(maxY, Fin(p.y));
      j := j + 1;
    }
    assert ps[..j] == ps;
  }

  /** One element's turn of the outer `forEach`. */
  method AddElementBounds(minX0: JsNum, minY0: JsNum, maxX0: JsNum, maxY0: JsNum, el: Element)
    returns (minX: JsNum, minY: JsNum, maxX: JsNum, maxY: JsNum)
    ensures Frame(minX, minY, maxX, maxY) == Contribute(Frame(minX0, minY0, maxX0, maxY0), el)
  {
    minX, minY, maxX, maxY := minX0, minY0, maxX0, maxY0;
    if TypeOf(el) == "freehand" && Field(el, "points").Points? {
      minX, minY, maxX, maxY := WalkPoints(minX, minY, maxX, maxY, Field(el, "points").points);
    } else if TypeOf(el) == "arrow" {
      var x1, y1, x2, y2 := Coord(el, "x1"), Coord(el, "y1"), Coord(el, "x2"), Coord(el, "y2");
      minX := NumMin(NumMin(minX, x1), x2);
      minY := NumMin(NumMin(minY, y1), y2);
      maxX := NumMax(NumMax(maxX, x1), x2);
      maxY := NumMax(NumMax(maxY, y1), y2);
    } else {
      var x, y := Coord(el, "x"), Coord(el, "y");
      var w := ToNumber(Or(Field(el, "width"), Num(0.0)));
      var h := ToNumber(Or(Field(el, "height"), Num(0.0)));
      var rX := if Lt(w, Fin(0.0)) then NumAdd(x, w) else x;
      var rY := if Lt(h, Fin(0.0)) then NumAdd(y, h) else y;
      var rW, rH := NumAbs(w), NumAbs(h);
      minX := NumMin(minX, rX);
      minY := NumMin(minY, rY);
      maxX := NumMax(maxX, NumAdd(rX, rW));
      maxY := NumMax(maxY, NumAdd(rY, rH));
    }
  }

  /** `generateThumbnail`'s bounds loop: a `forEach` over the elements, and
      one over the points of each stroke, updating the four running values. */
  method FrameThumbnail(els: seq<Element>) returns (r: Option<Framing>)
    ensures r == ComputeFraming(els)
  {
    var minX, minY, maxX, maxY := PosInf, PosInf, NegInf, NegInf;
    if |els| > 0 {
      var i := 0;
      while i < |els|
        invariant 0 <= i <= |els|
        invariant Frame(minX, minY, maxX, maxY) == Accumulate(EMPTY, els[..i])
      {
        var el := els[i];
        assert els[..i + 1][..i] == els[..i];
        minX, minY, maxX, maxY := AddElementBounds(minX, minY, maxX, maxY, el);
        i := i + 1;
      }
      assert els[..i] == els;
    } else {
      minX, minY, maxX, maxY := Fin(0.0), Fin(0.0), Fin(800.0), Fin(600.0);
    }
    minX := NumSub(minX, Fin(PADDING));
    minY := NumSub(minY, Fin(PADDING));
    maxX := NumAdd(maxX, Fin(PADDING));
    maxY := NumAdd(maxY, Fin(PADDING));
    if !minX.Fin? || !maxX.Fin? {
      return None;
    }
    r := Some(Framing(minX.v, minY, maxX.v - minX.v, NumSub(maxY, minY)));
  }

  // ─── Properties of the framing ────────────────────────────────────────

  /** An empty canvas is framed as (0, 0)-(800, 600) with 50 around it. */
  lemma EmptyCanvasFraming()
    ensures ComputeFraming([]) == Some(Framing(-50.0, Fin(-50.0), 900.0, Fin(700.0)))
  {
  }

  /** A frame is padded by exactly 50 on every side, and its x bounds stay
      finite exactly when they were. */
  lemma PaddingIsFifty(els: seq<Element>)
    ensures var raw, r := RawBounds(els), ComputeFraming(els);
      && (r.Some? <==> raw.minX.Fin? && raw.maxX.Fin?)
      && (r.Some? ==> r.value.minX == raw.minX.v - 50.0 && r.value.width == raw.maxX.v - raw.minX.v + 100.0)
      && (r.Some? && raw.minY.Fin? && raw.maxY.Fin? ==>
            r.value.minY == Fin(raw.minY.v - 50.0) && r.value.height == Fin(raw.maxY.v - raw.minY.v + 100.0))
  {
  }

  /** NaN, once in a running value, stays there. */
  predicate SomeNaN(f: Frame)
  {
    f.minX.NaN? || f.minY.NaN? || f.maxX.NaN? || f.maxY.NaN?
  }

  predicate NaNIn(f: Frame, g: Frame)
  {
    && (f.minX.NaN? ==> g.minX.NaN?) && (f.minY.NaN? ==> g.minY.NaN?)
    && (f.maxX.NaN? ==> g.maxX.NaN?) && (f.maxY.NaN? ==> g.maxY.NaN?)
  }

  lemma {:induction false} AddPointsKeepsNaN(f: Frame, ps: seq<Point>)
    ensures NaNIn(f, AddPoints(f, ps))
  {
    if |ps| > 0 {
      AddPointsKeepsNaN(f, ps[..|ps| - 1]);
    }
  }

  lemma ContributeKeepsNaN(f: Frame, e: Element)
    ensures NaNIn(f, Contribute(f, e))
  {
    if IsStroke(e) {
      AddPointsKeepsNaN(f, Field(e, "points").points);
    }
  }

  /** An element whose x extent is NaN (a missing `x`, `x1` or `x2`, say)
      makes the whole thumbnail null, wherever it sits in the list. */
  lemma {:induction false} NaNXIsNull(els: seq<Element>, k: nat)
    requires k < |els|
    requires Contribute(Accumulate(EMPTY, els[..k]), els[k]).minX.NaN?
    ensures ComputeFraming(els).None?
  {
    assert Accumulate(EMPTY, els[..k + 1]) == Contribute(Accumulate(EMPTY, els[..k]), els[k]) by {
      assert els[..k + 1][..k] == els[..k];
    }
    PrefixNaNPersists(els, k + 1);
  }

  /** A NaN minimum x after the first m elements is still there at the end. */
  lemma {:induction false} PrefixNaNPersists(els: seq<Element>, m: nat)
    requires m <= |els|
    requires Accumulate(EMPTY, els[..m]).minX.NaN?
    ensures Accumulate(EMPTY, els).minX.NaN?
    decreases |els|
  {
    if m == |els| {
      assert els[..m] == els;
    } else {
      var init := els[..|els| - 1];
      assert init[..m] == els[..m];
      PrefixNaNPersists(init, m);
      ContributeKeepsNaN(Accumulate(EMPTY, init), els[|els| - 1]);
    }
  }

  // ─── Containment ──────────────────────────────────────────────────────

  /** The point (x, y) lies inside the frame. */
  predicate Encloses(f: Frame, x: JsNum, y: JsNum)
  {
    Le(f.minX, x) && Le(x, f.maxX) && Le(f.minY, y) && Le(y, f.maxY)
  }

  /** Everything `generateThumbnail` reads of an element lies inside the
      frame: every point of a stroke, both endpoints of an arrow, both
      corners of any other element's normalised box. */
  predicate EnclosesElement(f: Frame, e: Element)
  {
    if IsStroke(e) then
      forall p :: p in Field(e, "points").points ==> Encloses(f, Fin(p.x), Fin(p.y))
    else if TypeOf(e) == "arrow" then
      Encloses(f, Coord(e, "x1"), Coord(e, "y1")) && Encloses(f, Coord(e, "x2"), Coord(e, "y2"))
    else
      var b := BoxSpan(e);
      Encloses(f, b.loX, b.loY) && Encloses(f, b.hiX, b.hiY)
  }

  /** g reaches at least as far as f on every side. */
  predicate Grows(f: Frame, g: Frame)
  {
    Le(g.minX, f.minX) && Le(g.minY, f.minY) && Le(f.maxX, g.maxX) && Le(f.maxY, g.maxY)
  }

  lemma LeTrans(a: JsNum, b: JsNum, c: JsNum)
    requires Le(a, b) && Le(b, c)
    ensures Le(a, c)
  {
  }

  lemma MinBelow(a: JsNum, b: JsNum)
    requires !a.NaN? && !b.NaN?
    ensures Le(NumMin(a, b), a) && Le(NumMin(a, b), b)
  {
  }

  lemma MaxAbove(a: JsNum, b: JsNum)
    requires !a.NaN? && !b.NaN?
    ensures Le(a, NumMax(a, b)) && Le(b, NumMax(a, b))
  {
  }

  lemma GrowsTrans(f: Frame, g: Frame, h: Frame)
    requires Grows(f, g) && Grows(g, h)
    ensures Grows(f, h)
  {
    LeTrans(h.minX, g.minX, f.minX);
    LeTrans(h.minY, g.minY, f.minY);
    LeTrans(f.maxX, g.maxX, h.maxX);
    LeTrans(f.maxY, g.maxY, h.maxY);
  }

  lemma GrowsRefl(f: Frame)
    requires !SomeNaN(f)
    ensures Grows(f, f)
  {
  }

  lemma EnclosesGrows(f: Frame, g: Frame, x: JsNum, y: JsNum)
    requires Encloses(f, x, y) && Grows(f, g)
    ensures Encloses(g, x, y)
  {
    LeTrans(g.minX, f.minX, x);
    LeTrans(x, f.maxX, g.maxX);
    LeTrans(g.minY, f.minY, y);
    LeTrans(y, f.maxY, g.maxY);
  }

  lemma EnclosesElementGrows(f: Frame, g: Frame, e: Element)
    requires EnclosesElement(f, e) && Grows(f, g)
    ensures EnclosesElement(g, e)
  {
    if IsStroke(e) {
      forall p | p in Field(e, "points").points
        ensures Encloses(g, Fin(p.x), Fin(p.y))
      {
        EnclosesGrows(f, g, Fin(p.x), Fin(p.y));
      }
    } else if TypeOf(e) == "arrow" {
      EnclosesGrows(f, g, Coord(e, "x1"), Coord(e, "y1"));
      EnclosesGrows(f, g, Coord(e, "x2"), Coord(e, "y2"));
    } else {
      var b := BoxSpan(e);
      EnclosesGrows(f, g, b.loX, b.loY);
      EnclosesGrows(f, g, b.hiX, b.hiY);
    }
  }

  /** Adding a point grows the frame to take it in, unless NaN is involved. */
  lemma AddPointGrows(f: Frame, p: Point)
    requires !SomeNaN(AddPoint(f, p))
    ensures Grows(f, AddPoint(f, p)) && Encloses(AddPoint(f, p), Fin(p.x), Fin(p.y))
  {
    MinBelow(f.minX, Fin(p.x));
    MinBelow(f.minY, Fin(p.y));
    MaxAbove(f.maxX, Fin(p.x));
    MaxAbove(f.maxY, Fin(p.y));
  }

  lemma {:induction false} AddPointsGrows(f: Frame, ps: seq<Point>)
    requires !SomeNaN(AddPoints(f, ps))
    ensures Grows(f, AddPoints(f, ps))
    ensures forall p :: p in ps ==> Encloses(AddPoints(f, ps), Fin(p.x), Fin(p.y))
  {
    if |ps| == 0 {
      GrowsRefl(f);
    } else {
      var init, last := ps[..|ps| - 1], ps[|ps| - 1];
      var g := AddPoints(f, init);
      var h := AddPoint(g, last);
      assert !SomeNaN(g) by {
        AddPointsKeepsNaN(g, [last]);
        assert AddPoints(g, [last]) == h by {
          assert [last][..0] == [];
        }
      }
      AddPointsGrows(f, init);
      AddPointGrows(g, last);
      GrowsTrans(f, g, h);
      forall p | p in ps
        ensures Encloses(h, Fin(p.x), Fin(p.y))
      {
        if p != last {
          assert p in init by {
            assert ps == init + [last];
          }
          EnclosesGrows(g, h, Fin(p.x), Fin(p.y));
        }
      }
    }
  }

  lemma AddArrowGrows(f: Frame, e: Element)
    requires TypeOf(e) == "arrow" && !IsStroke(e) && !SomeNaN(AddArrow(f, e))
    ensures Grows(f, AddArrow(f, e)) && EnclosesElement(AddArrow(f, e), e)
  {
    var x1, y1, x2, y2 := Coord(e, "x1"), Coord(e, "y1"), Coord(e, "x2"), Coord(e, "y2");
    var g := AddArrow(f, e);
    MinBelow(f.minX, x1);
    MinBelow(NumMin(f.minX, x1), x2);
    MinBelow(f.minY, y1);
    MinBelow(NumMin(f.minY, y1), y2);
    MaxAbove(f.maxX, x1);
    MaxAbove(NumMax(f.maxX, x1), x2);
    MaxAbove(f.maxY, y1);
    MaxAbove(NumMax(f.maxY, y1), y2);
    LeTrans(g.minX, NumMin(f.minX, x1), f.minX);
    LeTrans(g.minX, NumMin(f.minX, x1), x1);
    LeTrans(g.minY, NumMin(f.minY, y1), f.minY);
    LeTrans(g.minY, NumMin(f.minY, y1), y1);
    LeTrans(f.maxX, NumMax(f.maxX, x1), g.maxX);
    LeTrans(x1, NumMax(f.maxX, x1), g.maxX);
    LeTrans(f.maxY, NumMax(f.maxY, y1), g.maxY);
    LeTrans(y1, NumMax(f.maxY, y1), g.maxY);
  }

  lemma AddBoxGrows(f: Frame, e: Element)
    requires !SomeNaN(AddBox(f, e))
    ensures Grows(f, AddBox(f, e))
    ensures var b, g := BoxSpan(e), AddBox(f, e); Encloses(g, b.loX, b.loY) && Encloses(g, b.hiX, b.hiY)
  {
    var b := BoxSpan(e);
    MinBelow(f.minX, b.loX);
    MinBelow(f.minY, b.loY);
    MaxAbove(f.maxX, b.hiX);
    MaxAbove(f.maxY, b.hiY);
    BoxSpanOrdered(e);
    var g := AddBox(f, e);
    LeTrans(g.minX, b.loX, b.hiX);
    LeTrans(b.loX, b.hiX, g.maxX);
    LeTrans(g.minY, b.loY, b.hiY);
    LeTrans(b.loY, b.hiY, g.maxY);
  }

  /** One axis of a box: the start, moved back by a negative size, and the
      start plus the size's magnitude. */
  lemma SideOrdered(x: JsNum, w: JsNum)
    requires !x.PosInf? && !x.NegInf? && !w.PosInf? && !w.NegInf?
    ensures var lo := if Lt(w, Fin(0.0)) then NumAdd(x, w) else x;
      var hi := NumAdd(lo, NumAbs(w));
      && (!lo.NaN? && !hi.NaN? ==> Le(lo, hi))
      && !lo.PosInf? && !lo.NegInf? && !hi.PosInf? && !hi.NegInf?
  {
  }

  /** A box's low corner is below its high corner, NaN aside. */
  lemma BoxSpanOrdered(e: Element)
    ensures var b := BoxSpan(e);
      && (!b.loX.NaN? && !b.hiX.NaN? ==> Le(b.loX, b.hiX))
      && (!b.loY.NaN? && !b.hiY.NaN? ==> Le(b.loY, b.hiY))
      && !b.loX.PosInf? && !b.loX.NegInf? && !b.hiX.PosInf? && !b.hiX.NegInf?
      && !b.loY.PosInf? && !b.loY.NegInf? && !b.hiY.PosInf? && !b.hiY.NegInf?
  {
    SideOrdered(Coord(e, "x"), ToNumber(Or(Field(e, "width"), Num(0.0))));
    SideOrdered(Coord(e, "y"), ToNumber(Or(Field(e, "height"), Num(0.0))));
  }

  /** One element's turn takes the element in and gives up nothing already
      inside, as long as no NaN has appeared. */
  lemma ContributeGrows(f: Frame, e: Element)
    requires !SomeNaN(Contribute(f, e))
    ensures Grows(f, Contribute(f, e)) && EnclosesElement(Contribute(f, e), e)
  {
    if IsStroke(e) {
      AddPointsGrows(f, Field(e, "points").points);
    } else if TypeOf(e) == "arrow" {
      AddArrowGrows(f, e);
    } else {
      AddBoxGrows(f, e);
    }
  }

  /** Unless a NaN poisoned the bounds, every element's extent lies inside them. */
  lemma {:induction false} AccumulateEncloses(els: seq<Element>)
    requires !SomeNaN(Accumulate(EMPTY, els))
    ensures forall e :: e in els ==> EnclosesElement(Accumulate(EMPTY, els), e)
  {
    if |els| > 0 {
      var init, last := els[..|els| - 1], els[|els| - 1];
      var f := Accumulate(EMPTY, init);
      ContributeKeepsNaN(f, last);
      AccumulateEncloses(init);
      ContributeGrows(f, last);
      EnclosesAfterStep(f, Contribute(f, last), init, last);
      assert els == init + [last];
    }
  }

  /** Growing a frame that encloses `es` and then enclosing `last` encloses them all. */
  lemma EnclosesAfterStep(f: Frame, g: Frame, es: seq<Element>, last: Element)
    requires forall e :: e in es ==> EnclosesElement(f, e)
    requires Grows(f, g) && EnclosesElement(g, last)
    ensures forall e :: e in es + [last] ==> EnclosesElement(g, e)
  {
    forall e | e in es + [last]
      ensures EnclosesElement(g, e)
    {
      if e != last {
        EnclosesElementGrows(f, g, e);
      }
    }
  }

  /** The framing encloses every element: when a thumbnail is produced and
      its y bounds are finite, every element's extent lies inside the bounds
      before padding, and so at least 50 inside the view box. */
  lemma FramingEnclosesElements(els: seq<Element>)
    requires |els| > 0
    requires ComputeFraming(els).Some? && ComputeFraming(els).value.height.Fin?
    ensures forall e :: e in els ==> EnclosesElement(RawBounds(els), e)
  {
    var raw := RawBounds(els);
    assert !SomeNaN(raw);
    AccumulateEncloses(els);
  }

  // ─── Which lists are framed ───────────────────────────────────────────

  /** An element contributes a coordinate unless it is a stroke with no points. */
  predicate Contributes(e: Element)
  {
    !(IsStroke(e) && |Field(e, "points").points| == 0)
  }

  /** Every coordinate `generateThumbnail` reads of the element is a number. */
  predicate Numeric(e: Element)
  {
    if IsStroke(e) then true
    else if TypeOf(e) == "arrow" then
      Coord(e, "x1").Fin? && Coord(e, "y1").Fin? && Coord(e, "x2").Fin? && Coord(e, "y2").Fin?
    else
      var b := BoxSpan(e);
      b.loX.Fin? && b.loY.Fin? && b.hiX.Fin? && b.hiY.Fin?
  }

  predicate AllFin(f: Frame)
  {
    f.minX.Fin? && f.minY.Fin? && f.maxX.Fin? && f.maxY.Fin?
  }

  lemma {:induction false} AddPointsFin(f: Frame, ps: seq<Point>)
    requires f == EMPTY || AllFin(f)
    ensures var g := AddPoints(f, ps); (g == EMPTY <==> f == EMPTY && |ps| == 0) && (g == EMPTY || AllFin(g))
  {
    if |ps| > 0 {
      AddPointsFin(f, ps[..|ps| - 1]);
    }
  }

  /** With numeric elements the running values are all infinite (nothing
      seen) or all finite. */
  lemma {:induction false} AccumulateNumeric(els: seq<Element>)
    requires forall e :: e in els ==> Numeric(e)
    ensures var f := Accumulate(EMPTY, els);
      && (f == EMPTY <==> forall e :: e in els ==> !Contributes(e))
      && (f == EMPTY || AllFin(f))
  {
    if |els| > 0 {
      var init, last := els[..|els| - 1], els[|els| - 1];
      assert els == init + [last];
      AccumulateNumeric(init);
      ContributeNumeric(Accumulate(EMPTY, init), last);
    }
  }

  lemma ContributeNumeric(f: Frame, e: Element)
    requires f == EMPTY || AllFin(f)
    requires Numeric(e)
    ensures var g := Contribute(f, e); (g == EMPTY <==> f == EMPTY && !Contributes(e)) && (g == EMPTY || AllFin(g))
  {
    if IsStroke(e) {
      AddPointsFin(f, Field(e, "points").points);
    } else {
      assert Contribute(f, e).minX.Fin?;
    }
  }

  /** With numeric elements the thumbnail is null exactly when the canvas
      has elements but none of them contributed a coordinate; otherwise
      the view box is finite and at least 100 on each side. */
  lemma NullIffNothingContributed(els: seq<Element>)
    requires forall e :: e in els ==> Numeric(e)
    ensures ComputeFraming(els).None? <==> |els| > 0 && forall e :: e in els ==> !Contributes(e)
    ensures ComputeFraming(els).Some? ==>
      var r := ComputeFraming(els).value;
      r.width >= 100.0 && r.minY.Fin? && r.height.Fin? && r.height.v >= 100.0
  {
    var raw := RawBounds(els);
    if |els| > 0 {
      AccumulateNumeric(els);
    }
    assert raw == EMPTY || AllFin(raw);
    RawOrdered(els);
    FramedOrdered(raw);
  }

  /** The low value of a span is at most the high value, NaN and infinities aside. */
  predicate Ordered(lo: JsNum, hi: JsNum)
  {
    lo.Fin? && hi.Fin? ==> lo.v <= hi.v
  }

  predicate OrderedFrame(f: Frame)
  {
    f == EMPTY || (Ordered(f.minX, f.maxX) && Ordered(f.minY, f.maxY)
      && !f.minX.PosInf? && !f.minY.PosInf? && !f.maxX.NegInf? && !f.maxY.NegInf?)
  }

  lemma {:induction false} AddPointsOrdered(f: Frame, ps: seq<Point>)
    requires OrderedFrame(f)
    ensures OrderedFrame(AddPoints(f, ps))
  {
    if |ps| > 0 {
      AddPointsOrdered(f, ps[..|ps| - 1]);
    }
  }

  lemma AddArrowOrdered(f: Frame, e: Element)
    requires OrderedFrame(f)
    ensures OrderedFrame(AddArrow(f, e))
  {
  }

  lemma AddBoxOrdered(f: Frame, e: Element)
    requires OrderedFrame(f)
    ensures OrderedFrame(AddBox(f, e))
  {
    BoxSpanOrdered(e);
  }

  lemma ContributeOrdered(f: Frame, e: Element)
    requires OrderedFrame(f)
    ensures OrderedFrame(Contribute(f, e))
  {
    if IsStroke(e) {
      AddPointsOrdered(f, Field(e, "points").points);
    } else if TypeOf(e) == "arrow" {
      AddArrowOrdered(f, e);
    } else {
      AddBoxOrdered(f, e);
    }
  }

  lemma {:induction false} OrderedAccumulate(els: seq<Element>)
    ensures OrderedFrame(Accumulate(EMPTY, els))
  {
    if |els| > 0 {
      OrderedAccumulate(els[..|els| - 1]);
      ContributeOrdered(Accumulate(EMPTY, els[..|els| - 1]), els[|els| - 1]);
    }
  }

  lemma RawOrdered(els: seq<Element>)
    ensures OrderedFrame(RawBounds(els))
  {
    if |els| > 0 {
      OrderedAccumulate(els);
    }
  }

  /** Padding an ordered frame gives a view box at least 100 wide, and at
      least 100 high when its height is a number; a frame with nothing in
      it gives none. */
  lemma FramedOrdered(raw: Frame)
    requires OrderedFrame(raw)
    ensures raw == EMPTY ==> Framed(raw).None?
    ensures AllFin(raw) ==> Framed(raw).Some? && Framed(raw).value.minY.Fin? && Framed(raw).value.height.Fin?
    ensures Framed(raw).Some? ==> Framed(raw).value.width >= 100.0
    ensures Framed(raw).Some? && Framed(raw).value.height.Fin? ==> Framed(raw).value.height.v >= 100.0
  {
    if raw != EMPTY {
      var p := Pad(raw);
      if p.maxY.Fin? && p.minY.Fin? {
        assert raw.maxY.Fin? && raw.minY.Fin?;
      }
    }
  }

  /** Whenever a thumbnail is produced its view box is at least 100 wide,
      and at least 100 high when its height is a finite number. */
  lemma FramingIsAtLeastPadding(els: seq<Element>)
    requires ComputeFraming(els).Some?
    ensures ComputeFraming(els).value.width >= 100.0
    ensures ComputeFraming(els).value.height.Fin? ==> ComputeFraming(els).value.height.v >= 100.0
  {
    RawOrdered(els);
    FramedOrdered(RawBounds(els));
  }

  /** Only the x bounds are validated: an element whose `y` is missing still
      yields a thumbnail, with NaN for its top and its height. */
  lemma MissingYIsNotNull()
    ensures var e := Element("a", map["type" := Str("rect"), "x" := Num(10.0), "width" := Num(20.0), "height" := Num(20.0)]);
      var r := ComputeFraming([e]);
      r.Some? && r.value.minY.NaN? && r.value.height.NaN? && r.value.width == 120.0
  {
    var e := Element("a", map["type" := Str("rect"), "x" := Num(10.0), "width" := Num(20.0), "height" := Num(20.0)]);
    assert [e][..0] == [];
    assert Field(e, "y") == Undefined;
  }

  // ─── Output sizes ─────────────────────────────────────────────────────

  const SVG_WIDTH := 500.0

  /** The SVG's `height` attribute: `500 * (height / width)`. */
  function SvgHeight(fr: Framing): JsNum
  {
    Scale(SVG_WIDTH, DivBy(fr.height, fr.width))
  }

  /** The SVG is 500 wide and keeps the view box's aspect ratio; every
      produced view box is wide enough (`FramingIsAtLeastPadding`). */
  lemma SvgKeepsAspect(fr: Framing)
    requires fr.width > 0.0 && fr.height.Fin?
    ensures SvgHeight(fr).Fin? && SvgHeight(fr).v * fr.width == SVG_WIDTH * fr.height.v
  {
    var h, w := fr.height.v, fr.width;
    var q := h / w;
    assert q * w == h;
    assert SvgHeight(fr) == Fin(SVG_WIDTH * q);
    assert SVG_WIDTH * q * w == SVG_WIDTH * (q * w);
  }

  const MAX_THUMB_SIZE := 400.0

  datatype Size = Size(width: real, height: real)

  /** The raster size of `generateThumbnail`: the longer side is capped at 400 and the other scaled by
      the same factor; on equal sides the height is the one tested. */
  function RasterSize(w: real, h: real): Size
  {
    if w > h then
      if w > MAX_THUMB_SIZE then Size(MAX_THUMB_SIZE, h * (MAX_THUMB_SIZE / w)) else Size(w, h)
    else
      if h > MAX_THUMB_SIZE then Size(w * (MAX_THUMB_SIZE / h), MAX_THUMB_SIZE) else Size(w, h)
  }

  /** The capping branches, reassigning `thumbW` and `thumbH`. */
  method CapRaster(width: real, height: real) returns (thumbW: real, thumbH: real)
    ensures Size(thumbW, thumbH) == RasterSize(width, height)
  {
    thumbW, thumbH := width, height;
    if thumbW > thumbH {
      if thumbW > MAX_THUMB_SIZE {
        thumbH := thumbH * (MAX_THUMB_SIZE / thumbW);
        thumbW := MAX_THUMB_SIZE;
      }
    } else {
      if thumbH > MAX_THUMB_SIZE {
        thumbW := thumbW * (MAX_THUMB_SIZE / thumbH);
        thumbH := MAX_THUMB_SIZE;
      }
    }
  }

  /** The raster keeps the aspect ratio, whatever the sides. */
  lemma RasterKeepsAspect(w: real, h: real)
    ensures RasterSize(w, h).width * h == RasterSize(w, h).height * w
  {
    var s := RasterSize(w, h);
    if w > h && w > MAX_THUMB_SIZE {
      assert s.height * w == h * (MAX_THUMB_SIZE / w) * w;
      assert (MAX_THUMB_SIZE / w) * w == MAX_THUMB_SIZE;
    } else if w <= h && h > MAX_THUMB_SIZE {
      assert s.width * h == w * (MAX_THUMB_SIZE / h) * h;
      assert (MAX_THUMB_SIZE / h) * h == MAX_THUMB_SIZE;
    }
  }

  /** Sides no larger than 400 are kept; otherwise the longer side becomes
      exactly 400 (the height, when the sides are equal). */
  lemma RasterCapsLongerSide(w: real, h: real)
    ensures w <= MAX_THUMB_SIZE && h <= MAX_THUMB_SIZE ==> RasterSize(w, h) == Size(w, h)
    ensures w > h && w > MAX_THUMB_SIZE ==> RasterSize(w, h).width == MAX_THUMB_SIZE
    ensures w <= h && h > MAX_THUMB_SIZE ==> RasterSize(w, h).height == MAX_THUMB_SIZE
    ensures w == h && h > MAX_THUMB_SIZE ==> RasterSize(w, h) == Size(MAX_THUMB_SIZE, MAX_THUMB_SIZE)
  {
    if w == h && h > MAX_THUMB_SIZE {
      assert w * (MAX_THUMB_SIZE / h) == MAX_THUMB_SIZE;
    }
  }

  /** For positive sides the raster is positive and never exceeds 400 on either side. */
  lemma RasterWithinCap(w: real, h: real)
    requires w > 0.0 && h > 0.0
    ensures RasterSize(w, h).width > 0.0 && RasterSize(w, h).height > 0.0
    ensures Max(w, h) > MAX_THUMB_SIZE ==> RasterSize(w, h).width <= MAX_THUMB_SIZE && RasterSize(w, h).height <= MAX_THUMB_SIZE
  {
    if w > h && w > MAX_THUMB_SIZE {
      assert h / w < 1.0;
      assert h * (MAX_THUMB_SIZE / w) == MAX_THUMB_SIZE * (h / w);
    } else if w <= h && h > MAX_THUMB_SIZE {
      assert w / h <= 1.0;
      assert w * (MAX_THUMB_SIZE / h) == MAX_THUMB_SIZE * (w / h);
    }
  }
}
