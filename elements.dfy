/** Drawable elements as the canvas stores them: an id plus a bag of properties.

    The drawing code keeps every element as a plain object whose properties are
    spread into one another (`{ ...e, ...patch }`).  The model keeps the `id`
    apart and every other property in a map, so that spreading becomes map
    override.  JavaScript's `undefined` and the `NaN` produced by arithmetic on
    something that is not a number are explicit values. */
module Elements {

  datatype Option<+T> = None | Some(value: T)

  datatype Point = Point(x: real, y: real)

  /** A property value. */
  datatype Value =
    | Num(n: real)
    | Str(s: string)
    | Bool(b: bool)
    | Points(points: seq<Point>)
    | Undefined     // a property that is absent, or present with the value undefined
    | NotANumber    // the result of adding a number to something that is not a number

  type Fields = map<string, Value>

  /** One element of the document.  `fields` holds every property except `id`. */
  datatype Element = Element(id: string, fields: Fields)

  /** `o.key`: an absent property reads as undefined. */
  function Get(fields: Fields, key: string): Value
  {
    if key in fields then fields[key] else Undefined
  }

  function Field(e: Element, key: string): Value
  {
    Get(e.fields, key)
  }

  /** `e.type` as compared with string literals; a missing type matches no literal. */
  function TypeOf(e: Element): string
  {
    match Field(e, "type")
    case Str(t) => t
    case _ => ""
  }

  /** JavaScript truthiness. */
  predicate Truthy(v: Value)
  {
    match v
    case Num(n) => n != 0.0
    case Str(s) => s != ""
    case Bool(b) => b
    case Points(_) => true
    case Undefined => false
    case NotANumber => false
  }

  /** `a || b` */
  function Or(a: Value, b: Value): (r: Value)
    ensures Truthy(a) ==> r == a
    ensures !Truthy(a) ==> r == b
  {
    if Truthy(a) then a else b
  }

  /** `v + d` for a number d: numbers are shifted, anything else becomes NaN. */
  function Shift(v: Value, d: real): Value
  {
    match v
    case Num(n) => Num(n + d)
    case _ => NotANumber
  }

  /** `{ ...e, ...patch }` where patch carries the same id. */
  function Merge(e: Element, patch: Fields): (r: Element)
    ensures r.id == e.id
    ensures r.fields.Keys == e.fields.Keys + patch.Keys
    ensures forall k :: k in patch ==> r.fields[k] == patch[k]
    ensures forall k :: k in e.fields && k !in patch ==> r.fields[k] == e.fields[k]
  {
    Element(e.id, e.fields + patch)
  }

  function Min(a: real, b: real): real { if a <= b then a else b }
  function Max(a: real, b: real): real { if a >= b then a else b }
  function Abs(a: real): real { if a < 0.0 then -a else a }
}
