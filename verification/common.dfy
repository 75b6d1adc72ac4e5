/** Values shared by every part of the model: time periods, memory entries,
    the literal values an oracle reply evaluates to, and the outcome of an
    operation that may raise. */
module Timeline {

  /** A closed time interval. Times are integers in one fixed unit (for
      example tenths of a second); periods are compared by value. */
  datatype Period = Period(start: int, end: int) {
    function Span(): int { end - start }
  }

  /** One memory record: a caption ('general_memory') of what the video shows
      during `period`. */
  datatype Entry = Entry(period: Period, caption: string)

  datatype Option<+T> = None | Some(value: T)

  /** The literal values a parsed reply can hold. A Python tuple and a list
      are both `List`. */
  datatype Value =
    | Bool(b: bool)
    | Num(n: int)
    | Str(s: string)
    | List(items: seq<Value>)

  /** A parsed reply: a dictionary from key to literal value. */
  type Dict = map<string, Value>

  /** Python truthiness of a literal value, as `if d['Confidence']:` uses it. */
  predicate Truthy(v: Value) {
    match v
    case Bool(b) => b
    case Num(n) => n != 0
    case Str(s) => |s| > 0
    case List(xs) => |xs| > 0
  }

  /** The periods of a list of entries, in order. */
  function PeriodsOf(es: seq<Entry>): (r: seq<Period>)
    ensures |r| == |es|
    ensures forall k :: 0 <= k < |es| ==> r[k] == es[k].period
  {
    if es == [] then [] else [es[0].period] + PeriodsOf(es[1..])
  }

  /** Python's `list.index(x)`: the first position holding `x`. */
  function IndexOf<T(==)>(xs: seq<T>, x: T): (i: nat)
    requires x in xs
    ensures i < |xs| && xs[i] == x
    ensures forall k :: 0 <= k < i ==> xs[k] != x
  {
    if xs[0] == x then 0 else 1 + IndexOf(xs[1..], x)
  }

  /** No value occurs twice. */
  predicate Distinct<T(==)>(xs: seq<T>) {
    forall i, j :: 0 <= i < j < |xs| ==> xs[i] != xs[j]
  }
}
