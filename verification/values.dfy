/** JSON metadata values and the parts of Python's object model that the
    metadata filter relies on: `==`, rich comparison and `in`.

    Simplifications: no floats and no nested objects; `Bool` and `Int` are
    different values for `==` and `in` (Python has `True == 1`), while
    ordering compares them numerically, as Python does. */
module Values {
  import opened Base
  import opened Text

  datatype Value =
    | Null
    | Bool(b: bool)
    | Int(i: int)
    | Str(s: string)
    | List(items: seq<Value>)

  type Metadata = map<string, Value>

  /** `metadata.get(field)`: a missing key reads as `None`. */
  function Get(m: Metadata, field: string): (v: Value)
    ensures field !in m ==> v == Null
  {
    if field in m then m[field] else Null
  }

  /** The outcome of a three-way comparison. */
  datatype Order = Below | Same | Above {
    function Flip(): Order {
      match this
      case Below => Above
      case Same => Same
      case Above => Below
    }
  }

  predicate IsNumber(v: Value) { v.Bool? || v.Int? }

  /** `bool` is a subclass of `int` in Python: False orders as 0, True as 1. */
  function NumberOf(v: Value): int
    requires IsNumber(v)
  {
    if v.Bool? then (if v.b then 1 else 0) else v.i
  }

  function CompareInts(x: int, y: int): Order {
    if x < y then Below else if x == y then Same else Above
  }

  function CompareStrings(x: string, y: string): Order {
    if LexLess(x, y) then Below else if x == y then Same else Above
  }

  /** Python's rich comparison of two values: numbers with numbers, strings
      with strings, lists lexicographically; anything else raises
      TypeError (`None` included). */
  function Compare(a: Value, b: Value): Outcome<Order>
    decreases a
  {
    if IsNumber(a) && IsNumber(b) then Ok(CompareInts(NumberOf(a), NumberOf(b)))
    else if a.Str? && b.Str? then Ok(CompareStrings(a.s, b.s))
    else if a.List? && b.List? then CompareItems(a.items, b.items)
    else Raised
  }

  /** List comparison: skip the equal common prefix, then compare the first
      differing pair; if one list runs out, the shorter one is smaller. */
  function CompareItems(xs: seq<Value>, ys: seq<Value>): Outcome<Order>
    decreases xs
  {
    if xs == [] && ys == [] then Ok(Same)
    else if xs == [] then Ok(Below)
    else if ys == [] then Ok(Above)
    else if xs[0] == ys[0] then CompareItems(xs[1..], ys[1..])
    else
      match Compare(xs[0], ys[0])
      case Raised => Raised
      case Ok(Same) => CompareItems(xs[1..], ys[1..])
      case Ok(o) => Ok(o)
  }

  function FlipOutcome(r: Outcome<Order>): Outcome<Order> {
    match r
    case Raised => Raised
    case Ok(o) => Ok(o.Flip())
  }

  lemma CompareStringsFlip(x: string, y: string)
    ensures CompareStrings(y, x) == CompareStrings(x, y).Flip()
  {
    LexTotal(x, y);
    LexAsymmetric(x, y);
    if x == y {
      LexIrreflexive(x);
    }
  }

  /** Comparison is antisymmetric: swapping the operands flips the order
      and raises exactly when the original comparison raises. */
  lemma {:induction false} CompareFlip(a: Value, b: Value)
    ensures Compare(b, a) == FlipOutcome(Compare(a, b))
    decreases a
  {
    if IsNumber(a) && IsNumber(b) {
    } else if a.Str? && b.Str? {
      CompareStringsFlip(a.s, b.s);
    } else if a.List? && b.List? {
      CompareItemsFlip(a.items, b.items);
    }
  }

  lemma {:induction false} CompareItemsFlip(xs: seq<Value>, ys: seq<Value>)
    ensures CompareItems(ys, xs) == FlipOutcome(CompareItems(xs, ys))
    decreases xs
  {
    if xs != [] && ys != [] {
      CompareItemsFlip(xs[1..], ys[1..]);
      if xs[0] != ys[0] {
        CompareFlip(xs[0], ys[0]);
      }
    }
  }

  /** Python's `value in container`: list membership, substring on two
      strings; any other container raises TypeError. */
  function Member(value: Value, container: Value): (r: Outcome<bool>)
    ensures container.List? ==> r == Ok(value in container.items)
    ensures container.Str? && value.Str? ==> r == Ok(IsSubstring(value.s, container.s))
    ensures r.Raised? <==> !container.List? && !(container.Str? && value.Str?)
  {
    match container
    case List(items) => Ok(value in items)
    case Str(s) => if value.Str? then Ok(IsSubstring(value.s, s)) else Raised
    case _ => Raised
  }
}
