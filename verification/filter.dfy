/** The metadata filter language of `DocumentService._matches_filter`.

    A filter is a JSON object read field by field, in order: a field whose
    condition is not an object tests equality; a field whose condition is
    an object applies each operator it names, in order. The first failing
    test makes the whole filter false; an operator Python cannot evaluate
    raises, and the caller decides what that means. */
module Filter {
  import opened Base
  import opened Text
  import opened Values

  datatype Condition =
    | Bare(expected: Value)
    | Ops(ops: seq<(string, Value)>)

  /** A filter object, its fields in the order the JSON gave them. */
  type Filter = seq<(string, Condition)>

  /** `if metadata_filter and ...`: `None` and `{}` both mean no filter. */
  predicate Active(f: Option<Filter>) {
    f.Some? && f.value != []
  }

  const OrderingOps: set<string> := {"<", "<=", ">", ">="}

  const KnownOps: set<string> :=
    {"==", "!=", "<", "<=", ">", ">=", "in", "not_in", "contains",
     "starts_with", "ends_with", "is_true", "is_false"}

  function Negate(r: Outcome<bool>): Outcome<bool> {
    match r
    case Raised => Raised
    case Ok(b) => Ok(!b)
  }

  /** Whether a comparison came out as `o` (`accept`) or as anything but
      `o` (`!accept`); a raising comparison raises. */
  function OrderIs(r: Outcome<Order>, o: Order, accept: bool): Outcome<bool> {
    match r
    case Raised => Raised
    case Ok(x) => Ok((x == o) == accept)
  }

  /** Whether `value` passes operator `op` with operand `expected`
      (document_service.py:542-586). */
  function EvalOp(op: string, value: Value, expected: Value): Outcome<bool> {
    if op == "==" then Ok(value == expected)
    else if op == "!=" then Ok(value != expected)
    else if op == "<" then
      if value.Null? then Ok(false) else OrderIs(Compare(value, expected), Below, true)
    else if op == "<=" then
      if value.Null? then Ok(false) else OrderIs(Compare(value, expected), Above, false)
    else if op == ">" then
      if value.Null? then Ok(false) else OrderIs(Compare(value, expected), Above, true)
    else if op == ">=" then
      if value.Null? then Ok(false) else OrderIs(Compare(value, expected), Below, false)
    else if op == "in" then Member(value, expected)
    else if op == "not_in" then Negate(Member(value, expected))
    else if op == "contains" then
      match value
      case Str(s) => if expected.Str? then Ok(IsSubstring(expected.s, s)) else Raised
      case List(items) => Ok(expected in items)
      case _ => Ok(false)
    else if op == "starts_with" then
      if !value.Str? then Ok(false)
      else if !expected.Str? then Raised
      else Ok(HasPrefix(value.s, expected.s))
    else if op == "ends_with" then
      if !value.Str? then Ok(false)
      else if !expected.Str? then Raised
      else Ok(HasSuffix(value.s, expected.s))
    else if op == "is_true" then Ok(value == Bool(true))
    else if op == "is_false" then Ok(value == Bool(false))
    else Ok(true)
  }

  /** Apply the operators of one condition object, stopping at the first
      that fails or raises. */
  function EvalOps(value: Value, ops: seq<(string, Value)>): Outcome<bool> {
    if ops == [] then Ok(true)
    else
      match EvalOp(ops[0].0, value, ops[0].1)
      case Raised => Raised
      case Ok(false) => Ok(false)
      case Ok(true) => EvalOps(value, ops[1..])
  }

  /** Whether one field of the metadata satisfies its condition. */
  function FieldHolds(m: Metadata, field: (string, Condition)): Outcome<bool> {
    var value := Get(m, field.0);
    match field.1
    case Bare(e) => Ok(value == e)
    case Ops(ops) => EvalOps(value, ops)
  }

  /** The loop of `_matches_filter` over the fields of a dict. */
  function Matches(m: Metadata, f: Filter): Outcome<bool> {
    if f == [] then Ok(true)
    else
      match FieldHolds(m, f[0])
      case Raised => Raised
      case Ok(false) => Ok(false)
      case Ok(true) => Matches(m, f[1..])
  }

  /** `_matches_filter(metadata, filters)` where the stored metadata may be
      `None`: `None.get` raises AttributeError as soon as a field is read. */
  function MatchesFilter(meta: Option<Metadata>, f: Filter): Outcome<bool> {
    if f == [] then Ok(true)
    else if meta.None? then Raised
    else Matches(meta.value, f)
  }

  /** A filter as the document listing receives it: JSON text parsed into
      any value. Only an object has the `.items()` the evaluator calls, so
      any other truthy value raises on every document. */
  datatype FilterArg = Object(fields: Filter) | NonObject(truthy: bool)

  /** `if metadata_filter and ...` on a parsed value: an empty object and
      every falsy value mean no filter. */
  predicate ArgActive(a: FilterArg) {
    match a
    case Object(f) => f != []
    case NonObject(t) => t
  }

  function MatchesArg(meta: Option<Metadata>, a: FilterArg): Outcome<bool> {
    match a
    case Object(f) => MatchesFilter(meta, f)
    case NonObject(_) => Raised
  }

  // ---------------------------------------------------------------------
  // Properties.
  // ---------------------------------------------------------------------

  /** Field `i` is the first field that fails: every earlier one held. */
  predicate FailsFirstAt(m: Metadata, f: Filter, i: int) {
    && 0 <= i < |f|
    && FieldHolds(m, f[i]) == Ok(false)
    && forall j | 0 <= j < i :: FieldHolds(m, f[j]) == Ok(true)
  }

  /** The filter is the conjunction of its fields: it matches iff every
      field holds, and it is false iff some field fails after all earlier
      ones held. */
  lemma {:induction false} MatchesIsConjunction(m: Metadata, f: Filter)
    ensures Matches(m, f) == Ok(true) <==>
      forall i | 0 <= i < |f| :: FieldHolds(m, f[i]) == Ok(true)
    ensures Matches(m, f) == Ok(false) <==> exists i :: FailsFirstAt(m, f, i)
  {
    if f != [] {
      var t := f[1..];
      MatchesIsConjunction(m, t);
      assert forall i | 1 <= i < |f| :: f[i] == t[i - 1];
      if FieldHolds(m, f[0]) == Ok(true) {
        if Matches(m, t) == Ok(false) {
          var i :| FailsFirstAt(m, t, i);
          assert FailsFirstAt(m, f, i + 1) by {
            forall j | 0 <= j < i + 1
              ensures FieldHolds(m, f[j]) == Ok(true)
            {
              if j > 0 {
                assert f[j] == t[j - 1];
              }
            }
          }
        }
        if exists i :: FailsFirstAt(m, f, i) {
          var i :| FailsFirstAt(m, f, i);
          assert FailsFirstAt(m, t, i - 1) by {
            forall j | 0 <= j < i - 1
              ensures FieldHolds(m, t[j]) == Ok(true)
            {
              assert t[j] == f[j + 1];
            }
          }
        }
      } else if FieldHolds(m, f[0]) == Ok(false) {
        assert FailsFirstAt(m, f, 0);
      } else {
        assert forall i | FailsFirstAt(m, f, i) :: i > 0;
      }
    }
  }

  /** The empty filter matches every document, even one without metadata. */
  lemma EmptyFilterMatches(meta: Option<Metadata>)
    ensures MatchesFilter(meta, []) == Ok(true)
  {
  }

  /** A non-empty filter on a document stored without metadata raises. */
  lemma NoMetadataRaises(f: Filter)
    requires f != []
    ensures MatchesFilter(None, f) == Raised
  {
  }

  /** A bare value is the same test as the `==` operator, and a missing
      field reads as null. */
  lemma BareIsEquality(m: Metadata, field: string, v: Value)
    ensures FieldHolds(m, (field, Bare(v))) == FieldHolds(m, (field, Ops([("==", v)])))
    ensures field !in m ==> (FieldHolds(m, (field, Bare(v))) == Ok(true) <==> v == Null)
  {
    var value := Get(m, field);
    assert [("==", v)][1..] == [];
    assert EvalOp("==", value, v) == Ok(value == v);
    assert EvalOps(value, [("==", v)]) == Ok(value == v);
  }

  /** An operator the evaluator does not know imposes no constraint, and an
      empty operator object accepts every value. */
  lemma UnknownOpIgnored(op: string, value: Value, expected: Value)
    requires op !in KnownOps
    ensures EvalOp(op, value, expected) == Ok(true)
    ensures EvalOps(value, [(op, expected)]) == Ok(true)
  {
  }

  /** Ordering operators fail, without raising, on a missing value. */
  lemma OrderingOnMissing(op: string, expected: Value)
    requires op in OrderingOps
    ensures EvalOp(op, Null, expected) == Ok(false)
  {
  }

  /** On a present value `<` is the complement of `>=` and `<=` of `>`: each
      pair raises together, and otherwise exactly one of them passes. */
  lemma OrderingComplements(value: Value, expected: Value)
    requires !value.Null?
    ensures EvalOp("<", value, expected) == Negate(EvalOp(">=", value, expected))
    ensures EvalOp("<=", value, expected) == Negate(EvalOp(">", value, expected))
  {
  }

  /** Swapping the operands of a present pair turns `<` into `>` and `<=`
      into `>=`. */
  lemma OrderingSwap(a: Value, b: Value)
    requires !a.Null? && !b.Null?
    ensures EvalOp("<", a, b) == EvalOp(">", b, a)
    ensures EvalOp("<=", a, b) == EvalOp(">=", b, a)
  {
    CompareFlip(a, b);
  }

  /** `not_in` and `!=` are the complements of `in` and `==`. */
  lemma NegatedOperators(value: Value, expected: Value)
    ensures EvalOp("not_in", value, expected) == Negate(EvalOp("in", value, expected))
    ensures EvalOp("!=", value, expected) == Negate(EvalOp("==", value, expected))
  {
  }

  /** `contains`: substring on a string value (raising on a non-string
      needle), membership on a list value, false on anything else. */
  lemma ContainsSemantics(value: Value, expected: Value)
    ensures value.Str? && expected.Str? ==>
      (EvalOp("contains", value, expected) == Ok(true) <==>
       exists i | 0 <= i <= |value.s| - |expected.s| :: OccursAt(value.s, expected.s, i))
    ensures value.Str? && !expected.Str? ==> EvalOp("contains", value, expected) == Raised
    ensures value.List? ==> EvalOp("contains", value, expected) == Ok(expected in value.items)
    ensures !value.Str? && !value.List? ==> EvalOp("contains", value, expected) == Ok(false)
  {
  }

  /** `starts_with` and `ends_with` only pass on a string value. */
  lemma AffixOnlyOnStrings(value: Value, expected: Value)
    ensures EvalOp("starts_with", value, expected) == Ok(true) ==>
      value.Str? && expected.Str? && HasPrefix(value.s, expected.s)
    ensures EvalOp("ends_with", value, expected) == Ok(true) ==>
      value.Str? && expected.Str? && HasSuffix(value.s, expected.s)
  {
  }

  /** `is_true` and `is_false` accept only the exact boolean, whatever their
      operand: the integer 1 is not `True` under `is`. */
  lemma BooleanOpsExact(value: Value, e1: Value, e2: Value)
    ensures EvalOp("is_true", value, e1) == Ok(value == Bool(true))
    ensures EvalOp("is_false", value, e1) == EvalOp("is_false", value, e2)
    ensures EvalOp("is_true", Int(1), e1) == Ok(false)
  {
  }

  /** A metadata filter `{field: {"is_true": x}}` admits only documents
      whose field is stored as `true` (tests/test_search.py:273-294). */
  lemma IsTrueFilterSelects(m: Metadata, field: string, x: Value)
    requires MatchesFilter(Some(m), [(field, Ops([("is_true", x)]))]) == Ok(true)
    ensures field in m && m[field] == Bool(true)
  {
  }
}
