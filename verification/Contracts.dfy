/**
 Scalars, query inputs, selectors and the two comparisons every later argument leans on.

 JavaScript's finite numbers are modelled by `real`; parsing a string to a number is the
 parameter `Coerce`, so every statement holds for any parser.
 */
module Contracts {

  datatype Option<+T> = None | Some(value: T)

  datatype Outcome<+T> = Returned(value: T) | Threw(error: string)

  datatype Scalar = Null | Bool(flag: bool) | Num(number: real) | Str(text: string)

  /** A JSON object of scalars: a row's captured fields, or one partial input of a selector. */
  type Record = map<string, Scalar>

  /** What a caller may pass for one input field. Only scalars can equal a column. */
  datatype Value = Single(scalar: Scalar) | Many(items: seq<Scalar>) | Opaque(tag: int)

  type Input = map<string, Value>

  /** A non-blank string read as a finite number, if it is one. */
  type Coerce = string -> Option<real>

  datatype Selector = All | Inputs(values: seq<Record>)

  const FACT_LIMIT := 200
  const SELECTOR_LIMIT := 100
  const READ_FILTER_LIMIT := 100
  const FACT_BYTES := 131072
  const IMPACT_BYTES := 131072
  const RESOURCE_LIMIT := 128
  const NAME_LIMIT := 128

  function AsciiFold(text: string): (folded: string) {
    if text == "" then ""
    else [if 'A' <= text[0] <= 'Z' then text[0] + ' ' else text[0]] + AsciiFold(text[1..])
  }

  function TrimRight(text: string): (trimmed: string) {
    if text == "" || text[|text| - 1] != ' ' then text else TrimRight(text[..|text| - 1])
  }

  function Numeric(coerce: Coerce, value: Scalar): Option<real> {
    match value
    case Num(number) => Some(number)
    case Str(text) => coerce(text)
    case _ => None
  }

  function BoolText(flag: bool): string {
    if flag then "true" else "false"
  }

  /** `scalarMayEqual` on two scalars. Lower-casing is only ever compared with "true" or "false". */
  predicate ScalarMayEqual(coerce: Coerce, actual: Scalar, expected: Scalar) {
    if actual == expected then true
    else if actual.Null? || expected.Null? then false
    else if actual.Str? && expected.Str? then
      AsciiFold(actual.text) == AsciiFold(expected.text) || TrimRight(actual.text) == TrimRight(expected.text)
    else if Numeric(coerce, actual).Some? && Numeric(coerce, actual) == Numeric(coerce, expected) then true
    else if actual.Bool? && expected.Str? then AsciiFold(expected.text) == BoolText(actual.flag)
    else if expected.Bool? && actual.Str? then AsciiFold(actual.text) == BoolText(expected.flag)
    else false
  }

  predicate SafeInteger(number: real) {
    number == number.Floor as real && -9007199254740991.0 <= number <= 9007199254740991.0
  }

  predicate SameType(left: Scalar, right: Scalar) {
    (left.Bool? && right.Bool?) || (left.Num? && right.Num?) || (left.Str? && right.Str?)
  }

  /** `filterMayEqual`: only a comparison the database cannot coerce or round is proof of inequality. */
  predicate FilterMayEqual(coerce: Coerce, actual: Scalar, expected: Scalar) {
    if actual.Null? || expected.Null? then actual == expected
    else if !SameType(actual, expected) then true
    else if actual.Num? && (!SafeInteger(actual.number) || !SafeInteger(expected.number)) then true
    else ScalarMayEqual(coerce, actual, expected)
  }

  predicate ValueMayEqual(coerce: Coerce, actual: Value, expected: Scalar) {
    actual.Single? && ScalarMayEqual(coerce, actual.scalar, expected)
  }

  /** One alternative matches unless some field the input does carry rules it out. */
  predicate MatchesRecord(coerce: Coerce, input: Input, value: Record) {
    forall name :: name in value && name in input ==> ValueMayEqual(coerce, input[name], value[name])
  }

  predicate MatchesInputSelector(coerce: Coerce, input: Input, selector: Selector) {
    match selector
    case All => true
    case Inputs(values) =>
      || |values| == 0
      || |values| > SELECTOR_LIMIT
      || exists i :: 0 <= i < |values| && MatchesRecord(coerce, input, values[i])
  }

  /** `subsumes`: every constraint of `broad` is a constraint of `narrow`. */
  predicate Subsumes(broad: Record, narrow: Record) {
    forall name :: name in broad ==> name in narrow && narrow[name] == broad[name]
  }

  lemma SubsumesTransitive(a: Record, b: Record, c: Record)
    ensures Subsumes(a, b) && Subsumes(b, c) ==> Subsumes(a, c)
  {
  }

  /** A subsuming record is no larger, and of the same size only when it is the same record. */
  lemma SubsumesSize(broad: Record, narrow: Record)
    requires Subsumes(broad, narrow)
    ensures |broad| <= |narrow|
    ensures |broad| == |narrow| ==> broad == narrow
  {
    assert broad.Keys <= narrow.Keys;
    SubsetSize(broad.Keys, narrow.Keys);
    assert |broad.Keys| == |broad| && |narrow.Keys| == |narrow|;
    if |broad| == |narrow| {
      assert broad.Keys == narrow.Keys;
    }
  }

  lemma SubsetSize<T>(small: set<T>, large: set<T>)
    requires small <= large
    ensures |small| <= |large|
    ensures |small| == |large| ==> small == large
  {
    assert large == small + (large - small);
    assert |large| == |small| + |large - small|;
    if |small| == |large| {
      assert large - small == {};
    }
  }

  /** Dropping constraints never deselects an input. */
  lemma BroaderMatches(coerce: Coerce, input: Input, broad: Record, narrow: Record)
    requires Subsumes(broad, narrow)
    requires MatchesRecord(coerce, input, narrow)
    ensures MatchesRecord(coerce, input, broad)
  {
    forall name | name in broad && name in input
      ensures ValueMayEqual(coerce, input[name], broad[name])
    {
      assert name in narrow && name in input;
    }
  }

  /** Reflexive and symmetric, but no equivalence: "A" folds to "a" and "a" trims from "a ", yet "A" and "a " stay apart. */
  lemma MayEqualIsNotTransitive(coerce: Coerce)
    ensures forall value :: ScalarMayEqual(coerce, value, value)
    ensures forall left, right :: ScalarMayEqual(coerce, left, right) == ScalarMayEqual(coerce, right, left)
    ensures ScalarMayEqual(coerce, Str("A"), Str("a"))
    ensures ScalarMayEqual(coerce, Str("a"), Str("a "))
    ensures !ScalarMayEqual(coerce, Str("A"), Str("a "))
  {
    assert AsciiFold("A") == ['A' + ' '] + AsciiFold("A"[1..]);
    assert AsciiFold("a") == ['a'] + AsciiFold("a"[1..]);
    assert 'A' + ' ' == 'a';
    assert "a "[1..] == " ";
    assert AsciiFold("a ") == ['a'] + AsciiFold(" ");
    assert AsciiFold(" ") == [' '] + AsciiFold("");
    assert AsciiFold("a ") == "a ";
    assert "a "[..1] == "a";
    assert TrimRight("a ") == TrimRight("a") == "a";
    assert TrimRight("A") == "A";
    assert "A"[0] != "a"[0];
  }

  /** A filter exclusion is never stricter than the selector comparison. */
  lemma FilterIsWeaker(coerce: Coerce, actual: Scalar, expected: Scalar)
    requires ScalarMayEqual(coerce, actual, expected)
    ensures FilterMayEqual(coerce, actual, expected)
  {
  }
}
