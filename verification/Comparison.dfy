/** When two scalars may be equal, and when a filter rules a row out: the table behind the two comparisons. */
module Comparisons {
  import opened Contracts

  /** Equal, or the two cases of one ASCII letter. */
  predicate SameLetter(c: char, d: char) {
    c == d || ('A' <= c <= 'Z' && d == c + ' ') || ('A' <= d <= 'Z' && c == d + ' ')
  }

  predicate SameLetters(a: string, b: string) {
    |a| == |b| && forall i :: 0 <= i < |a| ==> SameLetter(a[i], b[i])
  }

  /** The one is the other with spaces after it. */
  predicate Padded(short: string, long: string) {
    |short| <= |long| && long[..|short|] == short && forall i :: |short| <= i < |long| ==> long[i] == ' '
  }

  /** The number a scalar stands for. */
  predicate IsNumber(coerce: Coerce, value: Scalar, number: real) {
    value == Num(number) || (value.Str? && coerce(value.text) == Some(number))
  }

  /** The text says "true" or "false", in any case. */
  predicate SaysBool(value: Scalar, flag: bool) {
    value.Str? && SameLetters(value.text, if flag then "true" else "false")
  }

  /** Equal as they are, as text up to case or trailing spaces, as numbers, or as a truth value and its name. */
  ghost predicate Comparable(coerce: Coerce, left: Scalar, right: Scalar) {
    || left == right
    || (left.Str? && right.Str?
        && (SameLetters(left.text, right.text) || Padded(left.text, right.text) || Padded(right.text, left.text)))
    || (!(left.Str? && right.Str?) && exists number :: IsNumber(coerce, left, number) && IsNumber(coerce, right, number))
    || (left.Bool? && SaysBool(right, left.flag)) || (right.Bool? && SaysBool(left, right.flag))
  }

  /** A whole number a double holds without rounding. */
  predicate IsExact(number: real) {
    number == number.Floor as real && -9007199254740991.0 <= number <= 9007199254740991.0
  }

  lemma {:induction false} FoldExactly(a: string, b: string)
    ensures AsciiFold(a) == AsciiFold(b) <==> SameLetters(a, b)
    decreases |a|
  {
    if a != "" && b != "" {
      FoldExactly(a[1..], b[1..]);
      var foldA, foldB := AsciiFold(a), AsciiFold(b);
      assert foldA[0] == foldB[0] <==> SameLetter(a[0], b[0]);
      assert foldA[1..] == AsciiFold(a[1..]) && foldB[1..] == AsciiFold(b[1..]);
      assert foldA == [foldA[0]] + foldA[1..] && foldB == [foldB[0]] + foldB[1..];
      hide AsciiFold;
      if |a| == |b| {
        assert forall i :: 0 < i < |a| ==> a[i] == a[1..][i - 1] && b[i] == b[1..][i - 1];
        assert forall i :: 0 <= i < |a| - 1 ==> a[1..][i] == a[i + 1] && b[1..][i] == b[i + 1];
      }
    }
  }

  lemma {:induction false} TrimPads(text: string)
    ensures Padded(TrimRight(text), text)
    ensures TrimRight(text) != "" ==> TrimRight(text)[|TrimRight(text)| - 1] != ' '
    decreases |text|
  {
    if text != "" && text[|text| - 1] == ' ' {
      TrimPads(text[..|text| - 1]);
    }
  }

  lemma {:induction false} PadTrims(short: string, long: string)
    requires Padded(short, long)
    ensures TrimRight(long) == TrimRight(short)
    decreases |long|
  {
    if |short| < |long| {
      PadTrims(short, long[..|long| - 1]);
    } else {
      assert long == short;
    }
  }

  lemma TrimExactly(a: string, b: string)
    ensures TrimRight(a) == TrimRight(b) <==> Padded(a, b) || Padded(b, a)
  {
    TrimPads(a);
    TrimPads(b);
    if Padded(a, b) {
      PadTrims(a, b);
    } else if Padded(b, a) {
      PadTrims(b, a);
    }
  }

  lemma FoldIsPlain()
    ensures AsciiFold("true") == "true" && AsciiFold("false") == "false"
  {
    assert AsciiFold("") == "";
    hide AsciiFold;
    assert ['e'] + "" == "e" && ['u'] + "e" == "ue" && ['r'] + "ue" == "rue" && ['t'] + "rue" == "true";
    assert ['s'] + "e" == "se" && ['l'] + "se" == "lse" && ['a'] + "lse" == "alse" && ['f'] + "alse" == "false";
    FoldLower('e', "");
    FoldLower('u', "e");
    FoldLower('r', "ue");
    FoldLower('t', "rue");
    FoldLower('s', "e");
    FoldLower('l', "se");
    FoldLower('a', "lse");
    FoldLower('f', "alse");
  }

  lemma FoldLower(c: char, rest: string)
    requires 'a' <= c <= 'z' && AsciiFold(rest) == rest
    ensures AsciiFold([c] + rest) == [c] + rest
  {
    assert ([c] + rest)[1..] == rest;
  }

  /** `scalarMayEqual` admits exactly these pairs. */
  lemma MayEqualExactly(coerce: Coerce, left: Scalar, right: Scalar)
    ensures ScalarMayEqual(coerce, left, right) <==> Comparable(coerce, left, right)
  {
    FoldIsPlain();
    if left.Str? && right.Str? {
      FoldExactly(left.text, right.text);
      TrimExactly(left.text, right.text);
    }
    if left.Bool? && right.Str? {
      FoldExactly(right.text, BoolText(left.flag));
    }
    if right.Bool? && left.Str? {
      FoldExactly(left.text, BoolText(right.flag));
    }
    hide AsciiFold, TrimRight, SameLetters, Padded;
    if Numeric(coerce, left).Some? && Numeric(coerce, left) == Numeric(coerce, right) {
      var number := Numeric(coerce, left).value;
      assert IsNumber(coerce, left, number) && IsNumber(coerce, right, number);
    }
  }

  /**
   A filter excludes a row exactly where no conversion or rounding can make the two equal: the one is null and the
   other is not, or both are of one type, exact if they are numbers, and may not be equal.
   */
  lemma ExcludesExactly(coerce: Coerce, actual: Scalar, expected: Scalar)
    ensures !FilterMayEqual(coerce, actual, expected) <==>
      || (actual.Null? != expected.Null?)
      || (actual.Bool? && expected.Bool? && actual != expected)
      || (actual.Str? && expected.Str? && !Comparable(coerce, actual, expected))
      || (actual.Num? && expected.Num? && actual != expected
          && IsExact(actual.number) && IsExact(expected.number))
  {
    MayEqualExactly(coerce, actual, expected);
    hide AsciiFold, TrimRight, SameLetters, Padded;
  }
}
