/** Identifiers the services accept, and a numbered supply of them. */
module Identifiers {
  import opened Canonical

  const MAX_LENGTH := 128

  predicate IsUpper(c: char) {
    'A' <= c <= 'Z'
  }

  predicate IsAlphanumeric(c: char) {
    IsUpper(c) || 'a' <= c <= 'z' || IsDigit(c)
  }

  /** 1 to 128 letters, digits and `.`, `_`, `:`, `-`, the first a letter or a digit. */
  predicate IsIdentifier(s: string) {
    && 1 <= |s| <= MAX_LENGTH && IsAlphanumeric(s[0])
    && forall i :: 0 <= i < |s| ==> IsAlphanumeric(s[i]) || s[i] == '.' || s[i] == '_' || s[i] == ':' || s[i] == '-'
  }

  function Label(i: nat): string {
    "T" + Digits(i)
  }

  /** Different numbers have different labels. */
  lemma LabelsDiffer(i: nat, j: nat)
    ensures Label(i) == Label(j) <==> i == j
  {
    hide Digits, Number;
    assert Label(i)[1..] == Digits(i) && Label(j)[1..] == Digits(j);
    NumberOfDigits(i);
    NumberOfDigits(j);
  }

  /** How far the labels used here run. */
  const LARGEST := 1_000_000_000_000_000_000

  lemma LargestDigits(i: nat)
    requires i <= LARGEST
    ensures |Digits(i)| <= 19
  {
    assert |Digits(0)| == 1;
    hide Digits;
    DigitCount(i);
    if |Digits(i)| >= 20 {
      Pow10Order(19, |Digits(i)| - 1);
      PowerOfLargest();
    }
  }

  lemma PowerOfLargest()
    ensures Pow10(19) == 10 * LARGEST
  {
    assert Pow10(4) == 10_000;
    Pow10Sum(4, 4);
    Pow10Sum(8, 8);
    Pow10Sum(16, 3);
    assert Pow10(3) == 1_000;
  }

  /** Every label up to that number is accepted, with any one letter or digit before it too. */
  lemma LabelIsIdentifier(i: nat, before: char)
    requires i <= LARGEST && IsAlphanumeric(before)
    ensures IsIdentifier(Label(i)) && IsIdentifier([before] + Label(i))
  {
    hide Digits;
    LargestDigits(i);
    var s := [before] + Label(i);
    assert s[0] == before && s[1] == 'T' && s[2..] == Digits(i);
    assert forall k :: 2 <= k < |s| ==> s[k] == Digits(i)[k - 2];
    assert forall k :: 1 <= k < |Label(i)| ==> Label(i)[k] == Digits(i)[k - 1];
  }
}
