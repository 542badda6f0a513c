/** Canonical decimal text, on which evidence equality and replay fingerprints rest. */
module Canonical {
  import opened Basics

  // ---- Exact decimals ---------------------------------------------------------------------

  /** The non-negative number `coefficient * 10^exponent`; many pairs name one number. */
  datatype Dec = Dec(coefficient: nat, exponent: int)

  function Pow10(n: nat): (p: nat)
    ensures p > 0
  {
    if n == 0 then 1 else 10 * Pow10(n - 1)
  }

  /** The number in units of `10^m`. */
  function Scaled(d: Dec, m: int): nat
    requires m <= d.exponent
  {
    d.coefficient * Pow10(d.exponent - m)
  }

  predicate SameValue(a: Dec, b: Dec) {
    var m := MinInt(a.exponent, b.exponent);
    Scaled(a, m) == Scaled(b, m)
  }

  lemma Associate(a: nat, b: nat, c: nat)
    ensures (a * b) * c == a * (b * c)
  {
  }

  lemma Cancel(a: nat, b: nat, c: nat)
    requires c > 0
    ensures a == b <==> a * c == b * c
  {
    if a < b {
      CancelLess(a, b, c);
    } else if b < a {
      CancelLess(b, a, c);
    }
  }

  lemma CancelLess(a: nat, b: nat, c: nat)
    requires c > 0 && a < b
    ensures a * c < b * c
  {
    assert b * c == a * c + (b - a) * c;
  }

  lemma {:induction false} Pow10Sum(a: nat, b: nat)
    ensures Pow10(a + b) == Pow10(a) * Pow10(b)
  {
    if a > 0 {
      Pow10Sum(a - 1, b);
      Associate(10, Pow10(a - 1), Pow10(b));
    }
  }

  lemma ScaledDown(d: Dec, m: int, k: nat)
    requires m <= d.exponent
    ensures Scaled(d, m - k) == Scaled(d, m) * Pow10(k)
  {
    hide Pow10;
    Pow10Sum(d.exponent - m, k);
    Associate(d.coefficient, Pow10(d.exponent - m), Pow10(k));
  }

  lemma SameAt(a: Dec, b: Dec, m: int)
    requires m <= a.exponent && m <= b.exponent
    ensures Scaled(a, m) == Scaled(b, m) <==> SameValue(a, b)
  {
    hide Scaled;
    var top := MinInt(a.exponent, b.exponent);
    ScaledDown(a, top, top - m);
    ScaledDown(b, top, top - m);
    Cancel(Scaled(a, top), Scaled(b, top), Pow10(top - m));
  }

  lemma SameSymmetric(a: Dec, b: Dec)
    ensures SameValue(a, b) <==> SameValue(b, a)
  {
  }

  lemma SameTransitive(a: Dec, b: Dec, c: Dec)
    requires SameValue(a, b) && SameValue(b, c)
    ensures SameValue(a, c)
  {
    hide Scaled, SameValue;
    var m := MinInt(a.exponent, MinInt(b.exponent, c.exponent));
    SameAt(a, b, m);
    SameAt(b, c, m);
    SameAt(a, c, m);
  }

  // ---- Normal form ------------------------------------------------------------------------

  predicate IsNormal(d: Dec) {
    d.coefficient % 10 != 0 || d == Dec(0, 0)
  }

  /** Trailing zeros moved into the exponent. */
  function Normalize(d: Dec): (n: Dec)
    ensures IsNormal(n)
    decreases d.coefficient
  {
    if d.coefficient == 0 then Dec(0, 0)
    else if d.coefficient % 10 == 0 then Normalize(Dec(d.coefficient / 10, d.exponent + 1))
    else d
  }

  lemma ZerosAreSame(a: Dec, b: Dec)
    requires a.coefficient == 0 && b.coefficient == 0
    ensures SameValue(a, b)
  {
    hide Pow10;
    var m := MinInt(a.exponent, b.exponent);
    assert Scaled(a, m) == 0 * Pow10(a.exponent - m) == 0;
    assert Scaled(b, m) == 0 * Pow10(b.exponent - m) == 0;
  }

  lemma {:induction false} NormalizeKeepsValue(d: Dec)
    ensures SameValue(d, Normalize(d))
    decreases d.coefficient
  {
    if d.coefficient == 0 {
      ZerosAreSame(d, Dec(0, 0));
    } else if d.coefficient % 10 == 0 {
      var less := Dec(d.coefficient / 10, d.exponent + 1);
      assert Pow10(0) == 1 && Pow10(1) == 10;
      assert SameValue(d, less);
      NormalizeKeepsValue(less);
      SameTransitive(d, less, Normalize(less));
    }
  }

  lemma ScaledIsPositive(d: Dec, m: int)
    requires m <= d.exponent && d.coefficient > 0
    ensures Scaled(d, m) > 0
  {
    hide Pow10;
    CancelLess(0, d.coefficient, Pow10(d.exponent - m));
  }

  lemma TenDivides(a: nat, b: nat, k: nat)
    requires k > 0 && a == b * Pow10(k)
    ensures a % 10 == 0
  {
    Associate(b, 10, Pow10(k - 1));
    Associate(10, b, Pow10(k - 1));
    assert a == 10 * (b * Pow10(k - 1));
  }

  lemma LowerExponentHasTrailingZero(a: Dec, b: Dec)
    requires SameValue(a, b) && a.exponent < b.exponent
    ensures a.coefficient % 10 == 0
  {
    assert Pow10(0) == 1;
    TenDivides(a.coefficient, b.coefficient, b.exponent - a.exponent);
  }

  /** One number has one normal form. */
  lemma NormalFormIsUnique(a: Dec, b: Dec)
    requires IsNormal(a) && IsNormal(b)
    ensures SameValue(a, b) <==> a == b
  {
    hide SameValue;
    if a == b {
      SameAt(a, a, a.exponent);
    } else if SameValue(a, b) {
      OnlyZeroIsZero(a, b);
      SameSymmetric(a, b);
      if a.exponent < b.exponent {
        LowerExponentHasTrailingZero(a, b);
      } else if b.exponent < a.exponent {
        LowerExponentHasTrailingZero(b, a);
      } else {
        SameCoefficient(a, b);
      }
    }
  }

  lemma OnlyZeroIsZero(a: Dec, b: Dec)
    requires SameValue(a, b)
    ensures a.coefficient == 0 <==> b.coefficient == 0
  {
    hide Pow10;
    var m := MinInt(a.exponent, b.exponent);
    if a.coefficient > 0 {
      ScaledIsPositive(a, m);
    }
    if b.coefficient > 0 {
      ScaledIsPositive(b, m);
    }
  }

  lemma SameCoefficient(a: Dec, b: Dec)
    requires SameValue(a, b) && a.exponent == b.exponent
    ensures a.coefficient == b.coefficient
  {
    assert Pow10(0) == 1;
  }

  lemma NormalizeDecidesValue(a: Dec, b: Dec)
    ensures Normalize(a) == Normalize(b) <==> SameValue(a, b)
  {
    hide SameValue, IsNormal;
    NormalizeKeepsValue(a);
    NormalizeKeepsValue(b);
    SameSymmetric(b, Normalize(b));
    SameSymmetric(a, Normalize(a));
    if Normalize(a) == Normalize(b) {
      SameTransitive(a, Normalize(a), b);
    }
    if SameValue(a, b) {
      SameTransitive(Normalize(a), a, b);
      SameTransitive(Normalize(a), b, Normalize(b));
      NormalFormIsUnique(Normalize(a), Normalize(b));
    }
  }

  // ---- Text -------------------------------------------------------------------------------

  predicate IsDigit(c: char) {
    '0' <= c <= '9'
  }

  predicate AllDigits(s: string) {
    forall i :: 0 <= i < |s| ==> IsDigit(s[i])
  }

  function DigitChar(n: nat): (c: char)
    requires n < 10
    ensures IsDigit(c) && DigitValue(c) == n
  {
    '0' + n as char
  }

  function DigitValue(c: char): (n: nat)
    requires IsDigit(c)
    ensures n < 10
  {
    c as int - '0' as int
  }

  function Digits(n: nat): (s: string)
    ensures |s| > 0 && AllDigits(s)
  {
    if n < 10 then [DigitChar(n)] else Digits(n / 10) + [DigitChar(n % 10)]
  }

  function Zeros(n: nat): (s: string)
    ensures |s| == n && AllDigits(s)
  {
    if n == 0 then "" else Zeros(n - 1) + "0"
  }

  function Number(s: string): nat
    requires AllDigits(s)
  {
    if s == "" then 0 else Number(s[..|s| - 1]) * 10 + DigitValue(s[|s| - 1])
  }

  lemma NumberAppend(s: string, c: char)
    requires AllDigits(s) && IsDigit(c)
    ensures AllDigits(s + [c]) && Number(s + [c]) == Number(s) * 10 + DigitValue(c)
  {
    assert (s + [c])[..|s + [c]| - 1] == s;
  }

  lemma {:induction false} NumberOfDigits(n: nat)
    ensures Number(Digits(n)) == n
  {
    if n < 10 {
      NumberAppend("", DigitChar(n));
      assert "" + [DigitChar(n)] == Digits(n);
    } else {
      NumberOfDigits(n / 10);
      NumberAppend(Digits(n / 10), DigitChar(n % 10));
    }
  }

  lemma TenTimes(a: nat, k: nat)
    requires k > 0
    ensures (a * Pow10(k - 1)) * 10 == a * Pow10(k)
  {
    Associate(a, Pow10(k - 1), 10);
  }

  lemma ZerosStep(s: string, k: nat)
    requires k > 0
    ensures s + Zeros(k) == s + Zeros(k - 1) + ['0']
  {
  }

  lemma {:induction false} NumberShifted(s: string, k: nat)
    requires AllDigits(s)
    ensures AllDigits(s + Zeros(k)) && Number(s + Zeros(k)) == Number(s) * Pow10(k)
  {
    if k == 0 {
      assert s + Zeros(0) == s;
    } else {
      hide Number, Pow10, Zeros;
      NumberShifted(s, k - 1);
      NumberAppend(s + Zeros(k - 1), '0');
      ZerosStep(s, k);
      TenTimes(Number(s), k);
    }
  }

  lemma {:induction false} NumberOfZeros(k: nat)
    ensures Number(Zeros(k)) == 0
  {
    if k > 0 {
      NumberOfZeros(k - 1);
      NumberAppend(Zeros(k - 1), '0');
    }
  }

  lemma {:induction false} NumberPadded(k: nat, s: string)
    requires AllDigits(s)
    ensures AllDigits(Zeros(k) + s) && Number(Zeros(k) + s) == Number(s)
    decreases |s|
  {
    if s == "" {
      NumberOfZeros(k);
      assert Zeros(k) + s == Zeros(k);
    } else {
      var front, last := s[..|s| - 1], s[|s| - 1];
      NumberPadded(k, front);
      NumberAppend(Zeros(k) + front, last);
      assert Zeros(k) + front + [last] == Zeros(k) + s;
    }
  }

  /** Fixed-point text, never in exponent notation. */
  function Plain(d: Dec): string {
    var digits := Digits(d.coefficient);
    var point := |digits| + d.exponent;
    if d.exponent >= 0 then digits + Zeros(d.exponent)
    else if point > 0 then digits[..point] + "." + digits[point..]
    else "0" + "." + (Zeros(-point) + digits)
  }

  function DotAt(s: string): (i: nat)
    ensures i <= |s| && (i < |s| ==> s[i] == '.')
    ensures forall j :: 0 <= j < i ==> s[j] != '.'
  {
    if s == "" || s[0] == '.' then 0 else 1 + DotAt(s[1..])
  }

  /** Reads unsigned fixed-point text with at least one digit before any point. */
  function Read(s: string): Option<Dec> {
    var dot := DotAt(s);
    var whole, fraction := s[..dot], if dot == |s| then "" else s[dot + 1..];
    if whole != "" && AllDigits(whole) && AllDigits(fraction)
    then Some(Dec(Number(whole + fraction), -|fraction|))
    else None
  }

  lemma ReadWhole(s: string)
    requires s != "" && AllDigits(s)
    ensures Read(s) == Some(Dec(Number(s), 0))
  {
    hide Number, DotAt;
    assert DotAt(s) == |s|;
    assert s[..|s|] + "" == s;
  }

  lemma ReadPointed(whole: string, fraction: string)
    requires whole != "" && AllDigits(whole) && AllDigits(fraction)
    ensures AllDigits(whole + fraction)
    ensures Read(whole + "." + fraction) == Some(Dec(Number(whole + fraction), -|fraction|))
  {
    hide Number, DotAt;
    var s := whole + "." + fraction;
    assert s[|whole|] == '.';
    forall j | 0 <= j < |whole|
      ensures s[j] != '.'
    {
      assert s[j] == whole[j];
    }
    assert DotAt(s) == |whole|;
    assert s[..|whole|] == whole && s[|whole| + 1..] == fraction;
  }

  /** What reading back a plain text yields: the same number. */
  lemma ReadPlain(d: Dec)
    ensures Read(Plain(d)).Some? && SameValue(Read(Plain(d)).value, d)
  {
    hide Read, Number, Digits, Zeros, DotAt;
    var digits := Digits(d.coefficient);
    NumberOfDigits(d.coefficient);
    if d.exponent >= 0 {
      NumberShifted(digits, d.exponent);
      ReadWhole(Plain(d));
      assert Pow10(0) == 1;
    } else if |digits| + d.exponent > 0 {
      var point := |digits| + d.exponent;
      ReadPointed(digits[..point], digits[point..]);
      assert digits[..point] + digits[point..] == digits;
    } else {
      var k := -(|digits| + d.exponent);
      ReadPointed("0", Zeros(k) + digits);
      NumberPadded(k + 1, digits);
      LeadingZero(k);
      assert "0" + (Zeros(k) + digits) == Zeros(k + 1) + digits;
    }
  }

  lemma {:induction false} LeadingZero(k: nat)
    ensures "0" + Zeros(k) == Zeros(k + 1)
  {
    if k > 0 {
      LeadingZero(k - 1);
      assert "0" + Zeros(k) == "0" + Zeros(k - 1) + "0";
    }
  }

  // ---- Canonical text ---------------------------------------------------------------------

  function Canon(d: Dec): string {
    Plain(Normalize(d))
  }

  lemma ReadCanon(d: Dec)
    ensures Read(Canon(d)).Some? && SameValue(Read(Canon(d)).value, d)
  {
    hide Read, Plain, SameValue, Normalize;
    ReadPlain(Normalize(d));
    NormalizeKeepsValue(d);
    SameSymmetric(d, Normalize(d));
    SameTransitive(Read(Canon(d)).value, Normalize(d), d);
  }

  /** Two amounts print the same text exactly when they are numerically equal. */
  lemma CanonDecidesValue(a: Dec, b: Dec)
    ensures Canon(a) == Canon(b) <==> SameValue(a, b)
  {
    hide Read, Plain, SameValue, Normalize;
    NormalizeDecidesValue(a, b);
    ReadCanon(a);
    ReadCanon(b);
    if Canon(a) == Canon(b) {
      SameSymmetric(Read(Canon(a)).value, a);
      SameTransitive(a, Read(Canon(a)).value, b);
    }
  }

  /** Reading a canonical text and printing it again changes nothing. */
  lemma CanonIsStable(d: Dec)
    ensures Read(Canon(d)).Some? && Canon(Read(Canon(d)).value) == Canon(d)
  {
    hide Read, Canon, SameValue;
    ReadCanon(d);
    CanonDecidesValue(Read(Canon(d)).value, d);
  }

  // ---- Accepted amounts -------------------------------------------------------------------

  const MAX_DIGITS := 20
  const DECIMAL_PLACES := 4

  /** Positive, with at most twenty digits, four of them after the point and so sixteen before it; zeros
      that end the fraction do not count. */
  predicate Accepted(d: Dec) {
    var n := Normalize(d);
    && n.coefficient > 0
    && n.exponent >= -DECIMAL_PLACES
    && |Digits(n.coefficient)| + MaxInt(n.exponent, 0) <= MAX_DIGITS
    && |Digits(n.coefficient)| + n.exponent <= MAX_DIGITS - DECIMAL_PLACES
  }

  lemma AcceptedByValue(a: Dec, b: Dec)
    requires SameValue(a, b)
    ensures Accepted(a) <==> Accepted(b)
  {
    hide Normalize, Digits;
    NormalizeDecidesValue(a, b);
  }

  /** An accepted amount as a whole number of ten-thousandths. */
  function TenThousandths(d: Dec): (u: nat)
    requires Accepted(d)
    ensures u > 0
  {
    ScaledIsPositive(Normalize(d), -DECIMAL_PLACES);
    Scaled(Normalize(d), -DECIMAL_PLACES)
  }

  lemma {:induction false} Pow10Order(a: nat, b: nat)
    requires a <= b
    ensures Pow10(a) <= Pow10(b)
  {
    if a < b {
      Pow10Order(a, b - 1);
    }
  }

  lemma {:induction false} DigitCount(n: nat)
    ensures n < Pow10(|Digits(n)|)
    ensures n > 0 ==> Pow10(|Digits(n)| - 1) <= n
  {
    if n >= 10 {
      DigitCount(n / 10);
    } else {
      assert Pow10(0) == 1 && Pow10(1) == 10;
    }
  }

  lemma ScaledWithin(a: nat, b: nat, k: nat, digits: nat)
    requires Pow10(digits) <= a < Pow10(digits + 1) && b == a * Pow10(k)
    ensures Pow10(digits + k) <= b < Pow10(digits + 1 + k)
  {
    hide Pow10;
    Pow10Sum(digits, k);
    Pow10Sum(digits + 1, k);
    CancelLess(a, Pow10(digits + 1), Pow10(k));
    if Pow10(digits) < a {
      CancelLess(Pow10(digits), a, Pow10(k));
    }
  }

  /** The digit rules say no more than this: a positive whole number of ten-thousandths below 10^20. */
  lemma AcceptedRange(d: Dec)
    ensures Accepted(d) <==>
              && Normalize(d).exponent >= -DECIMAL_PLACES
              && 0 < Scaled(Normalize(d), -DECIMAL_PLACES) < Pow10(MAX_DIGITS)
  {
    hide Pow10, Normalize, Digits;
    var n := Normalize(d);
    if n.exponent >= -DECIMAL_PLACES && n.coefficient > 0 {
      var digits, k := |Digits(n.coefficient)| - 1, n.exponent + DECIMAL_PLACES;
      DigitCount(n.coefficient);
      ScaledIsPositive(n, -DECIMAL_PLACES);
      ScaledWithin(n.coefficient, Scaled(n, -DECIMAL_PLACES), k, digits);
      if digits + 1 + k <= MAX_DIGITS {
        Pow10Order(digits + 1 + k, MAX_DIGITS);
      } else {
        Pow10Order(MAX_DIGITS, digits + k);
      }
    }
  }

  /** Counting ten-thousandths loses nothing: equal counts are equal texts. */
  lemma TenThousandthsAreExact(a: Dec, b: Dec)
    requires Accepted(a) && Accepted(b)
    ensures TenThousandths(a) == TenThousandths(b) <==> Canon(a) == Canon(b)
  {
    hide Normalize, Digits, Scaled, SameValue, Canon;
    SameAt(Normalize(a), Normalize(b), -DECIMAL_PLACES);
    CanonDecidesValue(a, b);
    NormalizeDecidesValue(a, b);
    NormalizeDecidesValue(Normalize(a), Normalize(b));
    NormalizeKeepsValue(a);
    NormalizeKeepsValue(b);
    NormalizeDecidesValue(a, Normalize(a));
    NormalizeDecidesValue(b, Normalize(b));
  }

  // ---- Evidence records -------------------------------------------------------------------

  const AMOUNT := "amount"
  const BASE_AMOUNT := "base_currency_amount"
  const CURRENCY := "currency"
  const BASE_CURRENCY := "base_currency"

  /** Validated evidence: its textual fields, absent ones left out, and its decimal amounts. */
  datatype Evidence = Evidence(texts: map<string, string>, amount: Dec, baseAmount: Option<Dec>)

  /** A decimal-valued entry of a dumped record: serialised as it was given, or rewritten. */
  datatype Entry = Serialized(d: Dec) | Rewritten(text: string)

  datatype Document = Document(texts: map<string, string>, amounts: map<string, Entry>)

  function Parse(e: Entry): Option<Dec> {
    match e
    case Serialized(d) => Some(d)
    case Rewritten(text) => Read(text)
  }

  predicate SameCurrency(e: Evidence) {
    BASE_CURRENCY in e.texts && CURRENCY in e.texts && e.texts[BASE_CURRENCY] == e.texts[CURRENCY]
  }

  /** A base amount comes with its currency, and equals the amount when the currencies agree. */
  predicate ConversionPair(e: Evidence) {
    && (BASE_CURRENCY in e.texts <==> e.baseAmount.Some?)
    && (SameCurrency(e) && e.baseAmount.Some? ==> SameValue(e.baseAmount.value, e.amount))
  }

  predicate Valid(e: Evidence) {
    Accepted(e.amount) && (e.baseAmount.Some? ==> Accepted(e.baseAmount.value)) && ConversionPair(e)
  }

  datatype Rejection = NoAmount | BadAmount | BadConversion

  function Validate(doc: Document): Result<Evidence, Rejection> {
    if AMOUNT !in doc.amounts then Err(NoAmount)
    else
      var amount := Parse(doc.amounts[AMOUNT]);
      var base := if BASE_AMOUNT in doc.amounts then Parse(doc.amounts[BASE_AMOUNT]) else None;
      if amount.None? || !Accepted(amount.value) then Err(BadAmount)
      else if BASE_AMOUNT in doc.amounts && (base.None? || !Accepted(base.value)) then Err(BadAmount)
      else
        var e := Evidence(doc.texts, amount.value, base);
        if ConversionPair(e) then Ok(e) else Err(BadConversion)
  }

  function Dump(e: Evidence): Document {
    var amounts := map[AMOUNT := Serialized(e.amount)];
    Document(e.texts, if e.baseAmount.Some? then amounts[BASE_AMOUNT := Serialized(e.baseAmount.value)] else amounts)
  }

  /** The canonical record: the dumped one with every amount in canonical text. */
  function CanonicalOf(e: Evidence): Document {
    var amounts := map[AMOUNT := Rewritten(Canon(e.amount))];
    Document(e.texts,
             if e.baseAmount.Some? then amounts[BASE_AMOUNT := Rewritten(Canon(e.baseAmount.value))] else amounts)
  }

  /** The entry reads as an accepted amount. */
  predicate Usable(x: Entry) {
    Parse(x).Some? && Accepted(Parse(x).value)
  }

  lemma SameInTenThousandths(a: Dec, b: Dec)
    requires Accepted(a) && Accepted(b)
    ensures SameValue(a, b) <==> TenThousandths(a) == TenThousandths(b)
  {
    hide SameValue, Accepted, TenThousandths, Canon;
    TenThousandthsAreExact(a, b);
    CanonDecidesValue(a, b);
  }

  /** Main result: a record is accepted exactly if its amount is usable, a base amount and a base currency come
      together, and the base amount is usable too and, where both currencies are the same, as many
      ten-thousandths; what is accepted is then what the record says. */
  lemma ValidationIsExact(doc: Document)
    ensures Validate(doc).Ok? <==>
              && AMOUNT in doc.amounts && Usable(doc.amounts[AMOUNT])
              && (BASE_AMOUNT in doc.amounts <==> BASE_CURRENCY in doc.texts)
              && (BASE_AMOUNT in doc.amounts ==>
                    && Usable(doc.amounts[BASE_AMOUNT])
                    && (CURRENCY in doc.texts && doc.texts[BASE_CURRENCY] == doc.texts[CURRENCY] ==>
                          TenThousandths(Parse(doc.amounts[BASE_AMOUNT]).value)
                          == TenThousandths(Parse(doc.amounts[AMOUNT]).value)))
    ensures Validate(doc).Ok? ==>
              var e := Validate(doc).value;
              && e.texts == doc.texts && Some(e.amount) == Parse(doc.amounts[AMOUNT])
              && e.baseAmount == if BASE_AMOUNT in doc.amounts then Parse(doc.amounts[BASE_AMOUNT]) else None
  {
    hide SameValue, Accepted, TenThousandths, Read;
    if AMOUNT in doc.amounts && Usable(doc.amounts[AMOUNT]) && BASE_AMOUNT in doc.amounts
       && Usable(doc.amounts[BASE_AMOUNT]) {
      SameInTenThousandths(Parse(doc.amounts[BASE_AMOUNT]).value, Parse(doc.amounts[AMOUNT]).value);
    }
  }

  /** Valid evidence passes validation as it is, before any amount is rewritten. */
  lemma DumpedIsAccepted(e: Evidence)
    requires Valid(e)
    ensures Validate(Dump(e)) == Ok(e)
  {
    hide SameValue, Accepted;
    assert AMOUNT != BASE_AMOUNT;
  }

  method Canonicalize(e: Evidence) returns (value: Document)
    ensures value == CanonicalOf(e)
  {
    hide Canon;
    value := Dump(e);
    var keys := [AMOUNT, BASE_AMOUNT];
    for i := 0 to |keys|
      invariant value.texts == e.texts && value.amounts.Keys == Dump(e).amounts.Keys
      invariant forall j :: 0 <= j < i && keys[j] in value.amounts ==>
                  value.amounts[keys[j]] == CanonicalOf(e).amounts[keys[j]]
      invariant forall j :: i <= j < |keys| && keys[j] in value.amounts ==>
                  value.amounts[keys[j]] == Dump(e).amounts[keys[j]]
    {
      if keys[i] in value.amounts {
        var d := Parse(value.amounts[keys[i]]).value;
        value := value.(amounts := value.amounts[keys[i] := Rewritten(Canon(d))]);
      }
    }
    assert keys[0] == AMOUNT && keys[1] == BASE_AMOUNT;
  }

  /** Equal up to the way amounts were written. */
  predicate SameEvidence(a: Evidence, b: Evidence) {
    && a.texts == b.texts
    && SameValue(a.amount, b.amount)
    && a.baseAmount.Some? == b.baseAmount.Some?
    && (a.baseAmount.Some? && b.baseAmount.Some? ==> SameValue(a.baseAmount.value, b.baseAmount.value))
  }

  /** Canonical records, hence injective fingerprints of them, agree exactly on equal evidence. */
  lemma CanonicalDecidesEvidence(a: Evidence, b: Evidence)
    ensures CanonicalOf(a) == CanonicalOf(b) <==> SameEvidence(a, b)
  {
    hide Canon, SameValue;
    CanonDecidesValue(a.amount, b.amount);
    if a.baseAmount.Some? && b.baseAmount.Some? {
      CanonDecidesValue(a.baseAmount.value, b.baseAmount.value);
    }
    var x, y := CanonicalOf(a), CanonicalOf(b);
    assert AMOUNT != BASE_AMOUNT;
    assert x.amounts[AMOUNT] == Rewritten(Canon(a.amount)) && y.amounts[AMOUNT] == Rewritten(Canon(b.amount));
    assert BASE_AMOUNT in x.amounts <==> a.baseAmount.Some?;
    assert BASE_AMOUNT in y.amounts <==> b.baseAmount.Some?;
  }

  lemma ConversionByValue(a: Evidence, b: Evidence)
    requires SameEvidence(a, b) && ConversionPair(a)
    ensures ConversionPair(b)
  {
    hide SameValue;
    if b.baseAmount.Some? && SameValue(a.baseAmount.value, a.amount) {
      SameSymmetric(a.baseAmount.value, b.baseAmount.value);
      SameTransitive(b.baseAmount.value, a.baseAmount.value, a.amount);
      SameTransitive(b.baseAmount.value, a.amount, b.amount);
    }
  }

  /** Evidence read back from its canonical record. */
  function Reread(e: Evidence): (r: Evidence)
    ensures SameEvidence(e, r)
  {
    hide Canon, Read, SameValue;
    ReadCanon(e.amount);
    SameSymmetric(Read(Canon(e.amount)).value, e.amount);
    if e.baseAmount.Some? then
      ReadCanon(e.baseAmount.value);
      SameSymmetric(Read(Canon(e.baseAmount.value)).value, e.baseAmount.value);
      Evidence(e.texts, Read(Canon(e.amount)).value, Read(Canon(e.baseAmount.value)))
    else
      Evidence(e.texts, Read(Canon(e.amount)).value, None)
  }

  /**
   * The HTTP path canonicalises a request and hands the record to a store that validates and
   * canonicalises it again; the event path does so once. Valid evidence passes the second validation
   * and comes out as the same record, so one transaction has one fingerprint on both paths.
   */
  lemma PathsAgree(e: Evidence)
    requires Valid(e)
    ensures Validate(CanonicalOf(e)).Ok?
    ensures CanonicalOf(Validate(CanonicalOf(e)).value) == CanonicalOf(e)
  {
    hide Canon, Read, SameValue, Accepted, ConversionPair;
    var r := Reread(e);
    AcceptedByValue(e.amount, r.amount);
    if e.baseAmount.Some? {
      AcceptedByValue(e.baseAmount.value, r.baseAmount.value);
    }
    ConversionByValue(e, r);
    ValidateRereads(e);
    CanonicalDecidesEvidence(e, r);
  }

  lemma ValidateRereads(e: Evidence)
    requires Accepted(Reread(e).amount) && ConversionPair(Reread(e))
    requires Reread(e).baseAmount.Some? ==> Accepted(Reread(e).baseAmount.value)
    ensures Validate(CanonicalOf(e)) == Ok(Reread(e))
  {
    hide Canon, Read, SameValue, Accepted, ConversionPair;
    ReadCanon(e.amount);
    if e.baseAmount.Some? {
      ReadCanon(e.baseAmount.value);
    }
  }
}
