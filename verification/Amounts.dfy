/**
 Printing and parsing token amounts: `formatNative`, `parseAmount` and `formatAcuUnits`.  Amounts are
 non-negative; the text is an unsigned decimal.
 */
module Amounts {
  import opened Basics
  import opened Digits

  predicate IsDigitChar(c: char) { '0' <= c <= '9' }

  function DigitOf(c: char): Digit
    requires IsDigitChar(c)
  {
    c as int - '0' as int
  }

  function CharOf(d: Digit): char {
    '0' + (d as int as char)
  }

  function Text(ds: seq<Digit>): (t: string)
    ensures |t| == |ds|
    ensures forall i | 0 <= i < |t| :: IsDigitChar(t[i]) && DigitOf(t[i]) == ds[i]
  {
    seq(|ds|, i requires 0 <= i < |ds| => CharOf(ds[i]))
  }

  ghost predicate AllDigits(t: string) {
    forall i | 0 <= i < |t| :: IsDigitChar(t[i])
  }

  function DigitsOf(t: string): (ds: seq<Digit>)
    requires AllDigits(t)
    ensures |ds| == |t|
    ensures forall i | 0 <= i < |ds| :: ds[i] == DigitOf(t[i])
  {
    seq(|t|, i requires 0 <= i < |t| => DigitOf(t[i]))
  }

  /** `BigInt(text)` for a string of digits; the empty string is zero. */
  function BigIntOf(t: string): nat
    requires AllDigits(t)
  {
    Value(DigitsOf(t))
  }

  /** An unsigned decimal: digits and dots only. */
  ghost predicate UnsignedText(t: string) {
    forall i | 0 <= i < |t| :: IsDigitChar(t[i]) || t[i] == '.'
  }

  // ----- The code

  /** The digits of a fraction of `10^decimals`, padded on the left and without trailing zeros. */
  function FracDigits(frac: nat, decimals: nat): seq<Digit> {
    StripTrailingZeros(PadStart(Show(frac), decimals))
  }

  function Assemble(whole: nat, fracDigits: seq<Digit>): string {
    if |fracDigits| > 0 then Text(Show(whole)) + "." + Text(fracDigits) else Text(Show(whole))
  }

  function FormatDecimal(raw: nat, decimals: nat): string {
    var base := Pow10(decimals);
    Assemble(Quot(raw, base), FracDigits(Rem(raw, base), decimals))
  }

  function FormatNative(raw: nat, decimals: nat, symbol: string): string {
    FormatDecimal(raw, decimals) + " " + symbol
  }

  const ACU_DECIMALS: nat := 12
  const ACU_SCALE: nat := 1_000_000_000_000

  /** Text that is not a plain digit string is passed through. */
  function FormatAcuUnits(raw: string): string {
    if raw == "" || exists i | 0 <= i < |raw| :: !IsDigitChar(raw[i]) then raw
    else
      var units := BigIntOf(raw);
      var whole := Quot(units, ACU_SCALE);
      var fraction := Rem(units, ACU_SCALE);
      if fraction == 0 then Text(Show(whole)) + " ACU"
      else Text(Show(whole)) + "." + Text(FracDigits(fraction, 12)) + " ACU"
  }

  /** The text before the first occurrence of `c`, and the text after it if there is one. */
  function SplitAt(t: string, c: char): (r: (string, Option<string>))
    ensures |r.0| <= |t| && r.0 == t[..|r.0|]
    ensures r.1.Some? ==> t == r.0 + [c] + r.1.value
  {
    if t == "" then ("", None)
    else if t[0] == c then ("", Some(t[1..]))
    else
      var (before, after) := SplitAt(t[1..], c);
      ([t[0]] + before, after)
  }

  /** Text from a third part on (after a second dot) is ignored, as the destructuring of `split` ignores it. */
  function ParseAmount(text: string, decimals: nat): nat
    requires UnsignedText(text)
  {
    var (whole, rest) := SplitAt(text, '.');
    SplitAtParts(text);
    match rest
    case None => BigIntOf(whole)
    case Some(tail) =>
      SplitAtParts(tail);
      var frac := SplitAt(tail, '.').0;
      var fracPadded := (frac + Text(Zeros(decimals)))[..decimals];
      BigIntOf(whole) * Pow10(decimals) + BigIntOf(fracPadded)
  }

  // ----- Splitting

  lemma {:induction false} SplitAtParts(t: string)
    requires UnsignedText(t)
    ensures AllDigits(SplitAt(t, '.').0)
    ensures SplitAt(t, '.').1.Some? ==> UnsignedText(SplitAt(t, '.').1.value)
  {
    if t != "" && t[0] != '.' {
      assert UnsignedText(t[1..]);
      SplitAtParts(t[1..]);
    }
  }

  lemma {:induction false} SplitAtWithout(t: string)
    requires AllDigits(t)
    ensures SplitAt(t, '.') == (t, None)
  {
    if t != "" {
      SplitAtWithout(t[1..]);
      assert t == [t[0]] + t[1..];
    }
  }

  lemma {:induction false} SplitAtDot(w: string, f: string)
    requires AllDigits(w)
    ensures SplitAt(w + "." + f, '.') == (w, Some(f))
  {
    var t := w + "." + f;
    if w == "" {
      assert t == "." + f && t[1..] == f;
    } else {
      assert t[1..] == w[1..] + "." + f;
      SplitAtDot(w[1..], f);
      assert w == [w[0]] + w[1..];
    }
  }

  lemma TextRoundTrip(ds: seq<Digit>)
    ensures AllDigits(Text(ds)) && DigitsOf(Text(ds)) == ds
  {
  }

  lemma DigitsOfConcat(a: string, b: string)
    requires AllDigits(a) && AllDigits(b)
    ensures AllDigits(a + b) && DigitsOf(a + b) == DigitsOf(a) + DigitsOf(b)
  {
  }

  // ----- Parsing is a floor

  /** `w.f` has the digits of `f` padded or cut to `decimals` places. */
  lemma ParseDecimal(w: string, f: string, decimals: nat)
    requires AllDigits(w) && AllDigits(f)
    ensures UnsignedText(w + "." + f)
    ensures var padded := (DigitsOf(f) + Zeros(decimals))[..decimals];
            ParseAmount(w + "." + f, decimals) == BigIntOf(w) * Pow10(decimals) + Value(padded)
  {
    SplitAtDot(w, f);
    SplitAtWithout(f);
    TextRoundTrip(Zeros(decimals));
    DigitsOfConcat(f, Text(Zeros(decimals)));
    var t := (f + Text(Zeros(decimals)))[..decimals];
    assert AllDigits(t) && DigitsOf(t) == (DigitsOf(f) + Zeros(decimals))[..decimals];
  }

  /** Padding or cutting to `decimals` places floors the fraction. */
  lemma PaddedIsFloor(f: seq<Digit>, decimals: nat)
    ensures Value((f + Zeros(decimals))[..decimals]) == Value(f) * Pow10(decimals) / Pow10(|f|)
  {
    if |f| <= decimals {
      PaddedFloor(f, decimals);
    } else {
      CutFloor(f, decimals);
    }
  }

  lemma PaddedValue(f: seq<Digit>, decimals: nat)
    requires |f| <= decimals
    ensures Value((f + Zeros(decimals))[..decimals]) == Value(f) * Pow10(decimals - |f|)
  {
    var k := decimals - |f|;
    assert (f + Zeros(decimals))[..decimals] == f + Zeros(k);
    ValueConcat(f, Zeros(k));
    ZerosValue(k);
  }

  lemma PaddedFloor(f: seq<Digit>, decimals: nat)
    requires |f| <= decimals
    ensures Value((f + Zeros(decimals))[..decimals]) == Value(f) * Pow10(decimals) / Pow10(|f|)
  {
    var k := decimals - |f|;
    PaddedValue(f, decimals);
    Pow10Add(|f|, k);
    ScaledQuotient(Value(f), Pow10(k), Pow10(|f|));
  }

  lemma CutFloor(f: seq<Digit>, decimals: nat)
    requires |f| > decimals
    ensures Value((f + Zeros(decimals))[..decimals]) == Value(f) * Pow10(decimals) / Pow10(|f|)
  {
    var a, b := f[..decimals], f[decimals..];
    assert (f + Zeros(decimals))[..decimals] == a;
    assert f == a + b;
    FloorOfPrefix(a, b);
  }

  lemma FloorOfPrefix(a: seq<Digit>, b: seq<Digit>)
    ensures Value(a) == Value(a + b) * Pow10(|a|) / Pow10(|a + b|)
  {
    TruncateIsFloor(a, b);
    Pow10Add(|a|, |b|);
    CutQuotient(Value(a + b), Pow10(|b|), Pow10(|a|), Pow10(|a + b|));
  }

  lemma ScaledQuotient(v: nat, p: nat, q: nat)
    requires q > 0
    ensures v * (q * p) / q == v * p
  {
    assert v * (q * p) == (v * p) * q + 0;
    FloorOfSum(v * p, q, 0);
  }

  lemma CutQuotient(v: nat, q: nat, p: nat, pq: nat)
    requires q > 0 && p > 0 && pq == p * q && pq > 0
    ensures v * p / pq == v / q
  {
    CancelCommonFactor(v, q, p);
  }

  lemma CancelCommonFactor(v: nat, q: nat, p: nat)
    requires q > 0 && p > 0
    ensures p * q > 0 && v * p / (p * q) == v / q
  {
    MultipleIsFar(p, q);
    var k, r := v / q, v % q;
    assert v == q * k + r;
    assert v * p == k * (p * q) + r * p;
    assert 0 <= r * p < p * q by {
      assert p * q - r * p == p * (q - r);
      MultipleIsFar(p, q - r);
    }
    FloorOfSum(k, p * q, r * p);
  }

  /** For every unsigned `w.f`, parsing is the floor of the decimal value times ten to the number of decimals. */
  lemma ParseIsFloor(w: string, f: string, decimals: nat)
    requires AllDigits(w) && AllDigits(f)
    ensures UnsignedText(w + "." + f) && AllDigits(w + f)
    ensures ParseAmount(w + "." + f, decimals) == BigIntOf(w + f) * Pow10(decimals) / Pow10(|f|)
  {
    ParseDecimal(w, f, decimals);
    DigitsOfConcat(w, f);
    ValueConcat(DigitsOf(w), DigitsOf(f));
    PaddedIsFloor(DigitsOf(f), decimals);
    WholePartComesOut(BigIntOf(w), Value(DigitsOf(f)), Pow10(|f|), Pow10(decimals));
  }

  lemma WholePartComesOut(w: nat, f: nat, q: nat, p: nat)
    requires q > 0
    ensures (w * q + f) * p / q == w * p + f * p / q
  {
    var k, r := f * p / q, f * p % q;
    assert f * p == q * k + r;
    assert (w * q + f) * p == (w * p + k) * q + r by {
      assert (w * q + f) * p == w * q * p + f * p;
      assert (w * p + k) * q == w * p * q + k * q;
    }
    FloorOfSum(w * p + k, q, r);
  }

  // ----- Round trip

  lemma FracDigitsSplit(frac: nat, decimals: nat)
    ensures var s := FracDigits(frac, decimals);
            exists k: nat :: PadStart(Show(frac), decimals) == s + Zeros(k) && Value(s + Zeros(k)) == frac
  {
    var padded := PadStart(Show(frac), decimals);
    StripSplits(padded);
    PadStartValue(Show(frac), decimals);
    ShowThenValue(frac);
    var k: nat := |padded| - |FracDigits(frac, decimals)|;
    assert padded == FracDigits(frac, decimals) + Zeros(k);
  }

  lemma FracDigitsEmptyIff(frac: nat, decimals: nat)
    ensures FracDigits(frac, decimals) == [] <==> frac == 0
  {
    var s := FracDigits(frac, decimals);
    FracDigitsSplit(frac, decimals);
    var k: nat :| PadStart(Show(frac), decimals) == s + Zeros(k) && Value(s + Zeros(k)) == frac;
    ShiftedIsZeroIff(s, k);
    if s != [] {
      StripSplits(PadStart(Show(frac), decimals));
      assert s[|s| - 1] != 0 && Value(s) > 0;
    }
  }

  /** Zeros behind digits change nothing about being zero. */
  lemma ShiftedIsZeroIff(s: seq<Digit>, k: nat)
    ensures Value(s + Zeros(k)) == 0 <==> Value(s) == 0
  {
    ValueConcat(s, Zeros(k));
    ZerosValue(k);
    if Value(s) > 0 {
      MultipleIsFar(Pow10(k), Value(s));
    }
  }

  lemma PaddedLength(frac: nat, decimals: nat)
    requires 0 < frac < Pow10(decimals)
    ensures |PadStart(Show(frac), decimals)| == decimals
  {
    ShowLength(frac, decimals);
  }

  /** Padding the printed fraction back to `decimals` places restores the fraction. */
  lemma FracDigitsValue(frac: nat, decimals: nat)
    requires 0 < frac < Pow10(decimals)
    ensures Value((FracDigits(frac, decimals) + Zeros(decimals))[..decimals]) == frac
  {
    var s := FracDigits(frac, decimals);
    PaddedLength(frac, decimals);
    FracDigitsSplit(frac, decimals);
    var k: nat :| PadStart(Show(frac), decimals) == s + Zeros(k) && Value(s + Zeros(k)) == frac;
    assert (s + Zeros(decimals))[..decimals] == s + Zeros(k);
  }

  lemma ParseAssembled(whole: nat, s: seq<Digit>, decimals: nat)
    requires s != []
    ensures UnsignedText(Assemble(whole, s))
    ensures ParseAmount(Assemble(whole, s), decimals)
        == whole * Pow10(decimals) + Value((s + Zeros(decimals))[..decimals])
  {
    TextRoundTrip(Show(whole));
    TextRoundTrip(s);
    ShowThenValue(whole);
    ParseDecimal(Text(Show(whole)), Text(s), decimals);
  }

  lemma ParseWhole(whole: nat, decimals: nat)
    ensures UnsignedText(Assemble(whole, []))
    ensures ParseAmount(Assemble(whole, []), decimals) == whole
  {
    TextRoundTrip(Show(whole));
    ShowThenValue(whole);
    SplitAtWithout(Text(Show(whole)));
  }

  /** What the printed form of `whole * 10^decimals + frac` parses to. */
  lemma ParsePrinted(whole: nat, frac: nat, decimals: nat)
    requires frac < Pow10(decimals)
    ensures UnsignedText(Assemble(whole, FracDigits(frac, decimals)))
    ensures ParseAmount(Assemble(whole, FracDigits(frac, decimals)), decimals)
         == if frac == 0 then whole else whole * Pow10(decimals) + frac
  {
    FracDigitsEmptyIff(frac, decimals);
    if frac == 0 {
      ParseWhole(whole, decimals);
    } else {
      ParseAssembled(whole, FracDigits(frac, decimals), decimals);
      FracDigitsValue(frac, decimals);
    }
  }

  lemma ParseFormatted(raw: nat, decimals: nat)
    ensures UnsignedText(FormatDecimal(raw, decimals))
    ensures ParseAmount(FormatDecimal(raw, decimals), decimals)
         == if Rem(raw, Pow10(decimals)) == 0 then Quot(raw, Pow10(decimals)) else raw
  {
    var base := Pow10(decimals);
    QuotRem(raw, base);
    ParsePrinted(Quot(raw, base), Rem(raw, base), decimals);
  }

  lemma TenToTheOneOrMore(n: nat)
    ensures Pow10(n) == 1 <==> n == 0
  {
    if n > 0 {
      assert Pow10(n) == 10 * Pow10(n - 1);
    }
  }

  lemma WholeIsSmaller(whole: nat, base: nat)
    requires base > 0
    ensures whole * base == whole <==> base == 1 || whole == 0
  {
    if base > 1 && whole > 0 {
      assert whole * base == whole + whole * (base - 1);
      MultipleIsFar(whole, base - 1);
    }
  }

  lemma SurvivesIff(raw: nat, base: nat, whole: nat, frac: nat)
    requires base > 0 && raw == whole * base + frac
    ensures (if frac == 0 then whole else raw) == raw <==> frac != 0 || base == 1 || raw == 0
  {
    WholeIsSmaller(whole, base);
    if whole > 0 {
      MultipleIsFar(whole, base);
    }
  }

  /**
   Exactly which printed amounts parse back to themselves: every amount with a fractional part does; a whole
   number of units prints without a dot, and text without a dot is read as base units, so it survives only when
   it is zero or there are no decimals.
   */
  lemma RoundTripIff(raw: nat, decimals: nat)
    ensures UnsignedText(FormatDecimal(raw, decimals))
    ensures ParseAmount(FormatDecimal(raw, decimals), decimals) == raw
            <==> Rem(raw, Pow10(decimals)) != 0 || decimals == 0 || raw == 0
  {
    var base := Pow10(decimals);
    ParseFormatted(raw, decimals);
    QuotRem(raw, base);
    TenToTheOneOrMore(decimals);
    SurvivesIff(raw, base, Quot(raw, base), Rem(raw, base));
  }

  /** The dot tells whether there is a fraction. */
  lemma DotIff(whole: nat, s: seq<Digit>)
    ensures '.' in Assemble(whole, s) <==> s != []
  {
    if s != [] {
      assert Assemble(whole, s)[|Show(whole)|] == '.';
    }
  }

  /** Amounts print alike only if they are equal. */
  lemma FormatIsInjective(a: nat, b: nat, decimals: nat)
    ensures FormatDecimal(a, decimals) == FormatDecimal(b, decimals) <==> a == b
  {
    var base := Pow10(decimals);
    QuotRem(a, base);
    QuotRem(b, base);
    DotIff(Quot(a, base), FracDigits(Rem(a, base), decimals));
    DotIff(Quot(b, base), FracDigits(Rem(b, base), decimals));
    FracDigitsEmptyIff(Rem(a, base), decimals);
    FracDigitsEmptyIff(Rem(b, base), decimals);
    ParseFormatted(a, decimals);
    ParseFormatted(b, decimals);
  }

  // ----- ACU amounts

  lemma AcuScale()
    ensures Pow10(ACU_DECIMALS) == ACU_SCALE
  {
    assert Pow10(4) == 10_000 by { assert Pow10(2) == 100; }
    Pow10Add(4, 4);
    Pow10Add(8, 4);
  }

  /** `formatAcuUnits` prints a digit string as the same decimal that twelve-decimal formatting gives. */
  lemma AcuIsTwelveDecimals(raw: string)
    requires raw != "" && AllDigits(raw)
    ensures FormatAcuUnits(raw) == FormatNative(BigIntOf(raw), 12, "ACU")
  {
    AcuScale();
    FracDigitsEmptyIff(Rem(BigIntOf(raw), ACU_SCALE), ACU_DECIMALS);
    var d := FormatDecimal(BigIntOf(raw), ACU_DECIMALS);
    assert d + " " + "ACU" == d + " ACU";
  }

  /**
   The printed ACU amount, read back with twelve decimals, is the raw amount exactly when it is not a positive whole
   number.
   */
  lemma AcuRoundTripIff(raw: string)
    requires raw != "" && AllDigits(raw)
    ensures |FormatAcuUnits(raw)| >= 4
    ensures var number := FormatAcuUnits(raw)[..|FormatAcuUnits(raw)| - 4];
            UnsignedText(number)
            && (ParseAmount(number, 12) == BigIntOf(raw)
                <==> Rem(BigIntOf(raw), 1_000_000_000_000) != 0 || BigIntOf(raw) == 0)
  {
    AcuScale();
    AcuIsTwelveDecimals(raw);
    RoundTripIff(BigIntOf(raw), ACU_DECIMALS);
    var d := FormatDecimal(BigIntOf(raw), ACU_DECIMALS);
    assert FormatAcuUnits(raw) == d + " " + "ACU";
    assert FormatAcuUnits(raw)[..|d|] == d;
  }

  // ----- The exact text

  lemma {:induction false} ShowLeads(n: nat)
    ensures Show(n) == [0] || Show(n)[0] != 0
  {
    if n >= 10 {
      ShowLeads(n / 10);
      assert Show(n)[0] == Show(n / 10)[0];
    }
  }

  /** Digits of a whole number without superfluous zeros in front. */
  ghost predicate WholeText(t: string) {
    t != "" && AllDigits(t) && (t == "0" || t[0] != '0')
  }

  lemma ShowIsWhole(n: nat)
    ensures WholeText(Text(Show(n))) && BigIntOf(Text(Show(n))) == n
  {
    ShowLeads(n);
    TextRoundTrip(Show(n));
    ShowThenValue(n);
  }

  /** Digits of a fraction of `10^decimals` without zeros at the end. */
  ghost predicate FractionText(t: string, frac: nat, decimals: nat) {
    && 0 < |t| <= decimals && AllDigits(t) && t[|t| - 1] != '0'
    && BigIntOf(t) * Pow10(decimals - |t|) == frac
  }

  lemma FracIsFraction(frac: nat, decimals: nat)
    requires 0 < frac < Pow10(decimals)
    ensures FractionText(Text(FracDigits(frac, decimals)), frac, decimals)
  {
    var s := FracDigits(frac, decimals);
    StripSplits(PadStart(Show(frac), decimals));
    PaddedLength(frac, decimals);
    FracDigitsEmptyIff(frac, decimals);
    FracDigitsValue(frac, decimals);
    PaddedValue(s, decimals);
    TextRoundTrip(s);
  }

  /**
   The printed amount is the whole part without superfluous zeros and, only if there is a fraction, a dot and the
   fraction without zeros at the end.
   */
  lemma PrintedShape(raw: nat, decimals: nat)
    ensures var (w, f) := SplitAt(FormatDecimal(raw, decimals), '.');
      && WholeText(w) && BigIntOf(w) == Quot(raw, Pow10(decimals))
      && (f.None? <==> Rem(raw, Pow10(decimals)) == 0)
      && (f.Some? ==> FractionText(f.value, Rem(raw, Pow10(decimals)), decimals))
  {
    var base := Pow10(decimals);
    var whole, frac := Quot(raw, base), Rem(raw, base);
    QuotRem(raw, base);
    ShowIsWhole(whole);
    FracDigitsEmptyIff(frac, decimals);
    if frac == 0 {
      SplitAtWithout(Text(Show(whole)));
    } else {
      FracIsFraction(frac, decimals);
      SplitAtDot(Text(Show(whole)), Text(FracDigits(frac, decimals)));
    }
  }

  /** Behind the number stand a space and the symbol. */
  lemma SymbolFollows(raw: nat, decimals: nat, symbol: string)
    ensures var text, number := FormatNative(raw, decimals, symbol), FormatDecimal(raw, decimals);
      |text| == |number| + 1 + |symbol| && text[..|number|] == number && text[|number|] == ' '
      && text[|number| + 1..] == symbol
  {
  }

  /** Text without a dot is a number of base units. */
  lemma ParseWithoutDot(w: string, decimals: nat)
    requires AllDigits(w)
    ensures UnsignedText(w) && ParseAmount(w, decimals) == BigIntOf(w)
  {
    SplitAtWithout(w);
  }

  /** Of text with several dots only the first two parts count. */
  lemma ParseSecondDot(w: string, f: string, more: string, decimals: nat)
    requires AllDigits(w) && AllDigits(f) && UnsignedText(more)
    ensures UnsignedText(w + "." + f) && UnsignedText(w + "." + (f + "." + more))
    ensures ParseAmount(w + "." + (f + "." + more), decimals) == ParseAmount(w + "." + f, decimals)
  {
    SplitAtWithout(f);
    SplitFirst(f, more);
    ParseParts(w, f, f, decimals);
    ParseParts(w, f + "." + more, f, decimals);
  }

  lemma ParseParts(w: string, rest: string, f: string, decimals: nat)
    requires AllDigits(w) && UnsignedText(rest) && AllDigits(f) && SplitAt(rest, '.').0 == f
    ensures UnsignedText(w + "." + rest)
    ensures ParseAmount(w + "." + rest, decimals)
         == BigIntOf(w) * Pow10(decimals) + Value(DigitsOf((f + Text(Zeros(decimals)))[..decimals]))
  {
    SplitFirst(w, rest);
  }

  lemma {:induction false} SplitFirst(w: string, rest: string)
    requires AllDigits(w)
    ensures SplitAt(w + "." + rest, '.') == (w, Some(rest))
  {
    if w == "" {
      assert "" + "." + rest == ['.'] + rest;
    } else {
      assert w + "." + rest == [w[0]] + (w[1..] + "." + rest);
      SplitFirst(w[1..], rest);
      assert [w[0]] + w[1..] == w;
    }
  }

  /** Anything but a plain digit string is shown as it is. */
  lemma AcuPassesThrough(raw: string)
    requires raw == "" || !AllDigits(raw)
    ensures FormatAcuUnits(raw) == raw
  {
  }
}
