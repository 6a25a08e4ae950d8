/** Positional decimal notation: the digits of a natural number and the number a digit string denotes. */
module Digits {

  type Digit = d: int | 0 <= d < 10

  function Pow10(n: nat): (p: nat)
    ensures p > 0
  {
    if n == 0 then 1 else 10 * Pow10(n - 1)
  }

  /** The number that a digit string denotes, most significant digit first. */
  function Value(ds: seq<Digit>): nat {
    if ds == [] then 0 else 10 * Value(ds[..|ds| - 1]) + ds[|ds| - 1]
  }

  /** What `BigInt.prototype.toString` prints: no leading zero except for zero itself. */
  function Show(n: nat): (ds: seq<Digit>)
    ensures ds != []
  {
    if n < 10 then [n] else Show(n / 10) + [n % 10]
  }

  function Zeros(n: nat): (ds: seq<Digit>)
    ensures |ds| == n
  {
    seq(n, _ => 0)
  }

  /** `text.padStart(width, "0")`. */
  function PadStart(ds: seq<Digit>, width: nat): seq<Digit> {
    if |ds| < width then Zeros(width - |ds|) + ds else ds
  }

  /** `text.replace(/0+$/, "")`. */
  function StripTrailingZeros(ds: seq<Digit>): seq<Digit> {
    if ds != [] && ds[|ds| - 1] == 0 then StripTrailingZeros(ds[..|ds| - 1]) else ds
  }

  lemma {:induction false} ShowThenValue(n: nat)
    ensures Value(Show(n)) == n
  {
    if n < 10 {
      assert Value([n]) == 10 * Value([]) + n by { assert [n][..0] == []; }
    } else {
      ShowThenValue(n / 10);
      assert Show(n)[..|Show(n)| - 1] == Show(n / 10);
    }
  }

  lemma {:induction false} Pow10Add(m: nat, n: nat)
    ensures Pow10(m + n) == Pow10(m) * Pow10(n)
  {
    if m > 0 {
      Pow10Add(m - 1, n);
      assert Pow10(m + n) == 10 * Pow10(m - 1 + n);
      assert 10 * (Pow10(m - 1) * Pow10(n)) == (10 * Pow10(m - 1)) * Pow10(n);
    }
  }

  lemma {:induction false} ValueConcat(a: seq<Digit>, b: seq<Digit>)
    ensures Value(a + b) == Value(a) * Pow10(|b|) + Value(b)
  {
    if b == [] {
      assert a + b == a;
    } else {
      var b' := b[..|b| - 1];
      ValueConcat(a, b');
      assert (a + b)[..|a + b| - 1] == a + b';
      assert 10 * (Value(a) * Pow10(|b'|)) == Value(a) * (10 * Pow10(|b'|));
    }
  }

  lemma {:induction false} ValueBound(ds: seq<Digit>)
    ensures Value(ds) < Pow10(|ds|)
  {
    if ds != [] {
      ValueBound(ds[..|ds| - 1]);
    }
  }

  lemma {:induction false} ZerosValue(n: nat)
    ensures Value(Zeros(n)) == 0
  {
    if n > 0 {
      ZerosValue(n - 1);
      assert Zeros(n)[..n - 1] == Zeros(n - 1);
    }
  }

  /** A number below 10^k prints in at most k digits (k at least one). */
  lemma {:induction false} ShowLength(n: nat, k: nat)
    requires k > 0 && n < Pow10(k)
    ensures |Show(n)| <= k
  {
    if n >= 10 {
      assert Pow10(k) == 10 * Pow10(k - 1);
      ShowLength(n / 10, k - 1);
    }
  }

  lemma PadStartValue(ds: seq<Digit>, width: nat)
    ensures Value(PadStart(ds, width)) == Value(ds)
    ensures |PadStart(ds, width)| == if |ds| < width then width else |ds|
  {
    if |ds| < width {
      ZerosValue(width - |ds|);
      ValueConcat(Zeros(width - |ds|), ds);
    }
  }

  /** Stripping removes only zeros, and nothing is left to strip. */
  lemma {:induction false} StripSplits(ds: seq<Digit>)
    ensures var s := StripTrailingZeros(ds);
      && |s| <= |ds|
      && ds == s + Zeros(|ds| - |s|)
      && (s == [] || s[|s| - 1] != 0)
  {
    if ds != [] && ds[|ds| - 1] == 0 {
      var t := ds[..|ds| - 1];
      StripSplits(t);
      var s := StripTrailingZeros(t);
      assert Zeros(|ds| - |s|) == Zeros(|t| - |s|) + [0];
      assert ds == t + [0];
    } else {
      assert ds == ds + Zeros(0);
    }
  }

  /** Dropping the last digits is floor division by a power of ten. */
  lemma TruncateIsFloor(a: seq<Digit>, b: seq<Digit>)
    ensures Value(a + b) / Pow10(|b|) == Value(a)
  {
    ValueConcat(a, b);
    ValueBound(b);
    FloorOfSum(Value(a), Pow10(|b|), Value(b));
  }

  /** Division of unsigned `bigint`s. */
  function Quot(n: nat, d: nat): nat
    requires d > 0
  {
    n / d
  }

  function Rem(n: nat, d: nat): nat
    requires d > 0
  {
    n % d
  }

  lemma QuotRem(n: nat, d: nat)
    requires d > 0
    ensures n == Quot(n, d) * d + Rem(n, d) && Rem(n, d) < d
  {
  }

  lemma MultipleIsFar(d: int, m: int)
    requires d > 0
    ensures m >= 1 ==> d * m >= d
    ensures m <= -1 ==> d * m <= -d
  {
    if m >= 1 {
      assert d * m == d + d * (m - 1);
    }
  }

  /** Euclidean division is the only way to write a number as quotient times divisor plus remainder. */
  lemma FloorOfSum(q: int, d: int, r: int)
    requires 0 <= r < d
    ensures (q * d + r) / d == q
    ensures (q * d + r) % d == r
  {
    var n := q * d + r;
    var k := n / d;
    assert n == d * k + n % d;
    assert d * (k - q) == d * k - q * d;
    MultipleIsFar(d, k - q);
  }
}
