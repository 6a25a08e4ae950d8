/**
 Quoting contract value in native units.  The chain answers `newBalanceWithDust(v)` with the native balance
 that holds contract value `v` on top of `base`, and the dust that does not fill a native unit.
 */
module Revive {
  import opened Basics
  import opened Digits

  /** The runtime call: `unit` is the contract value of one native unit, which the client does not know. */
  datatype Chain = Chain(base: nat, unit: nat)

  datatype BalanceWithDust = BalanceWithDust(nativeBalanceWithValue: nat, dust: nat)

  datatype Quote = Quote(
    requestedContractValue: int, nativeCallValue: int, contractValuePerNativeUnit: int,
    submittedContractValue: int, excessContractValue: int, dust: nat,
    nativeBalanceBase: nat, nativeBalanceWithRequestedValue: nat)

  datatype Error = NegativeRequest

  function ReadNewBalanceWithDust(chain: Chain, v: nat): BalanceWithDust
    requires chain.unit > 0
  {
    BalanceWithDust(chain.base + Quot(v, chain.unit), Rem(v, chain.unit))
  }

  /** `ceil(log2 n)`. */
  function CeilLog2(n: nat): nat
    requires n > 0
  {
    if n == 1 then 0 else 1 + CeilLog2((n + 1) / 2)
  }

  function Pow2(k: nat): (p: nat)
    ensures p > 0
  {
    if k == 0 then 1 else 2 * Pow2(k - 1)
  }

  /** The smallest power of two that reaches `n` has exponent `CeilLog2(n)`. */
  lemma {:induction false} CeilLog2Is(n: nat, k: nat)
    requires n > 0 && n <= Pow2(k) && (k > 0 ==> Pow2(k - 1) < n)
    ensures CeilLog2(n) == k
    decreases n
  {
    if n > 1 {
      CeilLog2Is((n + 1) / 2, k - 1);
    }
  }

  /** The balance grows by a native unit exactly when the value reaches the unit. */
  lemma ExceedsBaseIff(chain: Chain, v: nat)
    requires chain.unit > 0
    ensures ReadNewBalanceWithDust(chain, v).nativeBalanceWithValue > chain.base <==> v >= chain.unit
  {
    QuotRem(v, chain.unit);
    var q := Quot(v, chain.unit);
    if q > 0 {
      MultipleIsFar(chain.unit, q);
    }
  }

  /**
   Doubling until the balance exceeds the base, then bisection: finds the contract value of one native unit
   exactly, with at most `2 * ceil(log2 unit) + 1` reads of the chain.
   */
  method DeriveContractValuePerNativeUnit(chain: Chain, nativeBalanceBase: nat) returns (unit: nat, readCount: nat)
    requires chain.unit > 0 && nativeBalanceBase == chain.base
    ensures unit == chain.unit
    ensures readCount == 2 * CeilLog2(chain.unit) + 1
  {
    var high := 1;
    ghost var k := 0;
    ExceedsBaseIff(chain, high);
    readCount := 1;
    while ReadNewBalanceWithDust(chain, high).nativeBalanceWithValue <= nativeBalanceBase
      invariant high == Pow2(k) && readCount == k + 1
      invariant k > 0 ==> Pow2(k - 1) < chain.unit
      invariant ReadNewBalanceWithDust(chain, high).nativeBalanceWithValue > chain.base <==> high >= chain.unit
      decreases chain.unit - high
    {
      high := high * 2;
      k := k + 1;
      readCount := readCount + 1;
      ExceedsBaseIff(chain, high);
    }
    CeilLog2Is(chain.unit, k);
    var low := 0;
    ghost var left := k;
    while high - low > 1
      invariant 0 <= low < chain.unit <= high
      invariant high - low == Pow2(left)
      invariant readCount == k + 1 + (k - left) && left <= k
      decreases high - low
    {
      assert left > 0;
      var mid := (low + high) / 2;
      ExceedsBaseIff(chain, mid);
      readCount := readCount + 1;
      if ReadNewBalanceWithDust(chain, mid).nativeBalanceWithValue > nativeBalanceBase {
        high := mid;
      } else {
        low := mid;
      }
      left := left - 1;
    }
    assert left == 0;
    unit := high;
  }

  /** `n` native units cover the request, and no fewer do. */
  ghost predicate IsLeastCover(n: int, unit: nat, requested: nat) {
    && n >= 0 && n * unit >= requested
    && forall m: nat :: Covers(m, unit, requested) ==> n <= m
  }

  predicate Covers(m: nat, unit: nat, requested: nat) {
    m * unit >= requested
  }

  lemma CeilingCovers(requested: nat, unit: nat, n: nat)
    requires unit > 0 && n == Quot(requested, unit) + (if Rem(requested, unit) > 0 then 1 else 0)
    ensures IsLeastCover(n, unit, requested)
    ensures 0 <= n * unit - requested < unit
  {
    var q, r := Quot(requested, unit), Rem(requested, unit);
    QuotRem(requested, unit);
    assert (q + 1) * unit == q * unit + unit;
    forall m: nat | Covers(m, unit, requested) ensures n <= m {
      assert (m - q) * unit == m * unit - q * unit;
      MultipleIsFar(unit, m - q);
    }
  }

  /** The quote: the least native amount whose contract value covers the request, with less than a unit to spare. */
  method QuoteReviveNativeCallValue(chain: Chain, requestedContractValue: int) returns (r: Result<Quote, Error>)
    requires chain.unit > 0
    ensures r.Err? <==> requestedContractValue < 0
    ensures r.Ok? ==>
      && r.value.requestedContractValue == requestedContractValue
      && r.value.contractValuePerNativeUnit == chain.unit
      && IsLeastCover(r.value.nativeCallValue, chain.unit, requestedContractValue)
      && r.value.submittedContractValue == r.value.nativeCallValue * chain.unit
      && r.value.excessContractValue == r.value.submittedContractValue - requestedContractValue
      && 0 <= r.value.excessContractValue < chain.unit
      && r.value.nativeBalanceBase == chain.base
      && r.value.nativeBalanceWithRequestedValue * chain.unit + r.value.dust
          == chain.base * chain.unit + requestedContractValue
  {
    if requestedContractValue < 0 {
      return Err(NegativeRequest);
    }
    QuotRem(0, chain.unit);
    ExceedsBaseIff(chain, 0);
    var nativeBalanceBase := ReadNewBalanceWithDust(chain, 0).nativeBalanceWithValue;
    var requested := ReadNewBalanceWithDust(chain, requestedContractValue);
    var contractValuePerNativeUnit, _ := DeriveContractValuePerNativeUnit(chain, nativeBalanceBase);
    var nativeWholeUnits := requested.nativeBalanceWithValue - nativeBalanceBase;
    var nativeCallValue :=
      if requestedContractValue == 0 then 0 else nativeWholeUnits + (if requested.dust > 0 then 1 else 0);
    var submittedContractValue := nativeCallValue * contractValuePerNativeUnit;
    QuotRem(requestedContractValue, chain.unit);
    FloorOfSum(0, chain.unit, 0);
    CeilingCovers(requestedContractValue, chain.unit, nativeCallValue);
    assert requested.nativeBalanceWithValue * chain.unit
        == chain.base * chain.unit + Quot(requestedContractValue, chain.unit) * chain.unit;
    r := Ok(Quote(requestedContractValue, nativeCallValue, contractValuePerNativeUnit, submittedContractValue,
                  submittedContractValue - requestedContractValue, requested.dust, nativeBalanceBase,
                  requested.nativeBalanceWithValue));
  }

}
