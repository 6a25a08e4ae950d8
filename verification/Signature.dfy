/**
 The low-s form of secp256k1 signatures.  Recovery is an arbitrary partial function of the signature: it may
 throw, and nothing else is known about it.
 */
module Signature {
  import opened Basics
  import opened Bytes

  const N := 0xfffffffffffffffffffffffffffffffebaaedce6af48a03bbfd25e8cd0364141
  const HALF_N := N / 2

  /** A signature as `ethers.Signature.from` takes it. */
  datatype Rsv = Rsv(r: seq<Byte>, s: int, v: int)

  datatype Error = UnsupportedLength(length: nat) | BadAddress | NegativeS | RecoveryThrew | UnexpectedSigner

  /** Signer of a fixed digest, `None` where `recoverAddress` throws. */
  type Recovery = Rsv -> Option<string>

  /** `serialized`: r, s and v in 65 bytes. */
  function Serialized(sig: Rsv): seq<Byte>
    requires 0 <= sig.s && 0 <= sig.v < 256
  {
    sig.r + BeBytes(sig.s, 32) + [sig.v]
  }

  predicate SupportedLength(bytes: seq<Byte>) {
    |bytes| == 64 || |bytes| == 65
  }

  function S(bytes: seq<Byte>): nat
    requires SupportedLength(bytes)
  {
    BeValue(bytes[32..64])
  }

  /** The recovery bits to try: both without a v byte, otherwise the one that v gives, with or without the offset 27. */
  function RecoveryCandidates(bytes: seq<Byte>): seq<int>
    requires SupportedLength(bytes)
  {
    if |bytes| == 64 then [0, 1] else [if bytes[64] >= 27 then bytes[64] - 27 else bytes[64]]
  }

  /** The low form of (r, s, v): a high s is reflected and the parity flipped. */
  function LowForm(r: seq<Byte>, s: nat, parity: int): Rsv {
    if s > HALF_N then Rsv(r, N - s, 1 - parity + 27) else Rsv(r, s, parity + 27)
  }

  // ----- What one candidate and then all of them come to

  datatype Attempt = Skipped | Failed(error: Error) | Mismatch | Accepted(sig: Rsv)

  function Try(recover: Recovery, expected: string, r: seq<Byte>, s: nat, candidate: int): Attempt {
    if candidate != 0 && candidate != 1 then Skipped
    else
      var sig := LowForm(r, s, candidate);
      if sig.s < 0 then Failed(NegativeS)
      else
        match recover(sig)
        case None => Failed(RecoveryThrew)
        case Some(signer) => if signer == expected then Accepted(sig) else Mismatch
  }

  function TryAll(recover: Recovery, expected: string, r: seq<Byte>, s: nat, candidates: seq<int>): Result<Rsv, Error> {
    if candidates == [] then Err(UnexpectedSigner)
    else
      match Try(recover, expected, r, s, candidates[0])
      case Failed(error) => Err(error)
      case Accepted(sig) => Ok(sig)
      case _ => TryAll(recover, expected, r, s, candidates[1..])
  }

  /** `expected` is `None` when `getAddress` rejects the expected address. */
  function Normalized(recover: Recovery, expected: Option<string>, bytes: seq<Byte>): Result<Rsv, Error> {
    if !SupportedLength(bytes) then Err(UnsupportedLength(|bytes|))
    else if expected.None? then Err(BadAddress)
    else TryAll(recover, expected.value, bytes[..32], S(bytes), RecoveryCandidates(bytes))
  }

  ghost predicate IsSerialized(result: Result<seq<Byte>, Error>, spec: Result<Rsv, Error>) {
    && (spec.Ok? ==> 0 <= spec.value.s && 0 <= spec.value.v < 256 && result == Ok(Serialized(spec.value)))
    && (spec.Err? ==> result == Err(spec.error))
  }

  method NormalizeSecp256k1Signature(recover: Recovery, expected: Option<string>, bytes: seq<Byte>)
    returns (result: Result<seq<Byte>, Error>)
    ensures IsSerialized(result, Normalized(recover, expected, bytes))
  {
    if |bytes| != 64 && |bytes| != 65 {
      return Err(UnsupportedLength(|bytes|));
    }
    var r, s := bytes[..32], BeValue(bytes[32..64]);
    var recoveryCandidates := RecoveryCandidates(bytes);
    if expected.None? {
      return Err(BadAddress);
    }
    for i := 0 to |recoveryCandidates|
      invariant TryAll(recover, expected.value, r, s, recoveryCandidates)
             == TryAll(recover, expected.value, r, s, recoveryCandidates[i..])
    {
      assert recoveryCandidates[i..][1..] == recoveryCandidates[i + 1..];
      if recoveryCandidates[i] != 0 && recoveryCandidates[i] != 1 {
        continue;
      }
      var v, candidateS: int := recoveryCandidates[i], s;
      if candidateS > HALF_N {
        candidateS := N - candidateS;
        v := 1 - v;
      }
      if candidateS < 0 {
        return Err(NegativeS);
      }
      var signature := Rsv(r, candidateS, v + 27);
      var signer := recover(signature);
      if signer.None? {
        return Err(RecoveryThrew);
      }
      if signer.value == expected.value {
        return Ok(Serialized(signature));
      }
    }
    result := Err(UnexpectedSigner);
  }

  // ----- Reading a signature back

  /** The signature in 65 canonical bytes. */
  function Parsed(bytes: seq<Byte>): Rsv
    requires |bytes| == 65
  {
    Rsv(bytes[..32], S(bytes), bytes[64])
  }

  /** Low s and a recovery byte of 27 or 28. */
  predicate Canonical(sig: Rsv) {
    |sig.r| == 32 && 0 <= sig.s <= HALF_N && (sig.v == 27 || sig.v == 28)
  }

  lemma SerializedParses(sig: Rsv)
    requires Canonical(sig)
    ensures |Serialized(sig)| == 65 && Parsed(Serialized(sig)) == sig
  {
    Pow256Is();
    BeBytesThenValue(sig.s, 32);
    var bytes := Serialized(sig);
    assert bytes[..32] == sig.r;
    assert bytes[32..64] == BeBytes(sig.s, 32);
  }

  lemma {:induction false} TryAllCanonical(
    recover: Recovery, expected: string, r: seq<Byte>, s: nat, candidates: seq<int>)
    requires |r| == 32
    ensures var result := TryAll(recover, expected, r, s, candidates);
      result.Ok? ==>
        && Canonical(result.value) && result.value.r == r && (result.value.s == s || result.value.s == N - s)
        && recover(result.value) == Some(expected)
  {
    if candidates != [] {
      TryAllCanonical(recover, expected, r, s, candidates[1..]);
    }
  }

  /** A normalised signature keeps r, has s at most N / 2, and recovers to the expected address. */
  lemma NormalFormIsLow(recover: Recovery, expected: Option<string>, bytes: seq<Byte>)
    ensures var result := Normalized(recover, expected, bytes);
      result.Ok? ==>
        && Canonical(result.value) && result.value.r == bytes[..32]
        && (result.value.s == S(bytes) || result.value.s == N - S(bytes))
        && recover(result.value) == expected
  {
    if SupportedLength(bytes) && expected.Some? {
      TryAllCanonical(recover, expected.value, bytes[..32], S(bytes), RecoveryCandidates(bytes));
    }
  }

  /** Normalising a normalised signature gives the same bytes again. */
  lemma NormalizingTwiceIsOnce(recover: Recovery, expected: Option<string>, bytes: seq<Byte>)
    requires Normalized(recover, expected, bytes).Ok?
    ensures Canonical(Normalized(recover, expected, bytes).value)
    ensures var sig := Normalized(recover, expected, bytes).value;
            Normalized(recover, expected, Serialized(sig)) == Ok(sig)
  {
    NormalFormIsLow(recover, expected, bytes);
    var sig := Normalized(recover, expected, bytes).value;
    SerializedParses(sig);
    var again := Serialized(sig);
    assert RecoveryCandidates(again) == [sig.v - 27];
    assert LowForm(again[..32], S(again), sig.v - 27) == sig;
  }

  // ----- Twins

  /** The other signature of the same pair: (r, N - s, flipped parity), in the same style of recovery byte. */
  ghost predicate Twins(a: seq<Byte>, b: seq<Byte>) {
    && |a| == 65 && |b| == 65
    && a[..32] == b[..32]
    && S(a) + S(b) == N
    && (a[64] == 0 || a[64] == 1 || a[64] == 27 || a[64] == 28)
    && b[64] == (if a[64] < 27 then 1 - a[64] else 55 - a[64])
  }

  lemma TwinsHaveOneLowForm(r: seq<Byte>, s: nat, parity: int)
    requires s <= N && (parity == 0 || parity == 1)
    ensures LowForm(r, s, parity) == LowForm(r, N - s, 1 - parity)
  {
  }

  /** A signature and its twin normalise to the same bytes, or fail alike. */
  lemma TwinsNormalizeAlike(recover: Recovery, expected: Option<string>, a: seq<Byte>, b: seq<Byte>)
    requires Twins(a, b)
    ensures Normalized(recover, expected, a) == Normalized(recover, expected, b)
  {
    var parity := RecoveryCandidates(a)[0];
    assert RecoveryCandidates(a) == [parity] && RecoveryCandidates(b) == [1 - parity];
    TwinsHaveOneLowForm(a[..32], S(a), parity);
    if expected.Some? {
      OneCandidate(recover, expected.value, a[..32], S(a), parity);
      OneCandidate(recover, expected.value, b[..32], S(b), 1 - parity);
    }
  }

  lemma OneCandidate(recover: Recovery, expected: string, r: seq<Byte>, s: nat, parity: int)
    requires parity == 0 || parity == 1
    ensures TryAll(recover, expected, r, s, [parity]) ==
      var sig := LowForm(r, s, parity);
      if sig.s < 0 then Err(NegativeS)
      else if recover(sig).None? then Err(RecoveryThrew)
      else if recover(sig) == Some(expected) then Ok(sig)
      else Err(UnexpectedSigner)
  {
    assert [parity][1..] == [];
  }

  // ----- Which signatures are accepted

  /** Reflecting s and flipping the parity does not change the signer: a law of the curve. */
  ghost predicate Reflects(recover: Recovery) {
    forall r: seq<Byte>, s: int, v: int ::
      |r| == 32 && 0 < s < N && (v == 27 || v == 28) ==> recover(Rsv(r, s, v)) == recover(Rsv(r, N - s, 55 - v))
  }

  /**
   Where recovery obeys that law, a 65-byte signature with 0 < s < N normalises exactly when it recovers to the
   expected address as it stands: the low form neither admits nor loses a signer.
   */
  lemma NormalizesIffGenuine(recover: Recovery, expected: string, bytes: seq<Byte>)
    requires Reflects(recover) && |bytes| == 65 && 0 < S(bytes) < N
    ensures Normalized(recover, Some(expected), bytes).Ok?
            <==> var v := if bytes[64] < 27 then bytes[64] + 27 else bytes[64];
                 (v == 27 || v == 28) && recover(Rsv(bytes[..32], S(bytes), v)) == Some(expected)
  {
    var parity := RecoveryCandidates(bytes)[0];
    assert RecoveryCandidates(bytes) == [parity];
    var r, s, v := bytes[..32], S(bytes), if bytes[64] < 27 then bytes[64] + 27 else bytes[64];
    if parity == 0 || parity == 1 {
      OneCandidate(recover, expected, r, s, parity);
      assert v == parity + 27;
      assert recover(Rsv(r, s, v)) == recover(Rsv(r, N - s, 55 - v));
      assert LowForm(r, s, parity) == if s > HALF_N then Rsv(r, N - s, 55 - v) else Rsv(r, s, v);
      assert recover(LowForm(r, s, parity)) == recover(Rsv(r, s, v));
    } else {
      assert [parity][1..] == [];
      assert Try(recover, expected, r, s, parity) == Skipped;
      assert TryAll(recover, expected, r, s, [parity]) == TryAll(recover, expected, r, s, []);
    }
  }

  /** Without a recovery byte, two parities are tried: the outcome when recovery gives two different signers. */
  lemma CompactTwinsNormalizeAlike(recover: Recovery, expected: string, a: seq<Byte>, b: seq<Byte>)
    requires |a| == 64 && |b| == 64 && a[..32] == b[..32] && S(a) + S(b) == N
    requires var even, odd := LowForm(a[..32], S(a), 0), LowForm(a[..32], S(a), 1);
             recover(even).Some? && recover(odd).Some? && recover(even) != recover(odd)
    ensures Normalized(recover, Some(expected), a) == Normalized(recover, Some(expected), b)
    ensures Normalized(recover, Some(expected), a).Ok?
            <==>
              || recover(LowForm(a[..32], S(a), 0)) == Some(expected)
              || recover(LowForm(a[..32], S(a), 1)) == Some(expected)
  {
    var r := a[..32];
    TwinsHaveOneLowForm(r, S(a), 0);
    TwinsHaveOneLowForm(r, S(a), 1);
    assert [0, 1][1..] == [1] && [1][1..] == [];
    TwoCandidates(recover, expected, r, S(a));
    TwoCandidates(recover, expected, r, S(b));
  }

  lemma TwoCandidates(recover: Recovery, expected: string, r: seq<Byte>, s: nat)
    requires s <= N && recover(LowForm(r, s, 0)).Some? && recover(LowForm(r, s, 1)).Some?
    ensures TryAll(recover, expected, r, s, [0, 1]) ==
      if recover(LowForm(r, s, 0)) == Some(expected) then Ok(LowForm(r, s, 0))
      else if recover(LowForm(r, s, 1)) == Some(expected) then Ok(LowForm(r, s, 1))
      else Err(UnexpectedSigner)
  {
    assert [0, 1][1..] == [1];
    OneCandidate(recover, expected, r, s, 1);
  }

  // ----- Every way to fail

  /** The order of the curve, written as its distance from 2^256, and its half, rounded down. */
  lemma CurveOrder()
    ensures N == Pow256(32) - 0x1_4551231950b75fc4_402da1732fc9bebf
    ensures 2 * HALF_N + 1 == N
  {
    Pow256Is();
  }

  /** s is read from bytes 32 to 63, the first of them weighing most. */
  lemma SIsBigEndian(bytes: seq<Byte>, k: nat)
    requires SupportedLength(bytes) && 32 <= k < 64
    ensures S(bytes) == BeValue(bytes[32..k]) * Pow256(64 - k) + BeValue(bytes[k..64])
  {
    assert bytes[32..64] == bytes[32..k] + bytes[k..64];
    BeValueConcat(bytes[32..k], bytes[k..64]);
  }

  /** What the low form of a signature with this recovery parity is. */
  ghost predicate IsLow(sig: Rsv, r: seq<Byte>, s: nat, parity: int) {
    && sig.r == r
    && (2 * s < N ==> sig.s == s && sig.v == 27 + parity)
    && (2 * s > N ==> sig.s == N - s && sig.v == 28 - parity)
  }

  lemma LowFormIs(r: seq<Byte>, s: nat, parity: int)
    ensures IsLow(LowForm(r, s, parity), r, s, parity)
  {
  }

  /**
   Exactly what a 65-byte signature comes to, and why it fails if it does: its last byte must be 0, 1, 27 or 28, s must
   not exceed the order, recovery must not throw, and it must give the expected signer.
   */
  lemma Outcome65(recover: Recovery, expected: string, bytes: seq<Byte>)
    requires |bytes| == 65
    ensures var result := Normalized(recover, Some(expected), bytes);
            var v := bytes[64];
            var sig := LowForm(bytes[..32], S(bytes), if v >= 27 then v - 27 else v);
      if v != 0 && v != 1 && v != 27 && v != 28 then result == Err(UnexpectedSigner)
      else if S(bytes) > N then result == Err(NegativeS)
      else if recover(sig).None? then result == Err(RecoveryThrew)
      else if recover(sig) != Some(expected) then result == Err(UnexpectedSigner)
      else result == Ok(sig)
  {
    var parity := RecoveryCandidates(bytes)[0];
    assert RecoveryCandidates(bytes) == [parity];
    if parity == 0 || parity == 1 {
      OneCandidate(recover, expected, bytes[..32], S(bytes), parity);
    } else {
      assert [parity][1..] == [];
      assert Try(recover, expected, bytes[..32], S(bytes), parity) == Skipped;
      assert TryAll(recover, expected, bytes[..32], S(bytes), [parity])
          == TryAll(recover, expected, bytes[..32], S(bytes), []);
    }
  }

  /**
   And a 64-byte one: the even parity is tried first; if recovery throws there, the odd one is not tried at all, and if
   it gives another signer, the odd one decides.
   */
  lemma Outcome64(recover: Recovery, expected: string, bytes: seq<Byte>)
    requires |bytes| == 64
    ensures var result := Normalized(recover, Some(expected), bytes);
            var even, odd := LowForm(bytes[..32], S(bytes), 0), LowForm(bytes[..32], S(bytes), 1);
      if S(bytes) > N then result == Err(NegativeS)
      else if recover(even).None? then result == Err(RecoveryThrew)
      else if recover(even) == Some(expected) then result == Ok(even)
      else if recover(odd).None? then result == Err(RecoveryThrew)
      else if recover(odd) == Some(expected) then result == Ok(odd)
      else result == Err(UnexpectedSigner)
  {
    assert [0, 1][1..] == [1];
    OneCandidate(recover, expected, bytes[..32], S(bytes), 1);
  }

  /** Before any recovery: other lengths are refused, then an invalid expected address. */
  lemma RefusedBeforehand(recover: Recovery, expected: Option<string>, bytes: seq<Byte>)
    ensures |bytes| != 64 && |bytes| != 65 ==>
      Normalized(recover, expected, bytes) == Err(UnsupportedLength(|bytes|))
    ensures (|bytes| == 64 || |bytes| == 65) && expected.None? ==>
      Normalized(recover, expected, bytes) == Err(BadAddress)
  {
  }
}
