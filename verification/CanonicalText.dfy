/**
 What the two canonical texts tell: a value exactly up to the order of its object keys, as long as the comparator
 separates the keys; and only as long as it does.
 */
module CanonicalText {
  import opened StableSort
  import opened JsonText
  import opened C = CanonicalJson

  // ----- Equal texts

  lemma TextTellsSortedCopies(le: (Text, Text) -> bool, a: Json, b: Json)
    ensures C.CanonicalJson(le, a) == C.CanonicalJson(le, b) <==> SortJson(le, a) == SortJson(le, b)
  {
    SortJsonIsPlain(le, a);
    SortJsonIsPlain(le, b);
    PrintThenParse(SortJson(le, a));
    PrintThenParse(SortJson(le, b));
  }

  /**
   Canonical text identifies a value up to key order (and up to writing a bigint as a string), as long as the
   comparator can tell its keys apart.
   */
  lemma CanonicalTextUnambiguous(le: (Text, Text) -> bool, a: Json, b: Json)
    requires TotalPreorder(le) && Untied(le, a)
    requires WellFormed(a) && WellFormed(b)
    ensures C.CanonicalJson(le, a) == C.CanonicalJson(le, b) <==> Same(a, b)
  {
    TextTellsSortedCopies(le, a, b);
    if C.CanonicalJson(le, a) == C.CanonicalJson(le, b) {
      SortsAlikeMeansSame(le, a, b);
    }
    if Same(a, b) {
      SameSortsAlike(le, a, b);
    }
  }

  /** Two policies have the same text exactly when they are the same policy. */
  lemma PolicyTextUnambiguous(a: Json, b: Json)
    requires Plain(a) && Plain(b) && WellFormed(a) && WellFormed(b)
    ensures StableJson(a) == StableJson(b) <==> Same(a, b)
  {
    StableIsPrintOfSorted(a);
    StableIsPrintOfSorted(b);
    UnitLeIsTotalOrder();
    NeverTied(a);
    CanonicalTextUnambiguous(UnitLe, a, b);
  }

  // ----- Exactly when key order is ignored

  lemma {:induction false} SameReflexive(v: Json)
    requires WellFormed(v)
    ensures Same(v, v)
    decreases v
  {
    match v
    case Arr(items) => forall i | 0 <= i < |items| ensures Same(items[i], items[i]) { SameReflexive(items[i]); }
    case Obj(members) =>
      forall m, m' | m in members && m' in members && m.key == m'.key ensures Same(m.value, m'.value) {
        SameKeySameMember(members, m, m');
        SameReflexive(m.value);
      }
    case _ =>
  }

  lemma {:induction false} KeySeqReverse(members: seq<Member>)
    ensures KeySeq(Reverse(members)) == Reverse(KeySeq(members))
    ensures forall m :: m in Reverse(members) <==> m in members
  {
    var r := Reverse(members);
    forall m ensures m in r <==> m in members {
      if m in members {
        var i :| 0 <= i < |members| && members[i] == m;
        assert r[|members| - 1 - i] == m;
      }
    }
  }

  lemma ReversedIsSame(v: Json)
    requires WellFormed(v) && v.Obj?
    ensures WellFormed(Obj(Reverse(v.members))) && Same(v, Obj(Reverse(v.members)))
  {
    KeySeqReverse(v.members);
    var w := Obj(Reverse(v.members));
    forall m, m' | m in v.members && m' in w.members && m.key == m'.key ensures Same(m.value, m'.value) {
      SameKeySameMember(v.members, m, m');
      SameReflexive(m.value);
    }
  }

  lemma TiedPair(le: (Text, Text) -> bool, keys: seq<Text>) returns (i: nat, j: nat)
    requires !NoTies(le, keys)
    ensures i < j < |keys| && le(keys[i], keys[j]) && le(keys[j], keys[i])
  {
    var p, q :| 0 <= p < |keys| && 0 <= q < |keys| && le(keys[p], keys[q]) && le(keys[q], keys[p])
        && keys[p] != keys[q];
    i, j := if p < q then p else q, if p < q then q else p;
  }

  /** An object with tied keys, listed backwards, is the same object with another sorted copy. */
  lemma TiedObject(le: (Text, Text) -> bool, v: Json)
    requires TotalPreorder(le) && WellFormed(v) && v.Obj? && !NoTies(le, KeySeq(v.members))
    ensures SortJson(le, v) != SortJson(le, Obj(Reverse(v.members)))
  {
    var w := Obj(Reverse(v.members));
    KeySeqDistinct(v.members);
    KeySeqReverse(v.members);
    var i, j := TiedPair(le, KeySeq(v.members));
    TiesDependOnOrder(le, KeySeq(v.members), i, j);
    if SortJson(le, v) == SortJson(le, w) {
      CopyKeys(le, v);
      CopyKeys(le, w);
    }
  }

  /** A tie at any depth makes the canonical form depend on key order. */
  lemma {:induction false} TiedValue(le: (Text, Text) -> bool, v: Json) returns (w: Json)
    requires TotalPreorder(le) && WellFormed(v) && !Untied(le, v)
    ensures WellFormed(w) && Same(v, w) && SortJson(le, v) != SortJson(le, w)
    decreases v
  {
    match v
    case Arr(items) =>
      var i :| 0 <= i < |items| && !Untied(le, items[i]);
      var x := TiedValue(le, items[i]);
      ReplacedItemIsSame(v, i, x);
      assert SortItems(le, v.items)[i] != SortItems(le, v.items[i := x])[i];
      w := Arr(items[i := x]);
    case Obj(members) =>
      if !NoTies(le, KeySeq(members)) {
        TiedObject(le, v);
        ReversedIsSame(v);
        w := Obj(Reverse(members));
      } else {
        var i :| 0 <= i < |members| && !Untied(le, members[i].value);
        var x := TiedValue(le, members[i].value);
        ReplacedMemberIsSame(v, i, x);
        ReplacedMemberShows(le, v, i, x);
        w := Obj(members[i := Member(members[i].key, x)]);
      }
    case _ => assert false;
  }

  lemma ReplacedItemIsSame(v: Json, i: nat, x: Json)
    requires WellFormed(v) && v.Arr? && i < |v.items| && WellFormed(x) && Same(v.items[i], x)
    ensures WellFormed(Arr(v.items[i := x])) && Same(v, Arr(v.items[i := x]))
  {
    forall n | 0 <= n < |v.items| ensures Same(v.items[n], v.items[i := x][n]) {
      if n != i { SameReflexive(v.items[n]); }
    }
  }

  lemma ReplacedMemberIsSame(v: Json, i: nat, x: Json)
    requires WellFormed(v) && v.Obj? && i < |v.members| && WellFormed(x) && Same(v.members[i].value, x)
    ensures var w := Obj(v.members[i := Member(v.members[i].key, x)]); WellFormed(w) && Same(v, w)
  {
    var ms := v.members;
    var ms' := ms[i := Member(ms[i].key, x)];
    assert forall n | 0 <= n < |ms| :: ms'[n].key == ms[n].key;
    SameKeySeqSameKeys(ms, ms');
    forall a, b | a in ms && b in ms' && a.key == b.key ensures Same(a.value, b.value) {
      var n :| 0 <= n < |ms| && ms[n] == a;
      assert ms'[n] in ms';
      SameKeySameMember(ms', ms'[n], b);
      if n != i { SameReflexive(a.value); }
    }
  }

  lemma SameKeySeqSameKeys(ms: seq<Member>, ms': seq<Member>)
    requires |ms| == |ms'| && forall n | 0 <= n < |ms| :: ms'[n].key == ms[n].key
    ensures Keys(ms) == Keys(ms')
  {
    forall k ensures k in Keys(ms) <==> k in Keys(ms') {
      if k in Keys(ms) { var n :| 0 <= n < |ms| && ms[n].key == k; assert ms'[n] in ms'; }
      if k in Keys(ms') { var n :| 0 <= n < |ms'| && ms'[n].key == k; assert ms[n] in ms; }
    }
  }

  lemma ReplacedMemberShows(le: (Text, Text) -> bool, v: Json, i: nat, x: Json)
    requires v.Obj? && DistinctKeys(v.members) && i < |v.members|
    requires SortJson(le, v.members[i].value) != SortJson(le, x)
    ensures SortJson(le, v) != SortJson(le, Obj(v.members[i := Member(v.members[i].key, x)]))
  {
    var w := Obj(v.members[i := Member(v.members[i].key, x)]);
    assert v.members[i] in v.members && w.members[i] in w.members;
    if SortJson(le, v) == SortJson(le, w) {
      SortsAlikeMembers(le, w, v, w.members[i], v.members[i]);
    }
  }

  /** Signing text ignores key order exactly when `localeCompare` separates the keys of every object. */
  lemma CanonicalTextIgnoresKeyOrderIff(le: (Text, Text) -> bool, a: Json)
    requires TotalPreorder(le) && WellFormed(a)
    ensures Untied(le, a)
            <==> forall b | WellFormed(b) && Same(a, b) :: C.CanonicalJson(le, b) == C.CanonicalJson(le, a)
  {
    if Untied(le, a) {
      forall b | WellFormed(b) && Same(a, b) ensures C.CanonicalJson(le, b) == C.CanonicalJson(le, a) {
        CanonicalTextUnambiguous(le, a, b);
      }
    } else {
      var b := TiedValue(le, a);
      TextTellsSortedCopies(le, a, b);
    }
  }

  // ----- Which order, and what becomes of bigints

  predicate FirstDifference(a: Text, b: Text, i: int) {
    0 <= i < |a| && i < |b| && a[i] != b[i] && a[..i] == b[..i]
  }

  /** `a` begins `b`, or has the smaller unit where they first differ. */
  ghost predicate Precedes(a: Text, b: Text) {
    a <= b || exists i :: FirstDifference(a, b, i) && a[i] < b[i]
  }

  lemma DifferenceShifts(c: CodeUnit, a: Text, b: Text, i: nat)
    ensures FirstDifference([c] + a, [c] + b, i + 1) <==> FirstDifference(a, b, i)
  {
    if i < |a| && i < |b| {
      assert ([c] + a)[..i + 1] == [c] + a[..i] && ([c] + b)[..i + 1] == [c] + b[..i];
      SameTails(c, a[..i], b[..i]);
    }
  }

  lemma SameTails(c: CodeUnit, a: Text, b: Text)
    ensures [c] + a == [c] + b <==> a == b
    ensures [c] + a <= [c] + b <==> a <= b
  {
    assert ([c] + a)[1..] == a && ([c] + b)[1..] == b;
    if [c] + a <= [c] + b {
      assert a == ([c] + a)[1..] == ([c] + b)[..|a| + 1][1..] == b[..|a|];
    }
  }

  lemma PrecedesShifts(c: CodeUnit, a: Text, b: Text)
    ensures Precedes([c] + a, [c] + b) <==> Precedes(a, b)
  {
    SameTails(c, a, b);
    if i :| FirstDifference(a, b, i) && a[i] < b[i] {
      DifferenceShifts(c, a, b, i);
      assert FirstDifference([c] + a, [c] + b, i + 1);
    }
    if i :| FirstDifference([c] + a, [c] + b, i) && ([c] + a)[i] < ([c] + b)[i] {
      DifferenceShifts(c, a, b, i - 1);
      assert FirstDifference(a, b, i - 1);
    }
  }

  /** Keys of policy texts stand in UTF-16 code unit order: at the first difference the smaller unit comes first. */
  lemma {:induction false} UnitOrderIs(a: Text, b: Text)
    ensures UnitLe(a, b) <==> Precedes(a, b)
  {
    if a != [] && b != [] {
      if a[0] == b[0] {
        UnitOrderIs(a[1..], b[1..]);
        assert a == [a[0]] + a[1..] && b == [a[0]] + b[1..];
        PrecedesShifts(a[0], a[1..], b[1..]);
      } else {
        assert FirstDifference(a, b, 0);
        OnlyFirst(a, b);
      }
    }
  }

  lemma OnlyFirst(a: Text, b: Text)
    requires a != [] && b != [] && a[0] != b[0]
    ensures Precedes(a, b) <==> a[0] < b[0]
  {
    assert FirstDifference(a, b, 0);
    assert !(a <= b);
    forall i | 0 < i < |a| && i < |b| ensures a[..i] != b[..i] {
      assert a[..i][0] == a[0] && b[..i][0] == b[0];
    }
  }

  /** The keys of every object in a sorted copy stand in the order of the comparator. */
  lemma CopiesAreOrdered(le: (Text, Text) -> bool, v: Json, i: nat, j: nat)
    requires TotalPreorder(le) && v.Obj? && i < j < |SortJson(le, v).members|
    ensures le(SortJson(le, v).members[i].key, SortJson(le, v).members[j].key)
  {
    CopyIsInOrder(le, v);
    assert KeyLe(le)(SortJson(le, v).members[i], SortJson(le, v).members[j]);
  }

  /** A bigint is signed as the string of its decimal digits, so different ones are signed differently. */
  lemma BigintsStayApart(le: (Text, Text) -> bool, i: int, j: int)
    ensures C.CanonicalJson(le, Big(i)) == C.CanonicalJson(le, Str(ShowInt(i)))
    ensures C.CanonicalJson(le, Big(i)) == C.CanonicalJson(le, Big(j)) <==> i == j
  {
    TextTellsSortedCopies(le, Big(i), Big(j));
    NumberRoundTrip(i, []);
    NumberRoundTrip(j, []);
    assert ShowInt(i) + [] == ShowInt(i) && ShowInt(j) + [] == ShowInt(j);
  }

  /** Sorting touches nothing but objects and bigints, so among plain leaves only equal ones are the same. */
  lemma LeavesStay(le: (Text, Text) -> bool, a: Json, b: Json)
    requires !a.Arr? && !a.Obj? && !a.Big? && Plain(b)
    ensures SortJson(le, a) == a
    ensures Same(a, b) <==> a == b
  {
  }
}
