/**
 The two canonical forms that feed hashes and signatures: `stableJson` (keys in UTF-16 code unit order,
 printed while recursing) and `canonicalJson` (`JSON.stringify` of a recursively key-sorted copy, keys in
 `localeCompare` order), and how sorted copies tell their values apart.
 */
module CanonicalJson {
  import opened StableSort
  import opened JsonText

  // ----- Values up to key order

  ghost predicate DistinctKeys(members: seq<Member>) {
    forall i, j :: 0 <= i < j < |members| ==> members[i].key != members[j].key
  }

  /** A JavaScript value: no object has the same key twice. */
  ghost predicate WellFormed(v: Json) {
    match v
    case Arr(items) => forall x | x in items :: WellFormed(x)
    case Obj(members) => DistinctKeys(members) && forall m | m in members :: WellFormed(m.value)
    case _ => true
  }

  /** `sortJson` replaces a bigint by its decimal string; every other leaf stays. */
  function Leaf(v: Json): Json {
    if v.Big? then Str(ShowInt(v.i)) else v
  }

  function Keys(members: seq<Member>): set<Text> {
    set m | m in members :: m.key
  }

  /**
   Equal up to the order of object keys, at every depth.  A bigint counts as the string of its decimal digits, which
   is what `sortJson` makes of it; among plain values there is none.
   */
  ghost predicate Same(a: Json, b: Json)
    decreases a
  {
    match a
    case Arr(items) =>
      b.Arr? && |items| == |b.items| && forall i | 0 <= i < |items| :: Same(items[i], b.items[i])
    case Obj(members) =>
      && b.Obj?
      && Keys(members) == Keys(b.members)
      && forall m, m' | m in members && m' in b.members && m.key == m'.key :: Same(m.value, m'.value)
    case _ => Leaf(a) == Leaf(b)
  }

  // ----- sortJson and canonicalJson

  function KeyLe(le: (Text, Text) -> bool): (Member, Member) -> bool {
    (a: Member, b: Member) => le(a.key, b.key)
  }

  function SortJson(le: (Text, Text) -> bool, v: Json): Json
    decreases v, 2, 0
  {
    match v
    case Arr(items) => Arr(SortItems(le, items))
    case Obj(members) =>
      SortPermutes(KeyLe(le), members);
      Obj(SortValues(le, v, Sort(KeyLe(le), members)))
    case _ => Leaf(v)
  }

  function SortItems(le: (Text, Text) -> bool, items: seq<Json>): (r: seq<Json>)
    ensures |r| == |items|
    ensures forall i | 0 <= i < |r| :: r[i] == SortJson(le, items[i])
    decreases items, 0, 0
  {
    if items == [] then [] else [SortJson(le, items[0])] + SortItems(le, items[1..])
  }

  function SortValues(le: (Text, Text) -> bool, ghost parent: Json, members: seq<Member>): (r: seq<Member>)
    requires parent.Obj? && forall m | m in members :: m in parent.members
    ensures |r| == |members|
    ensures forall i | 0 <= i < |r| ::
        members[i].value < parent && r[i] == Member(members[i].key, SortJson(le, members[i].value))
    decreases parent, 1, |members|
  {
    if members == [] then []
    else
      var m := members[0];
      assert m in parent.members;
      [Member(m.key, SortJson(le, m.value))] + SortValues(le, parent, members[1..])
  }

  /** `JSON.stringify(sortJson(value))`; `le` is the order of `localeCompare`. */
  function CanonicalJson(le: (Text, Text) -> bool, v: Json): Text {
    SortJsonIsPlain(le, v);
    Print(SortJson(le, v))
  }

  lemma {:induction false} SortJsonIsPlain(le: (Text, Text) -> bool, v: Json)
    ensures Plain(SortJson(le, v))
    decreases v
  {
    match v
    case Arr(items) =>
      forall x | x in SortItems(le, items) ensures Plain(x) {
        var i :| 0 <= i < |items| && SortItems(le, items)[i] == x;
        SortJsonIsPlain(le, items[i]);
      }
    case Obj(members) =>
      var copy := SortJson(le, v).members;
      forall m | m in copy ensures Plain(m.value) {
        var i :| 0 <= i < |copy| && copy[i] == m;
        var original := CopiedFrom(le, v, i);
        SortJsonIsPlain(le, original.value);
      }
    case _ =>
  }

  // ----- Sorting members is sorting their keys

  function KeySeq(members: seq<Member>): (keys: seq<Text>)
    ensures |keys| == |members|
    ensures forall i | 0 <= i < |keys| :: keys[i] == members[i].key
  {
    if members == [] then [] else [members[0].key] + KeySeq(members[1..])
  }

  lemma {:induction false} InsertKeys(le: (Text, Text) -> bool, m: Member, members: seq<Member>)
    ensures KeySeq(Insert(KeyLe(le), m, members)) == Insert(le, m.key, KeySeq(members))
  {
    if members != [] {
      assert KeySeq(members)[1..] == KeySeq(members[1..]);
      InsertKeys(le, m, members[1..]);
    }
  }

  lemma {:induction false} SortKeys(le: (Text, Text) -> bool, members: seq<Member>)
    ensures KeySeq(Sort(KeyLe(le), members)) == Sort(le, KeySeq(members))
  {
    if members != [] {
      assert KeySeq(members)[1..] == KeySeq(members[1..]);
      SortKeys(le, members[1..]);
      InsertKeys(le, members[0], Sort(KeyLe(le), members[1..]));
    }
  }

  // ----- What the sorted copy of an object holds

  /** Every member of the sorted copy is the sorted copy of a member. */
  lemma CopiedFrom(le: (Text, Text) -> bool, v: Json, i: nat) returns (m: Member)
    requires v.Obj? && i < |SortJson(le, v).members|
    ensures m in v.members && m.value < v
    ensures SortJson(le, v).members[i] == Member(m.key, SortJson(le, m.value))
  {
    SortPermutes(KeyLe(le), v.members);
    var sorted := Sort(KeyLe(le), v.members);
    m := sorted[i];
    assert m in sorted;
  }

  /** Every member has its sorted copy there. */
  lemma CopiedTo(le: (Text, Text) -> bool, v: Json, m: Member) returns (i: nat)
    requires v.Obj? && m in v.members
    ensures i < |SortJson(le, v).members|
    ensures SortJson(le, v).members[i] == Member(m.key, SortJson(le, m.value))
  {
    SortPermutes(KeyLe(le), v.members);
    var sorted := Sort(KeyLe(le), v.members);
    i :| 0 <= i < |sorted| && sorted[i] == m;
  }

  /** The keys of the sorted copy are the sorted keys. */
  lemma CopyKeys(le: (Text, Text) -> bool, v: Json)
    requires v.Obj?
    ensures KeySeq(SortJson(le, v).members) == Sort(le, KeySeq(v.members))
  {
    SortPermutes(KeyLe(le), v.members);
    SortKeys(le, v.members);
    var sorted, copy := Sort(KeyLe(le), v.members), SortJson(le, v).members;
    assert forall i | 0 <= i < |sorted| :: KeySeq(copy)[i] == copy[i].key == sorted[i].key == KeySeq(sorted)[i];
  }

  /** No object of `v` has two keys that the comparator cannot tell apart. */
  ghost predicate Untied(le: (Text, Text) -> bool, v: Json) {
    match v
    case Arr(items) => forall x | x in items :: Untied(le, x)
    case Obj(members) => NoTies(le, KeySeq(members)) && forall m | m in members :: Untied(le, m.value)
    case _ => true
  }

  lemma KeySeqDistinct(members: seq<Member>)
    requires DistinctKeys(members)
    ensures Distinct(KeySeq(members))
    ensures forall k :: k in KeySeq(members) <==> k in Keys(members)
  {
    var ks := KeySeq(members);
    forall k ensures k in ks <==> k in Keys(members) {
      if k in ks {
        var i :| 0 <= i < |ks| && ks[i] == k;
        assert members[i] in members;
      }
      if k in Keys(members) {
        var m :| m in members && m.key == k;
        var i :| 0 <= i < |members| && members[i] == m;
        assert ks[i] == k;
      }
    }
  }

  lemma SameKeysPermute(a: seq<Member>, b: seq<Member>)
    requires DistinctKeys(a) && DistinctKeys(b) && Keys(a) == Keys(b)
    ensures multiset(KeySeq(a)) == multiset(KeySeq(b))
    ensures |a| == |b|
  {
    KeySeqDistinct(a);
    KeySeqDistinct(b);
    DistinctSameSet(KeySeq(a), KeySeq(b));
    assert |multiset(KeySeq(a))| == |a| && |multiset(KeySeq(b))| == |b|;
  }

  lemma SameKeysSortAlike(le: (Text, Text) -> bool, a: seq<Member>, b: seq<Member>)
    requires TotalPreorder(le) && NoTies(le, KeySeq(a))
    requires DistinctKeys(a) && DistinctKeys(b) && Keys(a) == Keys(b)
    ensures Sort(le, KeySeq(a)) == Sort(le, KeySeq(b))
    ensures |a| == |b|
  {
    SameKeysPermute(a, b);
    SortIsCanonical(le, KeySeq(a), KeySeq(b));
  }

  // ----- sortJson is a canonical form

  /** Where the sorted keys agree, the i-th members of the copies come from members with the same key. */
  lemma SameKeyOriginals(le: (Text, Text) -> bool, a: Json, b: Json, i: nat) returns (m: Member, other: Member)
    requires a.Obj? && b.Obj? && KeySeq(SortJson(le, a).members) == KeySeq(SortJson(le, b).members)
    requires i < |SortJson(le, a).members|
    ensures m in a.members && other in b.members && m.key == other.key && m.value < a && other.value < b
    ensures SortJson(le, a).members[i] == Member(m.key, SortJson(le, m.value))
    ensures i < |SortJson(le, b).members| && SortJson(le, b).members[i] == Member(other.key, SortJson(le, other.value))
  {
    assert |KeySeq(SortJson(le, a).members)| == |KeySeq(SortJson(le, b).members)|;
    m := CopiedFrom(le, a, i);
    other := CopiedFrom(le, b, i);
    assert KeySeq(SortJson(le, a).members)[i] == KeySeq(SortJson(le, b).members)[i];
  }

  /** Values that differ only in key order have the same sorted copy. */
  lemma {:induction false} SameSortsAlike(le: (Text, Text) -> bool, a: Json, b: Json)
    requires TotalPreorder(le) && Untied(le, a)
    requires WellFormed(a) && WellFormed(b) && Same(a, b)
    ensures SortJson(le, a) == SortJson(le, b)
    decreases a
  {
    match a
    case Arr(items) =>
      forall i | 0 <= i < |items| ensures SortJson(le, items[i]) == SortJson(le, b.items[i]) {
        assert items[i] in items && b.items[i] in b.items;
        SameSortsAlike(le, items[i], b.items[i]);
      }
      assert SortItems(le, items) == SortItems(le, b.items);
    case Obj(members) =>
      SameKeysSortAlike(le, members, b.members);
      CopyKeys(le, a);
      CopyKeys(le, b);
      var ra, rb := SortJson(le, a).members, SortJson(le, b).members;
      assert |ra| == |KeySeq(ra)| == |KeySeq(rb)| == |rb|;
      forall i | 0 <= i < |ra| ensures ra[i] == rb[i] {
        var m, other := SameKeyOriginals(le, a, b, i);
        SameSortsAlike(le, m.value, other.value);
      }
      assert ra == rb;
    case _ =>
  }

  lemma SortsAlikeMembers(le: (Text, Text) -> bool, a: Json, b: Json, m: Member, m': Member)
    requires a.Obj? && b.Obj? && DistinctKeys(b.members) && SortJson(le, a) == SortJson(le, b)
    requires m in a.members && m' in b.members && m.key == m'.key
    ensures SortJson(le, m.value) == SortJson(le, m'.value)
  {
    var i := CopiedTo(le, a, m);
    var x := CopiedFrom(le, b, i);
    SameKeySameMember(b.members, x, m');
  }

  /** The sorted copy loses nothing but key order. */
  lemma {:induction false} SortsAlikeMeansSame(le: (Text, Text) -> bool, a: Json, b: Json)
    requires WellFormed(a) && WellFormed(b)
    requires SortJson(le, a) == SortJson(le, b)
    ensures Same(a, b)
    decreases a
  {
    match a
    case Arr(items) =>
      assert b.Arr?;
      forall i | 0 <= i < |items| ensures Same(items[i], b.items[i]) {
        assert SortItems(le, items)[i] == SortItems(le, b.items)[i];
        assert items[i] in items && b.items[i] in b.items;
        SortsAlikeMeansSame(le, items[i], b.items[i]);
      }
    case Obj(members) =>
      assert b.Obj?;
      forall m, m' | m in members && m' in b.members && m.key == m'.key ensures Same(m.value, m'.value) {
        SortsAlikeMembers(le, a, b, m, m');
        SortsAlikeMeansSame(le, m.value, m'.value);
      }
      SortedKeys(le, a);
      SortedKeys(le, b);
    case _ =>
  }

  lemma SameKeySameMember(members: seq<Member>, m: Member, m': Member)
    requires DistinctKeys(members) && m in members && m' in members && m.key == m'.key
    ensures m == m'
  {
    var i :| 0 <= i < |members| && members[i] == m;
    var j :| 0 <= j < |members| && members[j] == m';
    if i < j || j < i {
      assert members[i].key == members[j].key;
    }
  }

  lemma SortedKeys(le: (Text, Text) -> bool, v: Json)
    requires v.Obj?
    ensures Keys(SortJson(le, v).members) == Keys(v.members)
  {
    var r := SortJson(le, v).members;
    forall k ensures k in Keys(r) <==> k in Keys(v.members) {
      if k in Keys(r) {
        var i :| 0 <= i < |r| && r[i].key == k;
        var m := CopiedFrom(le, v, i);
      }
      if k in Keys(v.members) {
        var m :| m in v.members && m.key == k;
        var i := CopiedTo(le, v, m);
        assert r[i] in r;
      }
    }
  }

  lemma CopyIsInOrder(le: (Text, Text) -> bool, v: Json)
    requires TotalPreorder(le) && v.Obj?
    ensures Sorted(KeyLe(le), SortJson(le, v).members)
  {
    var r := SortJson(le, v).members;
    CopyKeys(le, v);
    SortSorts(le, KeySeq(v.members));
    forall i, j | 0 <= i < j < |r| ensures KeyLe(le)(r[i], r[j]) {
      assert le(KeySeq(r)[i], KeySeq(r)[j]);
    }
  }

  /** Sorting a sorted copy again changes nothing, whatever order `localeCompare` is. */
  lemma {:induction false} SortJsonIdempotent(le: (Text, Text) -> bool, v: Json)
    requires TotalPreorder(le)
    ensures SortJson(le, SortJson(le, v)) == SortJson(le, v)
    decreases v
  {
    match v
    case Arr(items) =>
      var r := SortItems(le, items);
      forall i | 0 <= i < |items| ensures SortJson(le, r[i]) == r[i] {
        SortJsonIdempotent(le, items[i]);
      }
      assert SortItems(le, r) == r;
    case Obj(members) =>
      var w := SortJson(le, v);
      CopyIsInOrder(le, v);
      SortedIsFixed(KeyLe(le), w.members);
      forall i | 0 <= i < |w.members| ensures SortJson(le, w.members[i].value) == w.members[i].value {
        var m := CopiedFrom(le, v, i);
        SortJsonIdempotent(le, m.value);
      }
      assert SortJson(le, w).members == w.members;
    case _ =>
  }

  // ----- stableJson

  /** The order of `Array.prototype.sort` on strings: UTF-16 code unit by code unit. */
  predicate UnitLe(a: Text, b: Text) {
    a == [] || (b != [] && (a[0] < b[0] || (a[0] == b[0] && UnitLe(a[1..], b[1..]))))
  }

  function StableJson(v: Json): Text
    requires Plain(v)
    decreases v, 2, 0
  {
    match v
    case Arr(items) =>
      [OPEN_BRACKET]
      + (if items == [] then [] else StableJson(items[0]) + StableMoreItems(items[1..]))
      + [CLOSE_BRACKET]
    case Obj(members) =>
      SortPermutes(KeyLe(UnitLe), members);
      var sorted := Sort(KeyLe(UnitLe), members);
      [OPEN_BRACE]
      + (if sorted == [] then [] else StableMember(v, sorted[0]) + StableMoreMembers(v, sorted[1..]))
      + [CLOSE_BRACE]
    case _ => Print(v)
  }

  function StableMember(ghost parent: Json, m: Member): Text
    requires Plain(parent) && parent.Obj? && m in parent.members
    decreases parent, 0
  {
    Quote(m.key) + [COLON] + StableJson(m.value)
  }

  function StableMoreItems(items: seq<Json>): Text
    requires forall x | x in items :: Plain(x)
    decreases items, 0, 0
  {
    if items == [] then [] else [COMMA] + StableJson(items[0]) + StableMoreItems(items[1..])
  }

  function StableMoreMembers(ghost parent: Json, members: seq<Member>): Text
    requires Plain(parent) && parent.Obj? && forall m | m in members :: m in parent.members
    decreases parent, 1, |members|
  {
    if members == [] then [] else [COMMA] + StableMember(parent, members[0]) + StableMoreMembers(parent, members[1..])
  }

  lemma {:induction false} UnitLeTotal(a: Text, b: Text)
    ensures UnitLe(a, b) || UnitLe(b, a)
    ensures UnitLe(a, b) && UnitLe(b, a) ==> a == b
  {
    if a != [] && b != [] && a[0] == b[0] {
      UnitLeTotal(a[1..], b[1..]);
      assert a == [a[0]] + a[1..] && b == [b[0]] + b[1..];
    }
  }

  lemma {:induction false} UnitLeTransitive(a: Text, b: Text, c: Text)
    requires UnitLe(a, b) && UnitLe(b, c)
    ensures UnitLe(a, c)
  {
    if a != [] && a[0] == b[0] && b[0] == c[0] {
      UnitLeTransitive(a[1..], b[1..], c[1..]);
    }
  }

  lemma UnitLeIsTotalOrder()
    ensures TotalOrder(UnitLe)
  {
    forall a, b ensures UnitLe(a, b) || UnitLe(b, a) { UnitLeTotal(a, b); }
    forall a, b | UnitLe(a, b) && UnitLe(b, a) ensures a == b { UnitLeTotal(a, b); }
    forall a, b, c | UnitLe(a, b) && UnitLe(b, c) ensures UnitLe(a, c) { UnitLeTransitive(a, b, c); }
  }

  /** Code unit order separates any two keys, so no object is tied under it. */
  lemma {:induction false} NeverTied(v: Json)
    ensures Untied(UnitLe, v)
    decreases v
  {
    UnitLeIsTotalOrder();
    match v
    case Arr(items) => forall x | x in items ensures Untied(UnitLe, x) { NeverTied(x); }
    case Obj(members) => forall m | m in members ensures Untied(UnitLe, m.value) { NeverTied(m.value); }
    case _ =>
  }

  /** Printing while sorting equals printing the sorted copy. */
  lemma {:induction false} StableIsPrintOfSorted(v: Json)
    requires Plain(v)
    ensures StableJson(v) == CanonicalJson(UnitLe, v)
    decreases v, 2, 0
  {
    SortJsonIsPlain(UnitLe, v);
    match v
    case Arr(items) =>
      if items != [] {
        StableIsPrintOfSorted(items[0]);
        StableItemsArePrinted(items[1..]);
        assert SortItems(UnitLe, items)[1..] == SortItems(UnitLe, items[1..]);
      }
    case Obj(members) =>
      SortPermutes(KeyLe(UnitLe), members);
      StableObjectIsPrinted(v, Sort(KeyLe(UnitLe), members));
    case _ =>
  }

  lemma {:induction false} StableObjectIsPrinted(v: Json, sorted: seq<Member>)
    requires Plain(v) && v.Obj? && forall m | m in sorted :: m in v.members
    ensures forall m | m in SortValues(UnitLe, v, sorted) :: Plain(m.value)
    ensures (if sorted == [] then [] else StableMember(v, sorted[0]) + StableMoreMembers(v, sorted[1..]))
         == var r := SortValues(UnitLe, v, sorted); if r == [] then [] else PrintMember(r[0]) + PrintMoreMembers(r[1..])
    decreases v, 1, |sorted| + 1
  {
    StableMembersArePrinted(v, sorted);
    if sorted != [] {
      assert sorted[0] in sorted;
      StableIsPrintOfSorted(sorted[0].value);
      StableMembersArePrinted(v, sorted[1..]);
      assert SortValues(UnitLe, v, sorted)[1..] == SortValues(UnitLe, v, sorted[1..]);
    }
  }

  lemma {:induction false} StableItemsArePrinted(items: seq<Json>)
    requires forall x | x in items :: Plain(x)
    ensures forall x | x in SortItems(UnitLe, items) :: Plain(x)
    ensures StableMoreItems(items) == PrintMoreItems(SortItems(UnitLe, items))
    decreases items, 0, 0
  {
    forall x | x in SortItems(UnitLe, items) ensures Plain(x) {
      var i :| 0 <= i < |items| && SortItems(UnitLe, items)[i] == x;
      SortJsonIsPlain(UnitLe, items[i]);
    }
    if items != [] {
      StableIsPrintOfSorted(items[0]);
      StableItemsArePrinted(items[1..]);
      assert SortItems(UnitLe, items)[1..] == SortItems(UnitLe, items[1..]);
    }
  }

  lemma {:induction false} StableMembersArePrinted(parent: Json, members: seq<Member>)
    requires Plain(parent) && parent.Obj? && forall m | m in members :: m in parent.members
    ensures forall m | m in SortValues(UnitLe, parent, members) :: Plain(m.value)
    ensures StableMoreMembers(parent, members) == PrintMoreMembers(SortValues(UnitLe, parent, members))
    decreases parent, 1, |members|
  {
    forall m | m in SortValues(UnitLe, parent, members) ensures Plain(m.value) {
      var i :| 0 <= i < |members| && SortValues(UnitLe, parent, members)[i] == m;
      SortJsonIsPlain(UnitLe, members[i].value);
    }
    if members != [] {
      assert members[0] in members;
      StableIsPrintOfSorted(members[0].value);
      StableMembersArePrinted(parent, members[1..]);
      assert SortValues(UnitLe, parent, members)[1..] == SortValues(UnitLe, parent, members[1..]);
    }
  }
}
