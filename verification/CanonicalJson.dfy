/** Canonical JSON values and canonical identifier lists of the workflow source. */
module CanonicalJson {
  import opened Text
  import opened Ordering

  datatype Json =
    | Null
    | Boolean(b: bool)
    | Number(n: int)
    | Text(s: string)
    | Array(items: seq<Json>)
    | Object(members: seq<Member>)   // in the order in which the value keeps them

  datatype Member = Member(key: string, value: Json)

  /** Keys are unique in every object at every depth, as in any parsed value. */
  predicate UniqueKeys(v: Json) {
    match v
    case Array(items) => forall i :: 0 <= i < |items| ==> UniqueKeys(items[i])
    case Object(members) =>
      && DistinctKeys(members)
      && forall i :: 0 <= i < |members| ==> UniqueKeys(members[i].value)
    case _ => true
  }

  predicate DistinctKeys(ms: seq<Member>) {
    forall i, j :: 0 <= i < j < |ms| ==> ms[i].key != ms[j].key
  }

  // ---------------------------------------------------------------- canonicalization

  /** Insertion into a list kept in key order; an equal key is replaced, as in a `BTreeMap`. */
  function Insert(m: Member, sorted: seq<Member>): seq<Member> {
    if sorted == [] || LexLess(m.key, sorted[0].key) then [m] + sorted
    else if m.key == sorted[0].key then [m] + sorted[1..]
    else [sorted[0]] + Insert(m, sorted[1..])
  }

  /** Collecting the members into a `BTreeMap`, and back into a list. */
  function Collected(ms: seq<Member>): seq<Member> {
    if ms == [] then [] else Insert(ms[|ms| - 1], Collected(ms[..|ms| - 1]))
  }

  /** `canonicalize_value`. */
  function Canonical(v: Json): Json {
    match v
    case Array(items) => Array(CanonicalItems(items))
    case Object(members) => Object(Collected(CanonicalMembers(members)))
    case _ => v
  }

  function CanonicalItems(items: seq<Json>): (r: seq<Json>)
    ensures |r| == |items|
  {
    if items == [] then [] else CanonicalItems(items[..|items| - 1]) + [Canonical(items[|items| - 1])]
  }

  function CanonicalMember(m: Member): Member { Member(m.key, Canonical(m.value)) }

  function CanonicalMembers(ms: seq<Member>): (r: seq<Member>)
    ensures |r| == |ms|
  {
    if ms == [] then [] else CanonicalMembers(ms[..|ms| - 1]) + [CanonicalMember(ms[|ms| - 1])]
  }

  lemma {:induction false} ItemAt(items: seq<Json>, i: nat)
    requires i < |items|
    ensures CanonicalItems(items)[i] == Canonical(items[i])
  {
    if i < |items| - 1 { ItemAt(items[..|items| - 1], i); }
  }

  lemma {:induction false} MemberAt(ms: seq<Member>, i: nat)
    requires i < |ms|
    ensures CanonicalMembers(ms)[i] == Member(ms[i].key, Canonical(ms[i].value))
  {
    if i < |ms| - 1 { MemberAt(ms[..|ms| - 1], i); }
  }

  // ---------------------------------------------------------------- sorted member lists

  function Keys(ms: seq<Member>): seq<string> {
    seq(|ms|, i requires 0 <= i < |ms| => ms[i].key)
  }

  predicate KeySorted(ms: seq<Member>) { StrictlySorted(Keys(ms)) }

  lemma {:induction false} InsertKeeps(m: Member, s: seq<Member>)
    requires KeySorted(s)
    ensures KeySorted(Insert(m, s))
    ensures forall x :: x in Insert(m, s) <==> x == m || (x in s && x.key != m.key)
  {
    if s == [] {
    } else {
      var tail := s[1..];
      assert s == [s[0]] + tail;
      assert KeySorted(tail) by {
        forall i, j | 0 <= i < j < |tail| ensures LexLess(Keys(tail)[i], Keys(tail)[j]) {
          assert LexLess(Keys(s)[i + 1], Keys(s)[j + 1]);
        }
      }
      forall i | 0 <= i < |tail| ensures LexLess(s[0].key, tail[i].key) {
        assert LexLess(Keys(s)[0], Keys(s)[i + 1]);
      }
      if LexLess(m.key, s[0].key) {
        Prepend(m, s);
      } else if m.key == s[0].key {
        Prepend(m, tail);
        forall x | x in tail ensures x.key != m.key { LexIrreflexive(m.key); }
      } else {
        LexTotal(m.key, s[0].key);
        InsertKeeps(m, tail);
        Prepend(s[0], Insert(m, tail));
      }
    }
  }

  /** A member below everything goes to the front. */
  lemma Prepend(m: Member, s: seq<Member>)
    requires KeySorted(s)
    requires (s != [] && LexLess(m.key, s[0].key)) || forall x :: x in s ==> LexLess(m.key, x.key)
    ensures KeySorted([m] + s)
    ensures forall x :: x in s ==> x.key != m.key
  {
    var r := [m] + s;
    forall i | 0 <= i < |s| ensures LexLess(m.key, s[i].key) && s[i].key != m.key {
      if s[i] in s && i > 0 && LexLess(m.key, s[0].key) {
        assert LexLess(Keys(s)[0], Keys(s)[i]);
        LexTransitive(m.key, s[0].key, s[i].key);
      }
      LexIrreflexive(m.key);
    }
    forall i, j | 0 <= i < j < |r| ensures LexLess(Keys(r)[i], Keys(r)[j]) {
      if i > 0 { assert LexLess(Keys(s)[i - 1], Keys(s)[j - 1]); }
    }
  }

  lemma {:induction false} CollectedExact(ms: seq<Member>)
    requires DistinctKeys(ms)
    ensures KeySorted(Collected(ms))
    ensures forall x :: x in Collected(ms) <==> x in ms
  {
    if ms != [] {
      var init, last := ms[..|ms| - 1], ms[|ms| - 1];
      CollectedExact(init);
      InsertKeeps(last, Collected(init));
      assert ms == init + [last];
    }
  }

  /** Key-sorted lists with the same members are equal. */
  lemma {:induction false} SameMembers(a: seq<Member>, b: seq<Member>)
    requires KeySorted(a) && KeySorted(b)
    requires forall x :: x in a <==> x in b
    ensures a == b
  {
    forall k ensures k in Keys(a) <==> k in Keys(b) {
      if k in Keys(a) { var i :| 0 <= i < |a| && Keys(a)[i] == k; assert a[i] in b; var j :| 0 <= j < |b| && b[j] == a[i]; assert Keys(b)[j] == k; }
      if k in Keys(b) { var i :| 0 <= i < |b| && Keys(b)[i] == k; assert b[i] in a; var j :| 0 <= j < |a| && a[j] == b[i]; assert Keys(a)[j] == k; }
    }
    SortedUnique(Keys(a), Keys(b));
    assert |a| == |Keys(a)| == |Keys(b)| == |b|;
    forall i | 0 <= i < |a| ensures a[i] == b[i] {
      assert Keys(a)[i] == Keys(b)[i];
      assert a[i] in b;
      var j :| 0 <= j < |b| && b[j] == a[i];
      KeyOnce(b, i, j);
    }
  }

  lemma KeyOnce(b: seq<Member>, i: nat, j: nat)
    requires KeySorted(b) && i < |b| && j < |b| && b[i].key == b[j].key
    ensures i == j
  {
    var keys := Keys(b);
    assert keys[i] == keys[j];
    LexIrreflexive(keys[i]);
  }

  // ---------------------------------------------------------------- equality up to key order

  /** Equal but for the order of object members, at every depth. */
  ghost predicate Equivalent(a: Json, b: Json) {
    match (a, b)
    case (Array(x), Array(y)) => |x| == |y| && forall i :: 0 <= i < |x| ==> Equivalent(x[i], y[i])
    case (Object(x), Object(y)) => Covers(x, y) && Covers(y, x)
      && forall i, j :: 0 <= i < |x| && 0 <= j < |y| && x[i].key == y[j].key ==> Equivalent(x[i].value, y[j].value)
    case _ => a == b
  }

  /** Every key of `x` is a key of `y`. */
  predicate Covers(x: seq<Member>, y: seq<Member>) {
    forall i :: 0 <= i < |x| ==> HasKey(y, x[i].key)
  }

  predicate HasKey(y: seq<Member>, key: string) {
    exists j :: 0 <= j < |y| && y[j].key == key
  }

  /** Two trees have the same canonical form exactly when they are equal up to key order. */
  lemma {:induction false} CanonicalExact(a: Json, b: Json)
    requires UniqueKeys(a) && UniqueKeys(b)
    ensures Canonical(a) == Canonical(b) <==> Equivalent(a, b)
    decreases a
  {
    match (a, b)
    case (Array(x), Array(y)) =>
      if |x| == |y| {
        forall i | 0 <= i < |x| ensures CanonicalItems(x)[i] == CanonicalItems(y)[i] <==> Equivalent(x[i], y[i]) {
          ItemAt(x, i);
          ItemAt(y, i);
          CanonicalExact(x[i], y[i]);
        }
      }
    case (Object(x), Object(y)) =>
      forall i, j | 0 <= i < |x| && 0 <= j < |y|
        ensures Canonical(x[i].value) == Canonical(y[j].value) <==> Equivalent(x[i].value, y[j].value)
      {
        CanonicalExact(x[i].value, y[j].value);
      }
      ObjectExact(x, y);
    case _ =>
  }

  predicate SameValues(x: seq<Member>, y: seq<Member>) {
    forall i, j :: 0 <= i < |x| && 0 <= j < |y| && x[i].key == y[j].key ==> Canonical(x[i].value) == Canonical(y[j].value)
  }

  lemma CanonicalDistinct(ms: seq<Member>)
    requires DistinctKeys(ms)
    ensures DistinctKeys(CanonicalMembers(ms))
  {
    forall i, j | 0 <= i < j < |ms| ensures CanonicalMembers(ms)[i].key != CanonicalMembers(ms)[j].key {
      MemberAt(ms, i);
      MemberAt(ms, j);
    }
  }

  lemma ObjectExact(x: seq<Member>, y: seq<Member>)
    requires DistinctKeys(x) && DistinctKeys(y)
    ensures Collected(CanonicalMembers(x)) == Collected(CanonicalMembers(y)) <==> Covers(x, y) && Covers(y, x) && SameValues(x, y)
  {
    var cx, cy := CanonicalMembers(x), CanonicalMembers(y);
    CanonicalDistinct(x);
    CanonicalDistinct(y);
    CollectedExact(cx);
    CollectedExact(cy);
    if Covers(x, y) && Covers(y, x) && SameValues(x, y) {
      MembersWithin(x, y);
      MembersWithin(y, x);
      SameMembers(Collected(cx), Collected(cy));
    }
    if Collected(cx) == Collected(cy) {
      assert forall m :: m in cx <==> m in cy;
      KeysWithin(x, y);
      KeysWithin(y, x);
    }
  }

  lemma MembersWithin(x: seq<Member>, y: seq<Member>)
    requires Covers(x, y) && (SameValues(x, y) || SameValues(y, x))
    ensures forall m :: m in CanonicalMembers(x) ==> m in CanonicalMembers(y)
  {
    forall m | m in CanonicalMembers(x) ensures m in CanonicalMembers(y) {
      var i :| 0 <= i < |x| && CanonicalMembers(x)[i] == m;
      MemberAt(x, i);
      assert HasKey(y, x[i].key);
      var j :| 0 <= j < |y| && y[j].key == x[i].key;
      MemberAt(y, j);
      assert CanonicalMembers(y)[j] == m;
    }
  }

  lemma KeysWithin(x: seq<Member>, y: seq<Member>)
    requires DistinctKeys(y)
    requires forall m :: m in CanonicalMembers(x) ==> m in CanonicalMembers(y)
    ensures Covers(x, y) && SameValues(x, y)
  {
    forall i | 0 <= i < |x|
      ensures HasKey(y, x[i].key)
      ensures forall j :: 0 <= j < |y| && x[i].key == y[j].key ==> Canonical(x[i].value) == Canonical(y[j].value)
    {
      MemberAt(x, i);
      assert CanonicalMembers(x)[i] in CanonicalMembers(y);
      var k :| 0 <= k < |y| && CanonicalMembers(y)[k] == CanonicalMembers(x)[i];
      MemberAt(y, k);
      assert y[k].key == x[i].key;
      forall j | 0 <= j < |y| && x[i].key == y[j].key ensures Canonical(x[i].value) == Canonical(y[j].value) {
        assert j == k;
      }
    }
  }

  // ---------------------------------------------------------------- idempotence

  lemma {:induction false} CanonicalUnique(v: Json)
    requires UniqueKeys(v)
    ensures UniqueKeys(Canonical(v))
    ensures Equivalent(v, Canonical(v))
    decreases v
  {
    match v
    case Array(items) =>
      forall i | 0 <= i < |items|
        ensures UniqueKeys(CanonicalItems(items)[i]) && Equivalent(items[i], CanonicalItems(items)[i])
      {
        ItemAt(items, i);
        CanonicalUnique(items[i]);
      }
    case Object(ms) =>
      forall i | 0 <= i < |ms|
        ensures UniqueKeys(Canonical(ms[i].value)) && Equivalent(ms[i].value, Canonical(ms[i].value))
      {
        CanonicalUnique(ms[i].value);
      }
      ObjectUnique(ms);
    case _ =>
  }

  /** The members of a canonical object are the object's, one for one, with canonical values. */
  lemma MemberBehind(ms: seq<Member>, j: nat) returns (k: nat)
    requires DistinctKeys(ms) && j < |Collected(CanonicalMembers(ms))|
    ensures k < |ms| && Collected(CanonicalMembers(ms))[j] == Member(ms[k].key, Canonical(ms[k].value))
  {
    var cs := CanonicalMembers(ms);
    CanonicalDistinct(ms);
    CollectedExact(cs);
    assert Collected(cs)[j] in cs;
    k :| 0 <= k < |cs| && cs[k] == Collected(cs)[j];
    MemberAt(ms, k);
  }

  lemma CanonicalCovers(ms: seq<Member>)
    requires DistinctKeys(ms)
    ensures var out := Collected(CanonicalMembers(ms)); DistinctKeys(out) && Covers(ms, out) && Covers(out, ms)
  {
    var cs := CanonicalMembers(ms);
    var out := Collected(cs);
    CanonicalDistinct(ms);
    CollectedExact(cs);
    forall i, j | 0 <= i < j < |out| ensures out[i].key != out[j].key {
      LexIrreflexive(out[i].key);
      assert LexLess(Keys(out)[i], Keys(out)[j]);
    }
    forall i | 0 <= i < |ms| ensures HasKey(out, ms[i].key) {
      MemberAt(ms, i);
      assert cs[i] in out;
    }
    forall j | 0 <= j < |out| ensures HasKey(ms, out[j].key) { var k := MemberBehind(ms, j); }
  }

  lemma ObjectUnique(ms: seq<Member>)
    requires DistinctKeys(ms)
    requires forall i :: 0 <= i < |ms| ==> UniqueKeys(Canonical(ms[i].value)) && Equivalent(ms[i].value, Canonical(ms[i].value))
    ensures UniqueKeys(Object(Collected(CanonicalMembers(ms))))
    ensures Equivalent(Object(ms), Object(Collected(CanonicalMembers(ms))))
  {
    hide Collected, CanonicalMembers, Canonical, Covers;
    var out := Collected(CanonicalMembers(ms));
    CanonicalCovers(ms);
    forall j | 0 <= j < |out|
      ensures UniqueKeys(out[j].value)
      ensures forall i :: 0 <= i < |ms| && ms[i].key == out[j].key ==> Equivalent(ms[i].value, out[j].value)
    {
      var k := MemberBehind(ms, j);
      assert forall i :: 0 <= i < |ms| && ms[i].key == ms[k].key ==> i == k;
    }
  }

  /** Canonicalizing twice changes nothing more. */
  lemma Idempotent(v: Json)
    requires UniqueKeys(v)
    ensures Canonical(Canonical(v)) == Canonical(v)
  {
    CanonicalUnique(v);
    CanonicalExact(v, Canonical(v));
  }

  // ---------------------------------------------------------------- identifier lists

  const MAX_IDENTIFIER_BYTES: nat := 512

  predicate IdentifierText(s: string) {
    s != "" && ByteLength(s) <= MAX_IDENTIFIER_BYTES && forall i :: 0 <= i < |s| ==> !(s[i] < ' ' || s[i] == '\U{7F}')
  }

  /** `sorted_unique_identifiers`: only neighbours are compared. */
  predicate SortedUniqueIdentifiers(values: seq<string>) {
    (forall i :: 0 <= i < |values| ==> IdentifierText(values[i])) && AdjacentLess(values)
  }

  /** An accepted list is the one strictly sorted list of its elements. */
  lemma IdentifierListsCanonical(a: seq<string>, b: seq<string>)
    requires SortedUniqueIdentifiers(a) && SortedUniqueIdentifiers(b)
    ensures StrictlySorted(a)
    ensures (forall x :: x in a <==> x in b) ==> a == b
  {
    AdjacentSorts(a);
    AdjacentSorts(b);
    if forall x :: x in a <==> x in b { SortedUnique(a, b); }
  }
}
