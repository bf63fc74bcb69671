/** Main results on lossless JSON (src/cli.ts): the canonical text of a tree
    says exactly what the tree says, up to the order of members. */
module JsonMeaning {
  import opened Sorting
  import opened JsonText
  import opened CanonicalJson
  import opened JsonRoundTrip

  ghost predicate SameKeys(ms: seq<Member>, ns: seq<Member>) {
    forall k :: k in Keys(ms) <==> k in Keys(ns)
  }

  /** The same value to a reader: arrays in order, objects by key. */
  ghost predicate Same(a: Json, b: Json)
    decreases a
  {
    match a
    case Arr(items) =>
      b.Arr? && |items| == |b.items| && forall i :: 0 <= i < |items| ==> Same(items[i], b.items[i])
    case Obj(ms) =>
      b.Obj? && SameKeys(ms, b.members) && forall i :: 0 <= i < |ms| ==> Same(ms[i].value, Get(b.members, ms[i].key))
    case _ => a == b
  }

  // ---- The sorted tree ----

  lemma {:induction false} DistinctByKeys(ms: seq<Member>, ns: seq<Member>)
    requires Keys(ms) == Keys(ns)
    ensures DistinctKeys(ms) == DistinctKeys(ns)
  {
    assert |Keys(ms)| == |ms| && |Keys(ns)| == |ns|;
    if ms != [] {
      assert Keys(ms)[1..] == Keys(ms[1..]) && Keys(ns)[1..] == Keys(ns[1..]);
      assert ms[0].key == Keys(ms)[0] == Keys(ns)[0] == ns[0].key;
      DistinctByKeys(ms[1..], ns[1..]);
    }
  }

  lemma TailKeys(ms: seq<Member>)
    ensures forall i :: 1 <= i < |ms| ==> ms[i].key in Keys(ms[1..])
  {
    forall i | 1 <= i < |ms| ensures ms[i].key in Keys(ms[1..]) {
      assert Keys(ms[1..])[i - 1] == ms[i].key;
    }
  }

  /** Distinct keys tell members apart. */
  lemma {:induction false} OneOfKey(ms: seq<Member>, i: nat, j: nat)
    requires DistinctKeys(ms) && i < |ms| && j < |ms| && ms[i].key == ms[j].key
    ensures i == j
    decreases |ms|
  {
    TailKeys(ms);
    hide Keys;
    if i > 0 && j > 0 {
      OneOfKey(ms[1..], i - 1, j - 1);
    }
  }

  lemma {:induction false} InsertDistinct(x: Member, s: seq<Member>)
    requires DistinctKeys(s) && x.key !in Keys(s)
    ensures DistinctKeys(Insert(x, s, ByKey()))
    ensures forall k :: k in Keys(Insert(x, s, ByKey())) <==> k == x.key || k in Keys(s)
  {
    if s == [] || LexLe(x.key, s[0].key) {
      assert ([x] + s)[1..] == s;
      assert Keys([x] + s) == [x.key] + Keys(s);
    } else {
      assert Keys(s) == [s[0].key] + Keys(s[1..]);
      InsertDistinct(x, s[1..]);
      var t := Insert(x, s[1..], ByKey());
      assert ([s[0]] + t)[1..] == t;
      assert Keys([s[0]] + t) == [s[0].key] + Keys(t);
    }
  }

  lemma {:induction false} SortDistinct(s: seq<Member>)
    requires DistinctKeys(s)
    ensures DistinctKeys(Sort(s, ByKey()))
    ensures forall k :: k in Keys(Sort(s, ByKey())) <==> k in Keys(s)
  {
    if s != [] {
      SortDistinct(s[1..]);
      InsertDistinct(s[0], Sort(s[1..], ByKey()));
      assert Keys(s) == [s[0].key] + Keys(s[1..]);
    }
  }

  lemma ByKeyPreorder()
    ensures Preorder(ByKey())
  {
    LexPreorder();
    var le := ByKey();
    forall a, b ensures le(a, b) || le(b, a) {
      LexTotal(a.key, b.key);
    }
    forall a, b, c | le(a, b) && le(b, c) ensures le(a, c) {
      LexTransitive(a.key, b.key, c.key);
    }
  }

  lemma {:induction false} CanonProper(t: Json)
    requires Proper(t)
    ensures Proper(Canon(t))
    decreases t
  {
    match t
    case Arr(items) =>
      forall i | 0 <= i < |items| ensures Proper(CanonItems(items)[i]) {
        CanonProper(items[i]);
      }
    case Obj(ms) =>
      var cs := CanonMembers(ms);
      DistinctByKeys(ms, cs);
      SortDistinct(cs);
      var s := Sort(cs, ByKey());
      forall i | 0 <= i < |s| ensures PlainKey(s[i].key) && Proper(s[i].value) {
        SortMembers(cs, ByKey(), s[i]);
        var j :| 0 <= j < |cs| && cs[j] == s[i];
        CanonProper(ms[j].value);
      }
    case _ =>
  }

  lemma {:induction false} CanonIdempotent(t: Json)
    ensures Canon(Canon(t)) == Canon(t)
    decreases t
  {
    match t
    case Arr(items) =>
      forall i | 0 <= i < |items| ensures Canon(CanonItems(items)[i]) == CanonItems(items)[i] {
        CanonIdempotent(items[i]);
      }
      assert CanonItems(CanonItems(items)) == CanonItems(items);
    case Obj(ms) =>
      var cs := CanonMembers(ms);
      forall j | 0 <= j < |cs| ensures Canon(cs[j].value) == cs[j].value {
        CanonIdempotent(ms[j].value);
      }
      SortedStays(cs);
      hide Sort, ByKey, CanonMembers;
    case _ =>
  }

  lemma SortedStays(cs: seq<Member>)
    requires forall j :: 0 <= j < |cs| ==> Canon(cs[j].value) == cs[j].value
    ensures var s := Sort(cs, ByKey()); Sort(CanonMembers(s), ByKey()) == s
  {
    hide Canon, Sort, ByKey;
    var s := Sort(cs, ByKey());
    forall i | 0 <= i < |s| ensures Member(s[i].key, Canon(s[i].value)) == s[i] {
      SortMembers(cs, ByKey(), s[i]);
      var j :| 0 <= j < |cs| && cs[j] == s[i];
    }
    assert CanonMembers(s) == s;
    ByKeyPreorder();
    SortSorted(cs, ByKey());
    SortIdle(s, ByKey());
  }

  predicate SameMembers(s: seq<Member>, t: seq<Member>) {
    (forall x <- s :: x in t) && (forall x <- t :: x in s)
  }

  lemma NoMembers(s: seq<Member>, t: seq<Member>)
    requires SameMembers(s, t)
    ensures s == [] <==> t == []
  {
    assert s != [] ==> s[0] in s;
    assert t != [] ==> t[0] in t;
  }

  lemma HeadLeast(s: seq<Member>, x: Member)
    requires Sorted(s, ByKey()) && x in s
    ensures LexLe(s[0].key, x.key)
  {
    var i :| 0 <= i < |s| && s[i] == x;
    LexTotal(x.key, x.key);
    assert i > 0 ==> ByKey()(s[0], s[i]);
  }

  lemma SameHead(s: seq<Member>, t: seq<Member>)
    requires Sorted(s, ByKey()) && Sorted(t, ByKey()) && DistinctKeys(t) && SameMembers(s, t) && s != []
    ensures t != [] && s[0] == t[0]
  {
    assert s[0] in t;
    assert t[0] in s;
    HeadLeast(s, t[0]);
    HeadLeast(t, s[0]);
    LexTotal(s[0].key, t[0].key);
    var i :| 0 <= i < |t| && t[i] == s[0];
    OneOfKey(t, 0, i);
  }

  lemma TailMember(s: seq<Member>, t: seq<Member>, x: Member)
    requires s != [] && t != [] && s[0] == t[0] && DistinctKeys(s) && x in s[1..] && (forall y <- s :: y in t)
    ensures x in t[1..]
  {
    var i :| 0 <= i < |s| - 1 && s[1..][i] == x;
    assert s[i + 1] == x && x in s;
    TailKeys(s);
    assert x.key in Keys(s[1..]) && x != s[0];
    assert t == [t[0]] + t[1..];
  }

  /** A sorted list with distinct keys is determined by its members. */
  lemma {:induction false} SortedUnique(s: seq<Member>, t: seq<Member>)
    requires Sorted(s, ByKey()) && Sorted(t, ByKey()) && DistinctKeys(s) && DistinctKeys(t) && SameMembers(s, t)
    ensures s == t
    decreases |s|
  {
    NoMembers(s, t);
    if s != [] {
      SameHead(s, t);
      assert SameMembers(s[1..], t[1..]) by {
        forall x | x in s[1..] ensures x in t[1..] {
          TailMember(s, t, x);
        }
        forall x | x in t[1..] ensures x in s[1..] {
          TailMember(t, s, x);
        }
      }
      hide SameMembers;
      SortedUnique(s[1..], t[1..]);
      assert s == [s[0]] + s[1..] && t == [t[0]] + t[1..];
    }
  }

  // ---- Same value, same sorted tree, same text ----

  lemma {:induction false} SameCanon(a: Json, b: Json)
    requires Proper(a) && Proper(b)
    ensures Same(a, b) <==> Canon(a) == Canon(b)
    decreases a
  {
    match a
    case Arr(items) =>
      if b.Arr? && |items| == |b.items| {
        forall i | 0 <= i < |items|
          ensures Same(items[i], b.items[i]) <==> CanonItems(items)[i] == CanonItems(b.items)[i] {
          SameCanon(items[i], b.items[i]);
        }
      }
    case Obj(ms) =>
      if b.Obj? {
        var ns := b.members;
        forall i, j | 0 <= i < |ms| && 0 <= j < |ns|
          ensures Agree(ms[i].value, ns[j].value) {
          SameCanon(ms[i].value, ns[j].value);
        }
        assert Decided(ms, ns);
        MembersSame(ms, ns);
      }
    case _ =>
  }

  lemma {:induction false} FindKey(ms: seq<Member>, key: text) returns (j: nat)
    requires key in Keys(ms)
    ensures j < |ms| && ms[j].key == key && Get(ms, key) == ms[j].value
    decreases |ms|
  {
    assert Keys(ms) == [ms[0].key] + Keys(ms[1..]);
    if ms[0].key == key {
      j := 0;
    } else {
      var i := FindKey(ms[1..], key);
      j := i + 1;
    }
  }

  lemma KeyIn(ms: seq<Member>, i: nat)
    requires i < |ms|
    ensures ms[i].key in Keys(ms)
  {
    assert Keys(ms)[i] == ms[i].key;
  }

  ghost predicate Decided(ms: seq<Member>, ns: seq<Member>) {
    forall i, j :: 0 <= i < |ms| && 0 <= j < |ns| ==> Agree(ms[i].value, ns[j].value)
  }

  ghost predicate Agree(a: Json, b: Json) { Same(a, b) <==> Canon(a) == Canon(b) }

  lemma SameGivesMembers(ms: seq<Member>, ns: seq<Member>)
    requires DistinctKeys(ms) && DistinctKeys(ns) && Decided(ms, ns) && Same(Obj(ms), Obj(ns))
    ensures SameMembers(CanonMembers(ms), CanonMembers(ns))
  {
    var (s, t) := (CanonMembers(ms), CanonMembers(ns));
    assert SameKeys(ms, ns) && forall i :: 0 <= i < |ms| ==> Same(ms[i].value, Get(ns, ms[i].key));
    hide Same, Canon, CanonMembers, DistinctKeys, Get;
    forall i | 0 <= i < |s| ensures s[i] in t {
      KeyIn(ms, i);
      var j := FindKey(ns, ms[i].key);
      assert Agree(ms[i].value, ns[j].value);
      assert t[j] == s[i];
    }
    forall j | 0 <= j < |t| ensures t[j] in s {
      KeyIn(ns, j);
      var i := FindKey(ms, ns[j].key);
      var l := FindKey(ns, ms[i].key);
      OneOfKey(ns, j, l);
      assert Agree(ms[i].value, ns[j].value);
      assert s[i] == t[j];
    }
  }

  lemma KeysAgree(ms: seq<Member>, ns: seq<Member>)
    requires forall i :: 0 <= i < |ms| ==> ms[i].key in Keys(ns)
    requires forall j :: 0 <= j < |ns| ==> ns[j].key in Keys(ms)
    ensures SameKeys(ms, ns)
  {
    forall k ensures k in Keys(ms) <==> k in Keys(ns) {
      if k in Keys(ms) {
        var i := FindKey(ms, k);
      }
      if k in Keys(ns) {
        var j := FindKey(ns, k);
      }
    }
  }

  lemma KeyCarried(ms: seq<Member>, ns: seq<Member>, i: nat) returns (j: nat)
    requires i < |ms| && forall x <- CanonMembers(ms) :: x in CanonMembers(ns)
    ensures j < |ns| && CanonMembers(ms)[i] == CanonMembers(ns)[j] && ms[i].key == ns[j].key && ms[i].key in Keys(ns)
  {
    var (s, t) := (CanonMembers(ms), CanonMembers(ns));
    assert s[i] in t;
    j :| 0 <= j < |t| && t[j] == s[i];
    KeyIn(ns, j);
  }

  lemma ValueSame(ms: seq<Member>, ns: seq<Member>, i: nat)
    requires i < |ms| && DistinctKeys(ns) && Decided(ms, ns)
    requires forall x <- CanonMembers(ms) :: x in CanonMembers(ns)
    ensures Same(ms[i].value, Get(ns, ms[i].key))
  {
    var j := KeyCarried(ms, ns, i);
    hide Same, Canon, DistinctKeys, Get;
    var l := FindKey(ns, ns[j].key);
    OneOfKey(ns, j, l);
    assert Agree(ms[i].value, ns[j].value);
  }

  lemma MembersGiveSame(ms: seq<Member>, ns: seq<Member>)
    requires DistinctKeys(ms) && DistinctKeys(ns) && Decided(ms, ns)
    requires SameMembers(CanonMembers(ms), CanonMembers(ns))
    ensures Same(Obj(ms), Obj(ns))
  {
    hide Canon, CanonMembers, DistinctKeys, Get, Decided, Keys;
    forall i | 0 <= i < |ms| ensures ms[i].key in Keys(ns) && Same(ms[i].value, Get(ns, ms[i].key)) {
      var j := KeyCarried(ms, ns, i);
      ValueSame(ms, ns, i);
    }
    forall j | 0 <= j < |ns| ensures ns[j].key in Keys(ms) {
      var i := KeyCarried(ns, ms, j);
    }
    KeysAgree(ms, ns);
    hide SameKeys, SameMembers;
  }

  lemma SortedSame(s: seq<Member>, t: seq<Member>)
    requires DistinctKeys(s) && DistinctKeys(t)
    ensures SameMembers(s, t) <==> Sort(s, ByKey()) == Sort(t, ByKey())
  {
    var le := ByKey();
    forall x ensures (x in Sort(s, le) <==> x in s) && (x in Sort(t, le) <==> x in t) {
      SortMembers(s, le, x);
      SortMembers(t, le, x);
    }
    hide Sort, ByKey, DistinctKeys, Sorted;
    assert SameMembers(s, t) <==> SameMembers(Sort(s, le), Sort(t, le));
    hide SameMembers;
    if SameMembers(s, t) {
      ByKeyPreorder();
      SortSorted(s, le);
      SortSorted(t, le);
      SortDistinct(s);
      SortDistinct(t);
      SortedUnique(Sort(s, le), Sort(t, le));
    }
  }

  lemma MembersSame(ms: seq<Member>, ns: seq<Member>)
    requires DistinctKeys(ms) && DistinctKeys(ns) && Decided(ms, ns)
    ensures Same(Obj(ms), Obj(ns)) <==> Canon(Obj(ms)) == Canon(Obj(ns))
  {
    var (s, t) := (CanonMembers(ms), CanonMembers(ns));
    hide Same, Decided, SameMembers, Sort, ByKey, CanonMembers;
    if Same(Obj(ms), Obj(ns)) {
      SameGivesMembers(ms, ns);
    }
    if SameMembers(s, t) {
      MembersGiveSame(ms, ns);
    }
    DistinctByKeys(ms, s) by { CanonKeys(ms); }
    DistinctByKeys(ns, t) by { CanonKeys(ns); }
    hide DistinctKeys;
    SortedSame(s, t);
  }

  /** Two trees have the same canonical text exactly when they are the same
      value: the text does not depend on the order of members, and says
      everything else. */
  lemma CanonicalDecides(a: Json, b: Json)
    requires Proper(a) && Proper(b)
    ensures Canonical(a) == Canonical(b) <==> Same(a, b)
  {
    SameCanon(a, b);
    CanonicalIsWrite(a);
    CanonicalIsWrite(b);
    if Canonical(a) == Canonical(b) {
      WriteInjective(Canon(a), Canon(b)) by {
        CanonProper(a);
        CanonProper(b);
      }
    }
  }

  lemma WriteInjective(a: Json, b: Json)
    requires Proper(a) && Proper(b) && Write(a) == Write(b)
    ensures a == b
  {
    hide Write, Proper;
    WriteShows(a, []);
    WriteShows(b, []);
    LayoutLegal(a);
    LayoutLegal(b);
    Unambiguous(Layout(a), [], Layout(b), []);
  }

  // ---- The two functions together ----

  lemma {:induction false} PutProper(ms: seq<Member>, key: text, value: Json)
    requires DistinctKeys(ms)
    ensures DistinctKeys(Put(ms, key, value))
    ensures forall k :: k in Keys(Put(ms, key, value)) <==> k == key || k in Keys(ms)
    ensures forall m <- Put(ms, key, value) :: m == Member(key, value) || m in ms
  {
    if ms != [] {
      var tail := ms[1..];
      assert ms == [ms[0]] + tail && Keys(ms) == [ms[0].key] + Keys(tail);
      if ms[0].key == key {
        assert ([Member(key, value)] + tail)[1..] == tail;
        assert Keys([Member(key, value)] + tail) == Keys(ms);
      } else {
        PutProper(tail, key, value);
        var t := Put(tail, key, value);
        assert ([ms[0]] + t)[1..] == t && Keys([ms[0]] + t) == [ms[0].key] + Keys(t);
      }
    }
  }

  /** What the reader returns is a proper tree. */
  lemma {:induction false} TreeProper(c: Cst)
    requires Legal(c)
    ensures Proper(Tree(c))
    decreases c, 1
  {
    match c
    case CBox(obj, _, items) =>
      if obj {
        FieldsProper([], items);
      } else {
        ValuesProper(items);
      }
    case _ =>
  }

  ghost predicate ProperFields(ms: seq<Member>) {
    DistinctKeys(ms) && forall m <- ms :: PlainKey(m.key) && Proper(m.value)
  }

  lemma {:induction false} FieldsProper(ms: seq<Member>, items: seq<Item>)
    requires LegalItems(true, items) && ProperFields(ms)
    ensures ProperFields(Fields(ms, items)) && Proper(Obj(Fields(ms, items)))
    decreases items, 0
  {
    hide Tree, Legal, PlainKey, DistinctKeys, Put;
    if items != [] {
      var (key, v) := (KeyOf(items[0]), Tree(items[0].value));
      TreeProper(items[0].value);
      PutProper(ms, key, v);
      FieldsProper(Put(ms, key, v), items[1..]);
    }
  }

  lemma {:induction false} ValuesProper(items: seq<Item>)
    requires LegalItems(false, items)
    ensures Proper(Arr(Values(items)))
    decreases items, 0
  {
    hide Tree, Legal;
    if items != [] {
      TreeProper(items[0].value);
      ValuesProper(items[1..]);
    }
  }

  /** The canonical text of a tree is a legal text, and stands for the tree with
      its members sorted. */
  lemma CanonicalIsText(t: Json, k: text)
    requires Proper(t)
    ensures Canonical(t) + k == Show(Layout(Canon(t)), k)
    ensures Legal(Layout(Canon(t))) && Tree(Layout(Canon(t))) == Canon(t) && Same(t, Canon(t))
  {
    CanonicalIsWrite(t);
    CanonProper(t);
    WriteShows(Canon(t), k);
    LayoutLegal(Canon(t));
    CanonIdempotent(t);
    SameCanon(t, Canon(t));
  }

  /** Canonical texts of two readings are equal exactly when they read the same
      value, whatever blanks, escapes, repeated keys or orders they were
      written with. */
  lemma TextsAgree(c: Cst, d: Cst)
    requires Legal(c) && Legal(d)
    ensures Canonical(Tree(c)) == Canonical(Tree(d)) <==> Same(Tree(c), Tree(d))
  {
    TreeProper(c);
    TreeProper(d);
    CanonicalDecides(Tree(c), Tree(d));
  }

  /** Print, read, print: the text no longer changes, and the tree read is the
      tree printed, every number as it was written. */
  method Reprint(t: Json) returns (u: Json, again: text)
    requires Proper(t)
    ensures u == Canon(t) && Same(t, u) && again == Canonical(t)
  {
    CanonicalIsText(t, []);
    assert [] + Show(Layout(Canon(t)), []) == Canonical(t) + [] == Canonical(t);
    u := LosslessParse(Canonical(t), [], Layout(Canon(t)), []);
    again := Canonical(u);
    CanonProper(t);
    CanonIdempotent(t);
    CanonicalIsWrite(t);
    CanonicalIsWrite(u);
  }
}
