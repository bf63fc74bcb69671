/** Stable sorting, and JavaScript's default string order (by UTF-16 code unit). */
module Sorting {
  type unit16 = c: int | 0 <= c < 0x1_0000
  type text = seq<unit16>

  predicate LexLe(a: text, b: text) {
    a == [] || (b != [] && (a[0] < b[0] || (a[0] == b[0] && LexLe(a[1..], b[1..]))))
  }

  /** What a comparator must satisfy: a total preorder. Different values may
      compare equal, as they do under `localeCompare`. */
  ghost predicate Preorder<T(!new)>(le: (T, T) -> bool) {
    && (forall a, b :: le(a, b) || le(b, a))
    && (forall a, b, c :: le(a, b) && le(b, c) ==> le(a, c))
  }

  lemma {:induction false} LexTotal(a: text, b: text)
    ensures LexLe(a, b) || LexLe(b, a)
    ensures LexLe(a, b) && LexLe(b, a) ==> a == b
  {
    if a != [] && b != [] {
      LexTotal(a[1..], b[1..]);
      assert a == [a[0]] + a[1..] && b == [b[0]] + b[1..];
    }
  }

  /** `b` is greater in the first place where they differ. */
  predicate LessAt(a: text, b: text, k: int) {
    0 <= k < |a| && k < |b| && a[..k] == b[..k] && a[k] < b[k]
  }

  /** A prefix comes first, and otherwise the first difference decides. */
  lemma {:induction false} LexExactly(a: text, b: text)
    ensures LexLe(a, b) <==> a <= b || exists k :: LessAt(a, b, k)
    decreases |a|
  {
    if a != [] && b != [] {
      var (s, t) := (a[1..], b[1..]);
      LexExactly(s, t);
      assert a == [a[0]] + s && b == [b[0]] + t;
      if a[0] == b[0] {
        forall k ensures LessAt(a, b, k) <==> LessAt(s, t, k - 1) {
          if 0 < k < |a| && k < |b| {
            assert a[..k] == [a[0]] + s[..k - 1] && b[..k] == [b[0]] + t[..k - 1];
            assert s[..k - 1] == a[..k][1..] && t[..k - 1] == b[..k][1..];
          }
        }
        if exists k :: LessAt(s, t, k) {
          var k :| LessAt(s, t, k);
          assert LessAt(a, b, k + 1);
        }
      } else {
        assert LessAt(a, b, 0) <==> a[0] < b[0];
        assert forall k :: LessAt(a, b, k) ==> k == 0 || a[..k][0] == b[..k][0];
      }
    }
  }

  lemma {:induction false} LexTransitive(a: text, b: text, c: text)
    ensures LexLe(a, b) && LexLe(b, c) ==> LexLe(a, c)
  {
    if a != [] && b != [] && c != [] {
      LexTransitive(a[1..], b[1..], c[1..]);
    }
  }

  lemma LexPreorder()
    ensures Preorder(LexLe)
  {
    forall a, b ensures LexLe(a, b) || LexLe(b, a) {
      LexTotal(a, b);
    }
    forall a, b, c | LexLe(a, b) && LexLe(b, c) ensures LexLe(a, c) {
      LexTransitive(a, b, c);
    }
  }

  /** Before the first element it is not greater than, so that an element keeps
      its place before later equal ones. */
  function Insert<T>(x: T, s: seq<T>, le: (T, T) -> bool): (r: seq<T>)
    ensures multiset(r) == multiset{x} + multiset(s)
  {
    if s == [] then [x]
    else if le(x, s[0]) then [x] + s
    else
      assert s == [s[0]] + s[1..];
      [s[0]] + Insert(x, s[1..], le)
  }

  function Sort<T>(s: seq<T>, le: (T, T) -> bool): (r: seq<T>)
    ensures multiset(r) == multiset(s)
  {
    if s == [] then [] else
      assert s == [s[0]] + s[1..];
      Insert(s[0], Sort(s[1..], le), le)
  }

  predicate Sorted<T>(s: seq<T>, le: (T, T) -> bool) {
    forall i, j :: 0 <= i < j < |s| ==> le(s[i], s[j])
  }

  lemma {:induction false} InsertSorted<T(!new)>(x: T, s: seq<T>, le: (T, T) -> bool)
    requires Preorder(le) && Sorted(s, le)
    ensures Sorted(Insert(x, s, le), le)
  {
    if s != [] && !le(x, s[0]) {
      InsertSorted(x, s[1..], le);
      var t := Insert(x, s[1..], le);
      assert forall y :: y in t ==> y in multiset(t) && le(s[0], y) by {
        assert multiset(t) == multiset{x} + multiset(s[1..]);
      }
    }
  }

  lemma {:induction false} SortSorted<T(!new)>(s: seq<T>, le: (T, T) -> bool)
    requires Preorder(le)
    ensures Sorted(Sort(s, le), le)
  {
    if s != [] {
      SortSorted(s[1..], le);
      InsertSorted(s[0], Sort(s[1..], le), le);
    }
  }

  /** Sorting something sorted leaves it exactly as it is. */
  lemma {:induction false} SortIdle<T(!new)>(s: seq<T>, le: (T, T) -> bool)
    requires Sorted(s, le)
    ensures Sort(s, le) == s
  {
    if s != [] {
      SortIdle(s[1..], le);
      assert s == [s[0]] + s[1..];
    }
  }

  lemma SortMembers<T(!new)>(s: seq<T>, le: (T, T) -> bool, x: T)
    ensures x in Sort(s, le) <==> x in s
    ensures Sort(s, le) == [] <==> s == []
  {
    assert multiset(Sort(s, le)) == multiset(s);
    assert x in multiset(Sort(s, le)) <==> x in multiset(s);
    assert |multiset(Sort(s, le))| == |Sort(s, le)| && |multiset(s)| == |s|;
  }
}
