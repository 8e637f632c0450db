/**
 * Python's sorted(..., key=..., reverse=...) as an insertion sort that keeps
 * elements with equal keys in their input order (Python's sort is stable,
 * also with reverse=True). Keys are strings, compared character by
 * character, or numbers.
 */
module Sorting {
  import opened Text

  /** A sort key. The programs never mix the two kinds in one sort; the order between them only makes the order total. */
  datatype SortKey = ByText(text: string) | ByNumber(number: real)

  predicate KeyLe(a: SortKey, b: SortKey) {
    match (a, b)
    case (ByText(x), ByText(y)) => LexLe(x, y)
    case (ByNumber(x), ByNumber(y)) => x <= y
    case (ByText(_), ByNumber(_)) => true
    case (ByNumber(_), ByText(_)) => false
  }

  /** Key a may stand before key b: a <= b ascending, a >= b descending. */
  predicate InOrder(a: SortKey, b: SortKey, desc: bool) {
    if desc then KeyLe(b, a) else KeyLe(a, b)
  }

  predicate SortedBy<T>(s: seq<T>, key: T -> SortKey, desc: bool) {
    forall i, j | 0 <= i < j < |s| :: InOrder(key(s[i]), key(s[j]), desc)
  }

  lemma InOrderTotal(a: SortKey, b: SortKey, desc: bool)
    ensures InOrder(a, b, desc) || InOrder(b, a, desc)
  {
    if a.ByText? && b.ByText? { LexLeTotal(a.text, b.text); }
  }

  lemma InOrderTrans(a: SortKey, b: SortKey, c: SortKey, desc: bool)
    requires InOrder(a, b, desc) && InOrder(b, c, desc)
    ensures InOrder(a, c, desc)
  {
    if a.ByText? && b.ByText? && c.ByText? {
      if desc { LexLeTrans(c.text, b.text, a.text); } else { LexLeTrans(a.text, b.text, c.text); }
    }
  }

  /** Places x before the first element whose key must come strictly after x's. */
  function Insert<T>(x: T, t: seq<T>, key: T -> SortKey, desc: bool): (r: seq<T>)
    ensures multiset(r) == multiset(t) + multiset{x}
    ensures |r| == |t| + 1
  {
    if t == [] then [x]
    else if !InOrder(key(t[0]), key(x), desc) then [x] + t
    else
      assert t == [t[0]] + t[1..];
      [t[0]] + Insert(x, t[1..], key, desc)
  }

  lemma SortedTail<T>(t: seq<T>, key: T -> SortKey, desc: bool)
    requires t != [] && SortedBy(t, key, desc)
    ensures SortedBy(t[1..], key, desc)
  {
    forall i, j | 0 <= i < j < |t[1..]| ensures InOrder(key(t[1..][i]), key(t[1..][j]), desc) {
      assert t[1..][i] == t[i + 1] && t[1..][j] == t[j + 1];
    }
  }

  /** A sorted sequence stays sorted with an element in front that may stand before all of it. */
  lemma SortedCons<T>(y: T, s: seq<T>, key: T -> SortKey, desc: bool)
    requires SortedBy(s, key, desc)
    requires forall j | 0 <= j < |s| :: InOrder(key(y), key(s[j]), desc)
    ensures SortedBy([y] + s, key, desc)
  {
    var r := [y] + s;
    forall i, j | 0 <= i < j < |r| ensures InOrder(key(r[i]), key(r[j]), desc) {
      assert r[j] == s[j - 1];
      if i > 0 {
        assert r[i] == s[i - 1];
      }
    }
  }

  /** Inserting into a sorted sequence keeps it sorted. */
  lemma {:induction false} InsertSorted<T>(x: T, t: seq<T>, key: T -> SortKey, desc: bool)
    requires SortedBy(t, key, desc)
    ensures SortedBy(Insert(x, t, key, desc), key, desc)
  {
    if t == [] {
      assert Insert(x, t, key, desc) == [x];
    } else if !InOrder(key(t[0]), key(x), desc) {
      assert Insert(x, t, key, desc) == [x] + t;
      InOrderTotal(key(t[0]), key(x), desc);
      forall j | 0 <= j < |t| ensures InOrder(key(x), key(t[j]), desc) {
        if j > 0 {
          InOrderTrans(key(x), key(t[0]), key(t[j]), desc);
        }
      }
      SortedCons(x, t, key, desc);
    } else {
      var rest := Insert(x, t[1..], key, desc);
      assert Insert(x, t, key, desc) == [t[0]] + rest;
      SortedTail(t, key, desc);
      InsertSorted(x, t[1..], key, desc);
      forall j | 0 <= j < |rest| ensures InOrder(key(t[0]), key(rest[j]), desc) {
        var y := rest[j];
        assert y in multiset(rest);
        if y != x {
          assert y in multiset(t[1..]);
          var m :| 0 <= m < |t[1..]| && t[1..][m] == y;
          assert t[m + 1] == y;
        }
      }
      SortedCons(t[0], rest, key, desc);
    }
  }

  /** sorted(s, key=key, reverse=desc): ordered by key and a permutation of the input. */
  function SortBy<T>(s: seq<T>, key: T -> SortKey, desc: bool): (r: seq<T>)
    ensures SortedBy(r, key, desc)
    ensures multiset(r) == multiset(s)
    ensures |r| == |s|
  {
    if s == [] then []
    else
      var init := SortBy(s[..|s| - 1], key, desc);
      assert s == s[..|s| - 1] + [s[|s| - 1]];
      InsertSorted(s[|s| - 1], init, key, desc);
      Insert(s[|s| - 1], init, key, desc)
  }

  /** The elements of s whose key is k, in the order s has them. */
  function WithKey<T>(s: seq<T>, key: T -> SortKey, k: SortKey): seq<T> {
    if s == [] then [] else (if key(s[0]) == k then [s[0]] else []) + WithKey(s[1..], key, k)
  }

  lemma {:induction false} WithKeyAppend<T>(s: seq<T>, x: T, key: T -> SortKey, k: SortKey)
    ensures WithKey(s + [x], key, k) == WithKey(s, key, k) + (if key(x) == k then [x] else [])
  {
    if s != [] {
      assert (s + [x])[1..] == s[1..] + [x];
      WithKeyAppend(s[1..], x, key, k);
    }
  }

  lemma {:induction false} WithKeyNone<T>(s: seq<T>, key: T -> SortKey, k: SortKey)
    requires forall i | 0 <= i < |s| :: key(s[i]) != k
    ensures WithKey(s, key, k) == []
  {
    if s != [] {
      WithKeyNone(s[1..], key, k);
    }
  }

  lemma InOrderRefl(a: SortKey, desc: bool)
    ensures InOrder(a, a, desc)
  {
    if a.ByText? { LexLeRefl(a.text); }
  }

  /** Every element of t that shares x's key is preceded only by elements that may stand before x. */
  predicate Admits<T>(t: seq<T>, x: T, key: T -> SortKey, desc: bool) {
    forall i, j | 0 <= i <= j < |t| && key(t[j]) == key(x) :: InOrder(key(t[i]), key(x), desc)
  }

  lemma SortedAdmits<T>(t: seq<T>, x: T, key: T -> SortKey, desc: bool)
    requires SortedBy(t, key, desc)
    ensures Admits(t, x, key, desc)
  {
    forall i, j | 0 <= i <= j < |t| && key(t[j]) == key(x) ensures InOrder(key(t[i]), key(x), desc) {
      if i == j {
        InOrderRefl(key(x), desc);
      }
    }
  }

  lemma AdmitsTail<T>(t: seq<T>, x: T, key: T -> SortKey, desc: bool)
    requires t != [] && Admits(t, x, key, desc)
    ensures Admits(t[1..], x, key, desc)
  {
    forall i, j | 0 <= i <= j < |t[1..]| && key(t[1..][j]) == key(x) ensures InOrder(key(t[1..][i]), key(x), desc) {
      assert t[1..][i] == t[i + 1] && t[1..][j] == t[j + 1];
    }
  }

  /** When x goes first, no element of t has x's key, so x keeps its place among its equals. */
  lemma InsertFront<T>(x: T, t: seq<T>, key: T -> SortKey, desc: bool, k: SortKey)
    requires Admits(t, x, key, desc) && t != [] && !InOrder(key(t[0]), key(x), desc)
    ensures WithKey([x] + t, key, k) == WithKey(t, key, k) + (if key(x) == k then [x] else [])
  {
    assert ([x] + t)[1..] == t;
    if key(x) == k {
      forall i | 0 <= i < |t| ensures key(t[i]) != k {
        assert !InOrder(key(t[0]), key(x), desc);
      }
      WithKeyNone(t, key, k);
    }
  }

  lemma WithKeyCons<T>(y: T, s: seq<T>, key: T -> SortKey, k: SortKey)
    ensures WithKey([y] + s, key, k) == (if key(y) == k then [y] else []) + WithKey(s, key, k)
  {
    assert ([y] + s)[1..] == s;
  }

  lemma LastSplit<T>(s: seq<T>)
    requires s != []
    ensures s[..|s| - 1] + [s[|s| - 1]] == s
  {
  }

  lemma ConcatAssoc<T>(a: seq<T>, b: seq<T>, c: seq<T>)
    ensures a + (b + c) == (a + b) + c
  {
  }

  /** Behind t's first element, x is inserted into the rest. */
  lemma {:induction false} InsertBehind<T>(x: T, t: seq<T>, key: T -> SortKey, desc: bool, k: SortKey)
    requires Admits(t, x, key, desc) && t != []
    ensures WithKey([t[0]] + Insert(x, t[1..], key, desc), key, k) == WithKey(t, key, k) + (if key(x) == k then [x] else [])
    decreases |t|, 0
  {
    var rest := Insert(x, t[1..], key, desc);
    var a := if key(t[0]) == k then [t[0]] else [];
    var xs := if key(x) == k then [x] else [];
    var w := WithKey(t[1..], key, k);
    AdmitsTail(t, x, key, desc);
    InsertStable(x, t[1..], key, desc, k);
    WithKeyCons(t[0], rest, key, k);
    assert WithKey(t, key, k) == a + w;
    ConcatAssoc(a, w, xs);
  }

  /** Inserting into a sorted sequence puts x after every element with the same key. */
  lemma {:induction false} InsertStable<T>(x: T, t: seq<T>, key: T -> SortKey, desc: bool, k: SortKey)
    requires Admits(t, x, key, desc)
    ensures WithKey(Insert(x, t, key, desc), key, k) == WithKey(t, key, k) + (if key(x) == k then [x] else [])
    decreases |t|, 1
  {
    if t == [] {
      assert Insert(x, t, key, desc) == [x];
    } else if !InOrder(key(t[0]), key(x), desc) {
      assert Insert(x, t, key, desc) == [x] + t;
      InsertFront(x, t, key, desc, k);
    } else {
      assert Insert(x, t, key, desc) == [t[0]] + Insert(x, t[1..], key, desc);
      InsertBehind(x, t, key, desc, k);
    }
  }

  /**
   * The sort is stable: for every key, the elements carrying it come out in
   * the order they went in (also when sorting in reverse).
   */
  lemma {:induction false} SortStable<T>(s: seq<T>, key: T -> SortKey, desc: bool, k: SortKey)
    ensures WithKey(SortBy(s, key, desc), key, k) == WithKey(s, key, k)
  {
    if s != [] {
      var init, last := s[..|s| - 1], s[|s| - 1];
      SortStable(init, key, desc, k);
      SortedAdmits(SortBy(init, key, desc), last, key, desc);
      InsertStable(last, SortBy(init, key, desc), key, desc, k);
      WithKeyAppend(init, last, key, k);
      LastSplit(s);
    }
  }
}
