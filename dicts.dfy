/**
 * Python dicts from text to numbers whose order the programs expose: a
 * dict keeps its keys in insertion order, assignment to an existing key
 * keeps its place, and the order is shown to the user (grade lists, chart
 * legends, summary lines) or decides a tie. Such a dict is a sequence of
 * (key, value) pairs with distinct keys.
 */
module Dicts {

  type Dict = seq<(string, real)>

  predicate Distinct(t: Dict) {
    forall i, j | 0 <= i < j < |t| :: t[i].0 != t[j].0
  }

  function Keys(t: Dict): set<string> {
    set i | 0 <= i < |t| :: t[i].0
  }

  /** d.get(k, 0) */
  function Get(t: Dict, k: string): real {
    if t == [] then 0.0 else if t[0].0 == k then t[0].1 else Get(t[1..], k)
  }

  /** sum(d.values()) */
  function Sum(t: Dict): real {
    if t == [] then 0.0 else t[0].1 + Sum(t[1..])
  }

  lemma KeysCons(t: Dict)
    requires t != []
    ensures Keys(t) == {t[0].0} + Keys(t[1..])
  {
    forall k | k in Keys(t) ensures k in {t[0].0} + Keys(t[1..]) {
      var i :| 0 <= i < |t| && t[i].0 == k;
      if i > 0 { assert t[1..][i - 1].0 == k; }
    }
    forall k | k in Keys(t[1..]) ensures k in Keys(t) {
      var i :| 0 <= i < |t[1..]| && t[1..][i].0 == k;
      assert t[i + 1].0 == k;
    }
  }

  lemma DistinctTail(t: Dict)
    requires t != [] && Distinct(t)
    ensures Distinct(t[1..]) && t[0].0 !in Keys(t[1..])
  {
    forall i, j | 0 <= i < j < |t[1..]| ensures t[1..][i].0 != t[1..][j].0 {
      assert t[1..][i] == t[i + 1] && t[1..][j] == t[j + 1];
    }
    forall j | 0 <= j < |t[1..]| ensures t[1..][j].0 != t[0].0 {
      assert t[1..][j] == t[j + 1];
    }
  }

  /** With distinct keys, no pair occurs twice. */
  lemma {:induction false} DistinctOnce(t: Dict, x: (string, real))
    requires Distinct(t)
    ensures multiset(t)[x] <= 1
  {
    if t != [] {
      DistinctTail(t);
      DistinctOnce(t[1..], x);
      assert t == [t[0]] + t[1..];
      assert forall j | 0 <= j < |t[1..]| :: t[1..][j].0 in Keys(t[1..]);
    }
  }

  /** Reordering a dict's pairs keeps its keys distinct. */
  lemma DistinctPerm(t: Dict, u: Dict)
    requires Distinct(t) && multiset(t) == multiset(u)
    ensures Distinct(u)
  {
    forall i, j | 0 <= i < j < |u| ensures u[i].0 != u[j].0 {
      if u[i].0 == u[j].0 {
        assert u[i] in multiset(u) && u[j] in multiset(u);
        var a :| 0 <= a < |t| && t[a] == u[i];
        var c :| 0 <= c < |t| && t[c] == u[j];
        assert a == c;
        assert u == u[..j] + u[j..];
        assert u[..j][i] == u[i] && u[j..][0] == u[i];
        assert multiset(u[..j])[u[i]] >= 1 && multiset(u[j..])[u[i]] >= 1;
        DistinctOnce(t, u[i]);
        assert false;
      }
    }
  }

  /** With distinct keys, d[k] is the value stored beside k, wherever k sits. */
  lemma {:induction false} GetAt(t: Dict, i: int)
    requires Distinct(t) && 0 <= i < |t|
    ensures Get(t, t[i].0) == t[i].1
  {
    if i > 0 {
      DistinctTail(t);
      assert t[1..][i - 1] == t[i];
      GetAt(t[1..], i - 1);
    }
  }

  /**
   * `d[k] = x`: key k maps to x, every other key keeps its value, and the
   * sum of the values changes by the difference.
   */
  function Put(t: Dict, k: string, x: real): (r: Dict)
    ensures Sum(r) == Sum(t) - Get(t, k) + x
    ensures forall k' :: Get(r, k') == if k' == k then x else Get(t, k')
  {
    if t == [] then [(k, x)]
    else if t[0].0 == k then [(k, x)] + t[1..]
    else [t[0]] + Put(t[1..], k, x)
  }

  /** Put's keys are the old keys and k. */
  lemma {:induction false} PutKeys(t: Dict, k: string, x: real)
    ensures Keys(Put(t, k, x)) == Keys(t) + {k}
  {
    var r := Put(t, k, x);
    if t == [] {
      assert r[0].0 == k;
    } else {
      KeysCons(t);
      if t[0].0 != k { PutKeys(t[1..], k, x); }
      assert r[1..] == if t[0].0 == k then t[1..] else Put(t[1..], k, x);
      KeysCons(r);
    }
  }

  /** Where Put puts the key: a new key goes last; an existing key keeps its place, and every position keeps its key. */
  lemma {:induction false} PutPlacement(t: Dict, k: string, x: real)
    ensures k !in Keys(t) ==> Put(t, k, x) == t + [(k, x)]
    ensures k in Keys(t) ==> |Put(t, k, x)| == |t| && forall i | 0 <= i < |t| :: Put(t, k, x)[i].0 == t[i].0
  {
    var r := Put(t, k, x);
    if t != [] {
      KeysCons(t);
      if t[0].0 != k {
        var rest := Put(t[1..], k, x);
        PutPlacement(t[1..], k, x);
        assert r == [t[0]] + rest;
        if k !in Keys(t) {
          assert t == [t[0]] + t[1..];
        } else {
          forall i | 0 <= i < |t| ensures r[i].0 == t[i].0 {
            if i > 0 { assert r[i] == rest[i - 1] && t[i] == t[1..][i - 1]; }
          }
        }
      }
    }
  }

  /** Put keeps the keys distinct. */
  lemma {:induction false} PutDistinct(t: Dict, k: string, x: real)
    requires Distinct(t)
    ensures Distinct(Put(t, k, x))
  {
    var r := Put(t, k, x);
    if t != [] {
      DistinctTail(t);
      if t[0].0 == k {
        forall i, j | 0 <= i < j < |r| ensures r[i].0 != r[j].0 {
          if i == 0 { assert r[j] == t[j] == t[1..][j - 1]; }
          else { assert r[i] == t[i] && r[j] == t[j]; }
        }
      } else {
        var rest := Put(t[1..], k, x);
        PutDistinct(t[1..], k, x);
        PutKeys(t[1..], k, x);
        assert r == [t[0]] + rest;
        assert t[0].0 !in Keys(rest);
        forall i, j | 0 <= i < j < |r| ensures r[i].0 != r[j].0 {
          if i == 0 {
            assert r[j].0 in Keys(rest) by { assert rest[j - 1] == r[j]; }
          } else {
            assert r[i] == rest[i - 1] && r[j] == rest[j - 1];
          }
        }
      }
    }
  }

  /**
   * `d[k] = d.get(k, 0) + x`: key k gains x, every other total is unchanged,
   * and the sum of all totals grows by exactly x.
   */
  function Add(t: Dict, k: string, x: real): (r: Dict)
    ensures Sum(r) == Sum(t) + x
    ensures forall k' :: Get(r, k') == Get(t, k') + (if k' == k then x else 0.0)
  {
    Put(t, k, Get(t, k) + x)
  }

  /** `del d[k]`: k is gone, every other key keeps its value, and a missing key leaves the dict as it was. */
  function Remove(t: Dict, k: string): (r: Dict)
    ensures |r| <= |t|
    ensures forall k' :: Get(r, k') == if k' == k then 0.0 else Get(t, k')
    ensures forall i | 0 <= i < |r| :: r[i].0 != k
    ensures forall i | 0 <= i < |r| :: r[i] in t
  {
    if t == [] then []
    else if t[0].0 == k then Remove(t[1..], k)
    else [t[0]] + Remove(t[1..], k)
  }

  /** Remove's keys are the old keys without k; a missing key leaves the dict as it was. */
  lemma {:induction false} RemoveKeys(t: Dict, k: string)
    ensures Keys(Remove(t, k)) == Keys(t) - {k}
    ensures k !in Keys(t) ==> Remove(t, k) == t
  {
    if t != [] {
      KeysCons(t);
      RemoveKeys(t[1..], k);
      if t[0].0 != k {
        var r := Remove(t, k);
        assert r == [t[0]] + Remove(t[1..], k);
        KeysCons(r);
        assert r[1..] == Remove(t[1..], k);
      }
    }
  }

  /** Remove keeps distinct keys distinct. */
  lemma {:induction false} RemoveDistinct(t: Dict, k: string)
    requires Distinct(t)
    ensures Distinct(Remove(t, k))
  {
    if t != [] {
      DistinctTail(t);
      RemoveDistinct(t[1..], k);
      if t[0].0 != k {
        var rest := Remove(t[1..], k);
        var r := [t[0]] + rest;
        assert Remove(t, k) == r;
        forall i, j | 0 <= i < j < |r| ensures r[i].0 != r[j].0 {
          if i == 0 {
            assert r[j] == rest[j - 1] && rest[j - 1] in t[1..];
          } else {
            assert r[i] == rest[i - 1] && r[j] == rest[j - 1];
          }
        }
      }
    }
  }

  /** The sum of the second components, in order. */
  function Total(ps: seq<(string, real)>): real {
    if ps == [] then 0.0 else Total(ps[..|ps| - 1]) + ps[|ps| - 1].1
  }

  /** The sum of the second components of the pairs whose key is k. */
  function TotalFor(ps: seq<(string, real)>, k: string): real {
    if ps == [] then 0.0
    else TotalFor(ps[..|ps| - 1], k) + (if ps[|ps| - 1].0 == k then ps[|ps| - 1].1 else 0.0)
  }

  lemma KeysSnoc(ps: seq<(string, real)>)
    requires ps != []
    ensures Keys(ps) == Keys(ps[..|ps| - 1]) + {ps[|ps| - 1].0}
  {
    var init := ps[..|ps| - 1];
    forall k | k in Keys(ps) ensures k in Keys(init) + {ps[|ps| - 1].0} {
      var i :| 0 <= i < |ps| && ps[i].0 == k;
      if i < |init| { assert init[i].0 == k; }
    }
  }

  /**
   * The dict a loop `for k, x in ps: d[k] = d.get(k, 0) + x` leaves behind:
   * its keys are the keys of ps (each once, first appearance first), each
   * key's total is the sum of that key's values, and the totals add up to
   * the sum of all values.
   */
  function Tally(ps: seq<(string, real)>): (r: Dict)
    ensures Distinct(r)
    ensures Keys(r) == Keys(ps)
    ensures Sum(r) == Total(ps)
    ensures forall k :: Get(r, k) == TotalFor(ps, k)
  {
    if ps == [] then []
    else
      var init := ps[..|ps| - 1];
      var k, x := ps[|ps| - 1].0, ps[|ps| - 1].1;
      var r := Add(Tally(init), k, x);
      PutKeys(Tally(init), k, Get(Tally(init), k) + x);
      PutDistinct(Tally(init), k, Get(Tally(init), k) + x);
      KeysSnoc(ps);
      r
  }

  /**
   * The position of the first largest value: the key that
   * `sorted(d, key=d.get, reverse=True)[0]` names, since that sort is
   * stable and so keeps tied keys in dict order.
   */
  function FirstMax(t: Dict): (i: nat)
    requires t != []
    ensures i < |t|
    ensures forall j | 0 <= j < |t| :: t[j].1 <= t[i].1
    ensures forall j | 0 <= j < i :: t[j].1 < t[i].1
  {
    if |t| == 1 then 0
    else
      var j := FirstMax(t[..|t| - 1]);
      assert forall m | 0 <= m < |t| - 1 :: t[..|t| - 1][m] == t[m];
      if t[|t| - 1].1 > t[j].1 then |t| - 1 else j
  }
}
