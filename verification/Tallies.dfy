/** Sums and counts over map keys that do not depend on the order in which a range loop visits them. */
module Tallies {
  import opened Wrappers

  ghost predicate Distinct<T>(s: seq<T>) {
    forall i, j :: 0 <= i < j < |s| ==> s[i] != s[j]
  }

  /** The sum of a map's values. */
  ghost function Sum<K>(m: map<K, nat>): nat {
    if m == map[] then 0 else
      var k :| k in m;
      m[k] + Sum(m - {k})
  }

  lemma {:induction false} SumWithout<K>(m: map<K, nat>, k: K)
    requires k in m
    ensures Sum(m) == m[k] + Sum(m - {k})
    decreases |m|
  {
    assert m != map[];
    var j :| j in m && Sum(m) == m[j] + Sum(m - {j});
    if j != k {
      SumWithout(m - {j}, k);
      SumWithout(m - {k}, j);
      assert m - {j} - {k} == m - {k} - {j};
    }
  }

  /** Visiting one more key adds its value, whichever key it is. */
  lemma SumWith<K>(m: map<K, nat>, k: K, v: nat)
    requires k !in m
    ensures Sum(m[k := v]) == Sum(m) + v
  {
    SumWithout(m[k := v], k);
    assert m[k := v] - {k} == m;
  }

  /** The sum along a list of keys. */
  function SumAlong<K>(m: map<K, nat>, order: seq<K>): nat
    requires forall k :: k in order ==> k in m
  {
    if order == [] then 0 else SumAlong(m, order[..|order| - 1]) + m[order[|order| - 1]]
  }

  lemma ListedWithout<K>(m: map<K, nat>, order: seq<K>)
    requires order != [] && Distinct(order) && forall k :: k in order <==> k in m
    ensures var init, last := order[..|order| - 1], order[|order| - 1];
      var less := m - {last};
      forall k :: k in init <==> k in less
  {
    assert order == order[..|order| - 1] + [order[|order| - 1]];
  }

  /** Every listing of the keys without repetition gives the same sum. */
  lemma {:induction false} SumInAnyOrder<K>(m: map<K, nat>, order: seq<K>)
    requires forall k :: k in order <==> k in m
    requires Distinct(order)
    ensures SumAlong(m, order) == Sum(m)
    decreases |order|
  {
    if order == [] {
      assert m == map[];
    } else {
      var init, k := order[..|order| - 1], order[|order| - 1];
      var less := m - {k};
      ListedWithout(m, order);
      SumWithout(m, k);
      SumInAnyOrder(less, init);
      SumAlongAgrees(m, less, init);
    }
  }

  lemma {:induction false} SumAlongAgrees<K>(m: map<K, nat>, less: map<K, nat>, order: seq<K>)
    requires forall k :: k in order ==> k in m && k in less && m[k] == less[k]
    ensures SumAlong(m, order) == SumAlong(less, order)
  {
    if order != [] {
      SumAlongAgrees(m, less, order[..|order| - 1]);
    }
  }

  /** What reading every one of these keys returns. */
  function ReadAll<K, R>(keys: set<K>, read: K -> R): (got: map<K, R>)
    ensures got.Keys == keys
  {
    map k | k in keys :: read(k)
  }

  lemma NothingRead<K, R>(keys: set<K>, read: K -> R)
    ensures ReadAll(keys - keys, read) == map[]
  {
  }

  /** Taking one more key out of those that are left reads it. */
  lemma ReadOneMore<K, R>(keys: set<K>, rest: set<K>, read: K -> R, k: K)
    requires k in rest && rest <= keys
    ensures k !in ReadAll(keys - rest, read)
    ensures ReadAll(keys - (rest - {k}), read) == ReadAll(keys - rest, read)[k := read(k)]
  {
  }

  lemma AllRead<K>(keys: set<K>, rest: set<K>)
    requires rest == {}
    ensures keys - rest == keys
  {
  }

  /** What a run's reads returned, split into values and errors. */
  function Values<K, V>(got: map<K, Result<V>>): map<K, V> {
    map k | k in got && got[k].Ok? :: got[k].value
  }

  function Errors<K, V>(got: map<K, Result<V>>): map<K, string> {
    map k | k in got && got[k].Err? :: got[k].error
  }

  lemma SplitWith<K, V>(seen: map<K, Result<V>>, k: K, r: Result<V>)
    requires k !in seen
    ensures Values(seen[k := r]) == if r.Ok? then Values(seen)[k := r.value] else Values(seen)
    ensures Errors(seen[k := r]) == if r.Err? then Errors(seen)[k := r.error] else Errors(seen)
  {
  }

  lemma AllOk<K, V>(got: map<K, Result<V>>, values: map<K, V>)
    requires got.Keys == values.Keys && forall k :: k in got ==> got[k] == Ok(values[k])
    ensures Values(got) == values && Errors(got) == map[]
  {
  }

  /** Every read is one or the other. */
  lemma SplitSizes<K, V>(got: map<K, Result<V>>)
    ensures |Values(got)| + |Errors(got)| == |got|
  {
    var ok, failed := Values(got).Keys, Errors(got).Keys;
    assert ok !! failed && ok + failed == got.Keys;
    assert |ok + failed| == |ok| + |failed|;
    assert |Values(got)| == |ok| && |Errors(got)| == |failed| && |got| == |got.Keys|;
  }

  /** How many of a list satisfy p. */
  function CountIf<T>(s: seq<T>, p: T -> bool): nat {
    if s == [] then 0 else CountIf(s[..|s| - 1], p) + if p(s[|s| - 1]) then 1 else 0
  }

  lemma {:induction false} CountIfConcat<T>(a: seq<T>, b: seq<T>, p: T -> bool)
    ensures CountIf(a + b, p) == CountIf(a, p) + CountIf(b, p)
  {
    if b == [] {
      assert a + b == a;
    } else {
      CountIfConcat(a, b[..|b| - 1], p);
      assert (a + b)[..|a + b| - 1] == a + b[..|b| - 1];
    }
  }

  lemma SameMembers<T>(s: seq<T>, all: multiset<T>)
    requires multiset(s) == all
    ensures forall x :: x in s <==> x in all
  {
    assert forall x :: x in s <==> x in multiset(s);
  }

  lemma CancelOne<T>(a: multiset<T>, b: multiset<T>, x: T)
    requires a + multiset{x} == b + multiset{x}
    ensures a == b
  {
    assert a == (a + multiset{x}) - multiset{x};
    assert b == (b + multiset{x}) - multiset{x};
  }

  /** A list of the members of a set, each once, has as many with p as the set has. */
  lemma {:induction false} CountListed<T>(s: seq<T>, all: set<T>, p: T -> bool, some: set<T>)
    requires multiset(s) == multiset(all)
    requires forall x :: x in some <==> x in all && p(x)
    ensures CountIf(s, p) == |some|
  {
    if s == [] {
      assert all == {} by {
        assert forall x :: x in all ==> x in multiset(all);
      }
      assert some == {};
    } else {
      var init, last := s[..|s| - 1], s[|s| - 1];
      assert s == init + [last] && multiset(s) == multiset(init) + multiset{last};
      assert last in multiset(all);
      assert all == (all - {last}) + {last};
      CancelOne(multiset(init), multiset(all - {last}), last);
      CountListed(init, all - {last}, p, some - {last});
    }
  }

  /** A one-to-one image of a set has its size. */
  lemma {:induction false} ImageSize<A, B(!new)>(s: set<A>, f: A -> B, t: set<B>)
    requires forall a, b :: a in s && b in s && f(a) == f(b) ==> a == b
    requires forall a :: a in s ==> f(a) in t
    requires forall b :: b in t ==> exists a :: a in s && f(a) == b
    ensures |s| == |t|
    decreases |s|
  {
    if s == {} {
      assert t == {};
    } else {
      var a :| a in s;
      forall b | b in t - {f(a)}
        ensures exists x :: x in s - {a} && f(x) == b
      {
        var x :| x in s && f(x) == b;
        assert x in s - {a};
      }
      ImageSize(s - {a}, f, t - {f(a)});
    }
  }
}
