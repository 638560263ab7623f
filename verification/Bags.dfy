/** Sums over finite maps: bags of records and byte counts of a table of buffers or segments. */
module Bags {
  import opened Common

  ghost function Pick<K, V>(m: map<K, V>): (k: K)
    requires m != map[]
    ensures k in m
  {
    var k :| k in m;
    k
  }

  ghost function Sum<K(!new), V, R>(m: map<K, V>, f: (K, V) -> multiset<R>): multiset<R>
    decreases |m|
  {
    if m == map[] then multiset{}
    else
      var k := Pick(m);
      Shrinks(m, k);
      f(k, m[k]) + Sum(m - {k}, f)
  }

  ghost function SumNat<K(!new), V>(m: map<K, V>, f: (K, V) -> nat): nat
    decreases |m|
  {
    if m == map[] then 0
    else
      var k := Pick(m);
      Shrinks(m, k);
      f(k, m[k]) + SumNat(m - {k}, f)
  }

  lemma Shrinks<K, V>(m: map<K, V>, k: K)
    requires k in m
    ensures |m - {k}| == |m| - 1
  {
    assert (m - {k}).Keys == m.Keys - {k};
    assert |m.Keys - {k}| == |m.Keys| - 1;
    assert |m - {k}| == |(m - {k}).Keys| && |m| == |m.Keys|;
  }

  lemma RemoveCommutes<K, V>(m: map<K, V>, a: K, b: K)
    ensures m - {a} - {b} == m - {b} - {a}
  {
  }

  /** Any entry can be split off a sum. */
  lemma {:induction false} SumAt<K(!new), V, R>(m: map<K, V>, f: (K, V) -> multiset<R>, k: K)
    requires k in m
    ensures Sum(m, f) == f(k, m[k]) + Sum(m - {k}, f)
    decreases |m|
  {
    var p := Pick(m);
    if p != k {
      Shrinks(m, p);
      SumAt(m - {p}, f, k);
      RemoveCommutes(m, p, k);
      Shrinks(m, k);
      SumAt(m - {k}, f, p);
    }
  }

  lemma {:induction false} SumNatAt<K(!new), V>(m: map<K, V>, f: (K, V) -> nat, k: K)
    requires k in m
    ensures SumNat(m, f) == f(k, m[k]) + SumNat(m - {k}, f)
    decreases |m|
  {
    var p := Pick(m);
    if p != k {
      Shrinks(m, p);
      SumNatAt(m - {p}, f, k);
      RemoveCommutes(m, p, k);
      Shrinks(m, k);
      SumNatAt(m - {k}, f, p);
    }
  }

  lemma InsertRemove<K, V>(m: map<K, V>, k: K, v: V)
    ensures m[k := v] - {k} == m - {k}
    ensures k !in m ==> m - {k} == m
  {
  }

  /** A sum after adding or replacing one entry. */
  lemma SumSet<K(!new), V, R>(m: map<K, V>, f: (K, V) -> multiset<R>, k: K, v: V)
    ensures Sum(m[k := v], f) == f(k, v) + Sum(m - {k}, f)
    ensures k in m ==> Sum(m, f) == f(k, m[k]) + Sum(m - {k}, f)
    ensures k !in m ==> Sum(m, f) == Sum(m - {k}, f)
  {
    InsertRemove(m, k, v);
    SumAt(m[k := v], f, k);
    if k in m {
      SumAt(m, f, k);
    }
  }

  /** Sums are monotone: more keys, and more at each key. */
  lemma {:induction false} SumMono<K(!new), V, R>(m: map<K, V>, n: map<K, V>, f: (K, V) -> multiset<R>)
    requires m.Keys <= n.Keys
    requires forall k :: k in m ==> f(k, m[k]) <= f(k, n[k])
    ensures Sum(m, f) <= Sum(n, f)
    decreases |m|
  {
    if m != map[] {
      var k := Pick(m);
      Shrinks(m, k);
      SumMono(m - {k}, n - {k}, f);
      SumAt(n, f, k);
    }
  }

  /** Two summands that agree everywhere have equal sums. */
  lemma {:induction false} SumAgree<K(!new), V, R>(m: map<K, V>, f: (K, V) -> multiset<R>, g: (K, V) -> multiset<R>)
    requires forall k :: k in m ==> f(k, m[k]) == g(k, m[k])
    ensures Sum(m, f) == Sum(m, g)
    decreases |m|
  {
    if m != map[] {
      var k := Pick(m);
      Shrinks(m, k);
      SumAgree(m - {k}, f, g);
    }
  }

  // ----- Sums over sequences -----

  ghost function SumOver<T, R>(s: seq<T>, f: T -> multiset<R>): multiset<R> {
    if s == [] then multiset{} else f(s[0]) + SumOver(s[1..], f)
  }

  lemma {:induction false} SumOverAppend<T, R>(a: seq<T>, b: seq<T>, f: T -> multiset<R>)
    ensures SumOver(a + b, f) == SumOver(a, f) + SumOver(b, f)
  {
    if a == [] {
      assert a + b == b;
    } else {
      SumOverAppend(a[1..], b, f);
      assert (a + b)[0] == a[0] && (a + b)[1..] == a[1..] + b;
    }
  }

  lemma SumOverOne<T, R>(x: T, f: T -> multiset<R>)
    ensures SumOver([x], f) == f(x)
  {
    assert [x][1..] == [];
  }

  /** The order of the summands does not matter. */
  lemma {:induction false} SumOverPermutes<T, R>(a: seq<T>, b: seq<T>, f: T -> multiset<R>)
    requires multiset(a) == multiset(b)
    ensures SumOver(a, f) == SumOver(b, f)
    decreases |a|
  {
    if a == [] {
      assert |b| == |multiset(b)| == 0;
    } else {
      assert a[0] in multiset(b);
      var k :| 0 <= k < |b| && b[k] == a[0];
      var rest := b[..k] + b[k + 1..];
      RemoveAt(b, k);
      assert a == [a[0]] + a[1..];
      assert multiset(a[1..]) == multiset(a) - multiset{a[0]} == multiset(rest);
      SumOverPermutes(a[1..], rest, f);
      SumOverRemove(b, k, f);
    }
  }

  lemma RemoveAt<T>(b: seq<T>, k: nat)
    requires k < |b|
    ensures multiset(b[..k] + b[k + 1..]) == multiset(b) - multiset{b[k]}
  {
    assert b == b[..k] + ([b[k]] + b[k + 1..]);
  }

  lemma SumOverRemove<T, R>(b: seq<T>, k: nat, f: T -> multiset<R>)
    requires k < |b|
    ensures SumOver(b, f) == f(b[k]) + SumOver(b[..k] + b[k + 1..], f)
  {
    hide SumOver;
    var x, y, z := b[..k], [b[k]], b[k + 1..];
    assert b == x + (y + z);
    SumOverAppend(x, y + z, f);
    SumOverAppend(y, z, f);
    SumOverOne(b[k], f);
    SumOverAppend(x, z, f);
    BagAssoc(SumOver(x, f), f(b[k]), SumOver(z, f));
  }}
