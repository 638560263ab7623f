/** Stable sorting, the reference every ordered output is compared with. */
module Sorting {

  ghost predicate TotalPreorder<T(!new)>(le: (T, T) -> bool) {
    && (forall a, b :: le(a, b) || le(b, a))
    && (forall a, b, c :: le(a, b) && le(b, c) ==> le(a, c))
  }

  ghost predicate Sorted<T>(s: seq<T>, le: (T, T) -> bool) {
    forall i, j :: 0 <= i < j < |s| ==> le(s[i], s[j])
  }

  /** Insert x before the first element that is not strictly smaller. */
  function InsertFront<T>(x: T, s: seq<T>, le: (T, T) -> bool): seq<T> {
    if s == [] then [x]
    else if le(x, s[0]) then [x] + s
    else [s[0]] + InsertFront(x, s[1..], le)
  }

  function StableSort<T>(s: seq<T>, le: (T, T) -> bool): seq<T> {
    if s == [] then [] else InsertFront(s[0], StableSort(s[1..], le), le)
  }

  /** The elements of s that tie with x, in order. */
  function Ties<T>(s: seq<T>, x: T, le: (T, T) -> bool): seq<T> {
    if s == [] then []
    else Tie(s[0], x, le) + Ties(s[1..], x, le)
  }

  lemma {:induction false} InsertFrontPermutes<T>(x: T, s: seq<T>, le: (T, T) -> bool)
    ensures multiset(InsertFront(x, s, le)) == multiset{x} + multiset(s)
  {
    if s != [] && !le(x, s[0]) {
      InsertFrontPermutes(x, s[1..], le);
      assert s == [s[0]] + s[1..];
    }
  }

  lemma {:induction false} InsertFrontSorted<T(!new)>(x: T, s: seq<T>, le: (T, T) -> bool)
    requires TotalPreorder(le) && Sorted(s, le)
    ensures Sorted(InsertFront(x, s, le), le)
  {
    if s != [] {
      if le(x, s[0]) {
        forall y | y in s ensures le(x, y) {
          var k :| 0 <= k < |s| && s[k] == y;
          assert le(s[0], s[0]);
          assert le(s[0], s[k]);
        }
        SortedCons(x, s, le);
      } else {
        var t := InsertFront(x, s[1..], le);
        InsertFrontSorted(x, s[1..], le);
        InsertFrontPermutes(x, s[1..], le);
        forall y | y in t ensures le(s[0], y) {
          assert y in multiset(t);
          if y != x {
            assert y in s[1..];
            var k :| 0 <= k < |s[1..]| && s[1..][k] == y;
            assert le(s[0], s[k + 1]);
          }
        }
        SortedCons(s[0], t, le);
      }
    }
  }

  lemma SortedCons<T>(x: T, s: seq<T>, le: (T, T) -> bool)
    requires Sorted(s, le) && forall y :: y in s ==> le(x, y)
    ensures Sorted([x] + s, le)
  {
    var r := [x] + s;
    forall i, j | 0 <= i < j < |r| ensures le(r[i], r[j]) {
      assert r[j] == s[j - 1] && (i > 0 ==> r[i] == s[i - 1]);
    }
  }

  /** StableSort returns a sorted permutation of its input. */
  lemma {:induction false} StableSortSorts<T(!new)>(s: seq<T>, le: (T, T) -> bool)
    requires TotalPreorder(le)
    ensures Sorted(StableSort(s, le), le)
    ensures multiset(StableSort(s, le)) == multiset(s)
  {
    if s != [] {
      StableSortSorts(s[1..], le);
      InsertFrontSorted(s[0], StableSort(s[1..], le), le);
      InsertFrontPermutes(s[0], StableSort(s[1..], le), le);
      assert s == [s[0]] + s[1..];
    }
  }

  lemma {:induction false} StableSortPermutes<T>(s: seq<T>, le: (T, T) -> bool)
    ensures multiset(StableSort(s, le)) == multiset(s)
  {
    if s != [] {
      StableSortPermutes(s[1..], le);
      InsertFrontPermutes(s[0], StableSort(s[1..], le), le);
      assert s == [s[0]] + s[1..];
    }
  }

  lemma {:induction false} InsertFrontTies<T(!new)>(x: T, s: seq<T>, y: T, le: (T, T) -> bool)
    requires TotalPreorder(le)
    ensures Ties(InsertFront(x, s, le), y, le) == Ties([x] + s, y, le)
  {
    TiesCons(x, s, y, le);
    if s != [] && !le(x, s[0]) {
      InsertFrontTies(x, s[1..], y, le);
      TiesCons(x, s[1..], y, le);
      TiesCons(s[0], InsertFront(x, s[1..], le), y, le);
    }
  }

  function Tie<T>(x: T, y: T, le: (T, T) -> bool): seq<T> {
    if le(x, y) && le(y, x) then [x] else []
  }

  lemma TiesCons<T>(x: T, s: seq<T>, y: T, le: (T, T) -> bool)
    ensures Ties([x] + s, y, le) == Tie(x, y, le) + Ties(s, y, le)
  {
    assert ([x] + s)[0] == x && ([x] + s)[1..] == s;
  }

  /** Ties keep their input order: the sort is stable. */
  lemma {:induction false} StableSortIsStable<T(!new)>(s: seq<T>, y: T, le: (T, T) -> bool)
    requires TotalPreorder(le)
    ensures Ties(StableSort(s, le), y, le) == Ties(s, y, le)
  {
    if s != [] {
      var t := StableSort(s[1..], le);
      StableSortIsStable(s[1..], y, le);
      InsertFrontTies(s[0], t, y, le);
      assert ([s[0]] + t)[1..] == t;
    }
  }

  lemma {:induction false} TiesHead<T(!new)>(s: seq<T>, x: T, le: (T, T) -> bool)
    requires TotalPreorder(le) && Sorted(s, le)
    requires Ties(s, x, le) != []
    ensures s != [] && le(s[0], x)
    ensures le(x, s[0]) ==> Ties(s, x, le)[0] == s[0]
  {
    if !(le(s[0], x) && le(x, s[0])) {
      TiesHead(s[1..], x, le);
      assert le(s[0], s[1]);
    }
  }

  lemma TiesSelf<T(!new)>(s: seq<T>, le: (T, T) -> bool)
    requires TotalPreorder(le)
    ensures s != [] ==> Ties(s, s[0], le) != []
  {
    if s != [] {
      assert le(s[0], s[0]);
    }
  }

  lemma TiesTail<T>(s: seq<T>, t: seq<T>, x: T, le: (T, T) -> bool)
    requires s != [] && t != [] && s[0] == t[0] && Ties(s, x, le) == Ties(t, x, le)
    ensures Ties(s[1..], x, le) == Ties(t[1..], x, le)
  {
    var n := |Tie(s[0], x, le)|;
    assert Ties(s[1..], x, le) == Ties(s, x, le)[n..] && Ties(t[1..], x, le) == Ties(t, x, le)[n..];
  }

  lemma SameHead<T(!new)>(s: seq<T>, t: seq<T>, le: (T, T) -> bool)
    requires TotalPreorder(le) && Sorted(s, le) && Sorted(t, le) && s != []
    requires forall x :: Ties(s, x, le) == Ties(t, x, le)
    ensures t != [] && s[0] == t[0]
  {
    TiesSelf(s, le);
    TiesSelf(t, le);
    hide Ties;
    assert Ties(t, s[0], le) == Ties(s, s[0], le);
    TiesHead(t, s[0], le);
    TiesHead(s, t[0], le);
    TiesHead(s, s[0], le);
  }

  lemma SortedTail<T>(s: seq<T>, le: (T, T) -> bool)
    requires s != [] && Sorted(s, le)
    ensures Sorted(s[1..], le)
  {
  }

  /** A sorted sequence is determined by the order of its ties. */
  lemma {:induction false} SortedTiesUnique<T(!new)>(s: seq<T>, t: seq<T>, le: (T, T) -> bool)
    requires TotalPreorder(le) && Sorted(s, le) && Sorted(t, le)
    requires forall x :: Ties(s, x, le) == Ties(t, x, le)
    ensures s == t
  {
    TiesSelf(s, le);
    TiesSelf(t, le);
    if s != [] {
      SameHead(s, t, le);
      SortedTail(s, le);
      SortedTail(t, le);
      hide Ties, Sorted, TotalPreorder;
      forall x ensures Ties(s[1..], x, le) == Ties(t[1..], x, le) {
        TiesTail(s, t, x, le);
      }
      SortedTiesUnique(s[1..], t[1..], le);
      assert s == [s[0]] + s[1..] && t == [t[0]] + t[1..];
    }
  }

  /** The stable sort is the only sorted sequence that keeps every tie in input order. */
  lemma StableSortUnique<T(!new)>(s: seq<T>, t: seq<T>, le: (T, T) -> bool)
    requires TotalPreorder(le) && Sorted(t, le)
    requires forall x :: Ties(t, x, le) == Ties(s, x, le)
    ensures t == StableSort(s, le)
  {
    StableSortSorts(s, le);
    forall x ensures Ties(t, x, le) == Ties(StableSort(s, le), x, le) {
      StableSortIsStable(s, x, le);
      assert Ties(t, x, le) == Ties(s, x, le);
    }
    SortedTiesUnique(t, StableSort(s, le), le);
  }

  /** No two distinct elements of s tie. */
  ghost predicate NoTies<T>(s: seq<T>, le: (T, T) -> bool) {
    forall i, j :: 0 <= i < |s| && 0 <= j < |s| && le(s[i], s[j]) && le(s[j], s[i]) ==> s[i] == s[j]
  }

  lemma SortedPermutationHead<T>(s: seq<T>, t: seq<T>, le: (T, T) -> bool)
    requires s != [] && t != []
    requires Sorted(s, le) && Sorted(t, le) && multiset(s) == multiset(t) && NoTies(s, le)
    ensures s[0] == t[0]
  {
    assert s[0] in multiset(t) && t[0] in multiset(s);
    var i :| 0 <= i < |t| && t[i] == s[0];
    var j :| 0 <= j < |s| && s[j] == t[0];
    if i > 0 && j > 0 {
      assert le(t[0], t[i]) && le(s[0], s[j]);
      assert s[0] == s[j];
    }
  }

  lemma TailBag<T>(s: seq<T>)
    requires s != []
    ensures multiset(s[1..]) == multiset(s) - multiset{s[0]}
    ensures s == [s[0]] + s[1..]
  {
    assert s == [s[0]] + s[1..];
  }

  /** Sorted permutations agree when no two distinct elements tie. */
  lemma {:induction false} SortedPermutationUnique<T>(s: seq<T>, t: seq<T>, le: (T, T) -> bool)
    requires Sorted(s, le) && Sorted(t, le) && multiset(s) == multiset(t) && NoTies(s, le)
    ensures s == t
  {
    assert |t| == |multiset(t)| == |multiset(s)| == |s|;
    if s != [] {
      SortedPermutationHead(s, t, le);
      TailBag(s);
      TailBag(t);
      SortedPermutationUnique(s[1..], t[1..], le);
    }
  }

  /** Selection: the first minimum of s is the head of its stable sort. */
  lemma {:induction false} SelectMin<T>(s: seq<T>, p: nat, le: (T, T) -> bool)
    requires p < |s|
    requires forall q :: 0 <= q < p ==> !le(s[q], s[p])
    requires forall q :: p < q < |s| ==> le(s[p], s[q])
    ensures StableSort(s, le) == [s[p]] + StableSort(s[..p] + s[p + 1..], le)
  {
    if p == 0 {
      var t := StableSort(s[1..], le);
      assert s[..0] + s[1..] == s[1..];
      if t != [] {
        StableSortPermutes(s[1..], le);
        assert t[0] in multiset(t);
        assert t[0] in s[1..];
        var k :| 0 <= k < |s[1..]| && s[1..][k] == t[0];
        assert le(s[0], s[k + 1]);
      }
    } else {
      var m, u := s[p], s[1..][..p - 1] + s[1..][p..];
      SelectMin(s[1..], p - 1, le);
      assert StableSort(s[1..], le) == [m] + StableSort(u, le);
      var w := s[..p] + s[p + 1..];
      assert w[0] == s[0] && w[1..] == u;
      assert !le(s[0], m);
      assert ([m] + StableSort(u, le))[1..] == StableSort(u, le);
    }
  }
}
