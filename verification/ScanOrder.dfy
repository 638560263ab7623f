/** Sequences with the same ties sort alike; tagging records with their group commutes with sorting. */
module ScanOrder {
  import opened Common
  import opened Sorting
  import opened Bags
  import opened Merge
  import opened TieOrder

  // ----- Same ties -----

  /** For every key, the same tied elements in the same order. */
  ghost predicate SameTies<T(!new)>(a: seq<T>, b: seq<T>, le: (T, T) -> bool) {
    forall y :: Ties(a, y, le) == Ties(b, y, le)
  }

  lemma SameTiesSort<T(!new)>(a: seq<T>, b: seq<T>, le: (T, T) -> bool)
    requires TotalPreorder(le) && SameTies(a, b, le)
    ensures StableSort(a, le) == StableSort(b, le)
  {
    hide Sorted, StableSort, Ties, TotalPreorder;
    StableSortSorts(a, le);
    forall y ensures Ties(StableSort(a, le), y, le) == Ties(b, y, le) {
      StableSortIsStable(a, y, le);
    }
    StableSortUnique(b, StableSort(a, le), le);
  }

  lemma SortedHasSameTies<T(!new)>(s: seq<T>, le: (T, T) -> bool)
    requires TotalPreorder(le)
    ensures SameTies(StableSort(s, le), s, le)
  {
    hide StableSort, Ties, TotalPreorder;
    forall y ensures Ties(StableSort(s, le), y, le) == Ties(s, y, le) {
      StableSortIsStable(s, y, le);
    }
  }

  lemma SameTiesAppend<T(!new)>(a: seq<T>, b: seq<T>, x: seq<T>, y: seq<T>, le: (T, T) -> bool)
    requires SameTies(a, b, le) && SameTies(x, y, le)
    ensures SameTies(a + x, b + y, le)
  {
    hide Ties;
    forall z ensures Ties(a + x, z, le) == Ties(b + y, z, le) {
      TiesAppend(a, x, z, le);
      TiesAppend(b, y, z, le);
    }
  }

  // ----- Records with their group -----

  predicate PairLe(a: (LogRecord, string), b: (LogRecord, string)) {
    RecLe(a.0, b.0)
  }

  lemma PairOrder()
    ensures TotalPreorder(PairLe) && TotalPreorder(RecLe)
  {
    RecOrder();
    hide RecLe;
    forall a: (LogRecord, string), b: (LogRecord, string) ensures PairLe(a, b) || PairLe(b, a) {
    }
    forall a: (LogRecord, string), b: (LogRecord, string), c: (LogRecord, string) | PairLe(a, b) && PairLe(b, c) ensures PairLe(a, c) {
    }
  }

  function WithGroup(rs: seq<LogRecord>, group: string): seq<(LogRecord, string)> {
    seq(|rs|, i requires 0 <= i < |rs| => (rs[i], group))
  }

  lemma WithGroupAppend(a: seq<LogRecord>, b: seq<LogRecord>, group: string)
    ensures WithGroup(a + b, group) == WithGroup(a, group) + WithGroup(b, group)
  {
  }

  lemma {:induction false} WithGroupTies(rs: seq<LogRecord>, group: string, y: (LogRecord, string))
    ensures Ties(WithGroup(rs, group), y, PairLe) == WithGroup(Ties(rs, y.0, RecLe), group)
  {
    hide RecLe;
    if rs != [] {
      WithGroupTies(rs[1..], group, y);
      assert WithGroup(rs, group)[1..] == WithGroup(rs[1..], group);
      var first := Tie(rs[0], y.0, RecLe);
      WithGroupAppend(first, Ties(rs[1..], y.0, RecLe), group);
      assert WithGroup(first, group) == Tie((rs[0], group), y, PairLe);
    }
  }

  lemma WithGroupSameTies(a: seq<LogRecord>, b: seq<LogRecord>, group: string)
    requires SameTies(a, b, RecLe)
    ensures SameTies(WithGroup(a, group), WithGroup(b, group), PairLe)
  {
    hide Ties, RecLe, PairLe;
    forall y: (LogRecord, string) ensures Ties(WithGroup(a, group), y, PairLe) == Ties(WithGroup(b, group), y, PairLe) {
      WithGroupTies(a, group, y);
      WithGroupTies(b, group, y);
      assert Ties(a, y.0, RecLe) == Ties(b, y.0, RecLe);
    }
  }

  lemma {:induction false} WithGroupPermutes(a: seq<LogRecord>, b: seq<LogRecord>, group: string)
    requires multiset(a) == multiset(b)
    ensures multiset(WithGroup(a, group)) == multiset(WithGroup(b, group))
    decreases |a|
  {
    hide WithGroup;
    assert |a| == |multiset(a)| == |multiset(b)| == |b|;
    if a == [] {
      assert b == [];
    } else {
      var n := |a| - 1;
      var last := a[n];
      assert last in multiset(b);
      var k :| 0 <= k < |b| && b[k] == last;
      var rest := b[..k] + b[k + 1..];
      TakeSnoc(a, n);
      TakeAll(a);
      RemoveAt(b, k);
      assert multiset(a[..n]) == multiset(a) - multiset{last} == multiset(rest);
      WithGroupPermutes(a[..n], rest, group);
      WithGroupAppend(a[..n], [last], group);
      WithGroupSplit(b, k, group);
    }
  }

  lemma WithGroupSplit(b: seq<LogRecord>, k: nat, group: string)
    requires k < |b|
    ensures multiset(WithGroup(b, group)) == multiset(WithGroup(b[..k] + b[k + 1..], group)) + multiset(WithGroup([b[k]], group))
  {
    hide WithGroup;
    assert b == b[..k] + ([b[k]] + b[k + 1..]);
    WithGroupAppend(b[..k], [b[k]] + b[k + 1..], group);
    WithGroupAppend([b[k]], b[k + 1..], group);
    WithGroupAppend(b[..k], b[k + 1..], group);
  }

  // ----- Tagged heads as pairs -----

  function GroupAt(groups: seq<string>, sg: seq<nat>, src: nat): string {
    if src < |sg| && sg[src] < |groups| then groups[sg[src]] else []
  }

  function PairOf(groups: seq<string>, sg: seq<nat>, h: Head): (LogRecord, string) {
    (h.rec, GroupAt(groups, sg, h.src))
  }

  function Pairs(groups: seq<string>, sg: seq<nat>, hs: seq<Head>): seq<(LogRecord, string)> {
    seq(|hs|, i requires 0 <= i < |hs| => PairOf(groups, sg, hs[i]))
  }

  lemma {:induction false} InsertCommutes(groups: seq<string>, sg: seq<nat>, x: Head, s: seq<Head>)
    ensures Pairs(groups, sg, InsertFront(x, s, HeadLe)) == InsertFront(PairOf(groups, sg, x), Pairs(groups, sg, s), PairLe)
  {
    hide RecLe, GroupAt;
    if s != [] && !HeadLe(x, s[0]) {
      InsertCommutes(groups, sg, x, s[1..]);
      assert Pairs(groups, sg, s)[1..] == Pairs(groups, sg, s[1..]);
    }
  }

  lemma {:induction false} SortCommutes(groups: seq<string>, sg: seq<nat>, s: seq<Head>)
    ensures Pairs(groups, sg, StableSort(s, HeadLe)) == StableSort(Pairs(groups, sg, s), PairLe)
  {
    hide HeadLe, PairLe, PairOf;
    if s != [] {
      SortCommutes(groups, sg, s[1..]);
      InsertCommutes(groups, sg, s[0], StableSort(s[1..], HeadLe));
      assert Pairs(groups, sg, s)[1..] == Pairs(groups, sg, s[1..]);
    }
  }

  /** The records of all sources in source order, each with the group of its source. */
  function PairsOf(sources: seq<seq<seq<LogRecord>>>, base: nat, groups: seq<string>, sg: seq<nat>): seq<(LogRecord, string)>
    decreases |sources|
  {
    if sources == [] then []
    else WithGroup(Flatten(sources[0]), GroupAt(groups, sg, base)) + PairsOf(sources[1..], base + 1, groups, sg)
  }

  lemma {:induction false} TaggedPairs(sources: seq<seq<seq<LogRecord>>>, base: nat, groups: seq<string>, sg: seq<nat>)
    ensures Pairs(groups, sg, TagFrom(FlattenEach(sources), base)) == PairsOf(sources, base, groups, sg)
    decreases |sources|
  {
    hide GroupAt, Flatten;
    if sources != [] {
      TaggedPairs(sources[1..], base + 1, groups, sg);
      assert FlattenEach(sources)[1..] == FlattenEach(sources[1..]);
      var first, rest := Tag(Flatten(sources[0]), base), TagFrom(FlattenEach(sources[1..]), base + 1);
      assert Pairs(groups, sg, first + rest) == Pairs(groups, sg, first) + Pairs(groups, sg, rest);
      assert Pairs(groups, sg, first) == WithGroup(Flatten(sources[0]), GroupAt(groups, sg, base));
    }
  }

  function Concatenated(sources: seq<seq<seq<LogRecord>>>): seq<LogRecord> {
    if sources == [] then [] else Flatten(sources[0]) + Concatenated(sources[1..])
  }

  lemma {:induction false} ConcatenatedSnoc(sources: seq<seq<seq<LogRecord>>>, s: seq<seq<LogRecord>>)
    ensures Concatenated(sources + [s]) == Concatenated(sources) + Flatten(s)
  {
    hide Flatten;
    if sources == [] {
      assert [] + [s] == [s] && [s][1..] == [];
    } else {
      ConcatenatedSnoc(sources[1..], s);
      assert (sources + [s])[0] == sources[0] && (sources + [s])[1..] == sources[1..] + [s];
      Assoc(Flatten(sources[0]), Concatenated(sources[1..]), Flatten(s));
    }
  }

  /** Sources of one group carry their concatenation under that group. */
  lemma {:induction false} OneGroupPairs(sources: seq<seq<seq<LogRecord>>>, base: nat, groups: seq<string>, sg: seq<nat>, gi: nat)
    requires gi < |groups| && base + |sources| <= |sg| && forall i :: base <= i < base + |sources| ==> sg[i] == gi
    ensures PairsOf(sources, base, groups, sg) == WithGroup(Concatenated(sources), groups[gi])
    decreases |sources|
  {
    hide Flatten;
    if sources != [] {
      OneGroupPairs(sources[1..], base + 1, groups, sg, gi);
      WithGroupAppend(Flatten(sources[0]), Concatenated(sources[1..]), groups[gi]);
    }
  }

  lemma {:induction false} PairsOfAppend(a: seq<seq<seq<LogRecord>>>, b: seq<seq<seq<LogRecord>>>, base: nat, groups: seq<string>, sg: seq<nat>)
    ensures PairsOf(a + b, base, groups, sg) == PairsOf(a, base, groups, sg) + PairsOf(b, base + |a|, groups, sg)
    decreases |a|
  {
    hide GroupAt, Flatten, WithGroup;
    if a == [] {
      assert a + b == b;
    } else {
      PairsOfAppend(a[1..], b, base + 1, groups, sg);
      assert (a + b)[0] == a[0] && (a + b)[1..] == a[1..] + b;
      Assoc(WithGroup(Flatten(a[0]), GroupAt(groups, sg, base)), PairsOf(a[1..], base + 1, groups, sg), PairsOf(b, base + |a|, groups, sg));
    }
  }

  lemma {:induction false} PairsOfExtend(sources: seq<seq<seq<LogRecord>>>, base: nat, groups: seq<string>, sg: seq<nat>, more: seq<nat>)
    requires base + |sources| <= |sg|
    ensures PairsOf(sources, base, groups, sg + more) == PairsOf(sources, base, groups, sg)
    decreases |sources|
  {
    hide Flatten, WithGroup;
    if sources != [] {
      PairsOfExtend(sources[1..], base + 1, groups, sg, more);
      assert (sg + more)[base] == sg[base];
    }
  }

  // ----- Concatenations over a list -----

  lemma {:induction false} CatSnoc<T, R>(s: seq<T>, x: T, f: T -> seq<R>)
    ensures Cat(s + [x], f) == Cat(s, f) + f(x)
  {
    if s == [] {
      assert [] + [x] == [x] && [x][1..] == [];
    } else {
      CatSnoc(s[1..], x, f);
      assert (s + [x])[0] == s[0] && (s + [x])[1..] == s[1..] + [x];
      Assoc(f(s[0]), Cat(s[1..], f), f(x));
    }
  }

  lemma {:induction false} CatSameTies<T>(s: seq<T>, f: T -> seq<LogRecord>, g: T -> seq<LogRecord>)
    requires forall x :: x in s ==> SameTies(f(x), g(x), RecLe)
    ensures SameTies(Cat(s, f), Cat(s, g), RecLe)
  {
    hide Ties, RecLe, SameTies;
    if s == [] {
      SameTiesSelf<LogRecord>([], RecLe);
    } else {
      assert s[0] in s;
      CatSameTies(s[1..], f, g);
      SameTiesAppend(f(s[0]), g(s[0]), Cat(s[1..], f), Cat(s[1..], g), RecLe);
    }
  }

  lemma SameTiesSelf<T(!new)>(a: seq<T>, le: (T, T) -> bool)
    ensures SameTies(a, a, le)
  {
  }
}
