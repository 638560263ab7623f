/** K-way merge of time-ordered record sources, against one stable sort of everything. */
module Merge {
  import opened Common
  import opened Sorting

  /** Order on (timestamp, stream). */
  predicate RecLe(a: LogRecord, b: LogRecord) {
    a.timestamp < b.timestamp || (a.timestamp == b.timestamp && StrLe(a.stream, b.stream))
  }

  /** One source's foremost record, and which source that is. */
  datatype Head = Head(rec: LogRecord, src: nat)

  predicate HeadLe(a: Head, b: Head) {
    RecLe(a.rec, b.rec)
  }

  lemma RecOrder()
    ensures TotalPreorder(RecLe)
    ensures TotalPreorder(HeadLe)
  {
    forall a: LogRecord, b: LogRecord ensures RecLe(a, b) || RecLe(b, a) {
      StrLeTotal(a.stream, b.stream);
    }
    forall a: LogRecord, b: LogRecord, c: LogRecord | RecLe(a, b) && RecLe(b, c) ensures RecLe(a, c) {
      if a.timestamp == b.timestamp == c.timestamp {
        StrLeTransitive(a.stream, b.stream, c.stream);
      }
    }
  }

  function Tag(rs: seq<LogRecord>, src: nat): seq<Head> {
    seq(|rs|, i requires 0 <= i < |rs| => Head(rs[i], src))
  }

  /** The concatenation of the sources, each record tagged with its source. */
  function TagFrom(rs: seq<seq<LogRecord>>, base: nat): seq<Head> {
    if rs == [] then [] else Tag(rs[0], base) + TagFrom(rs[1..], base + 1)
  }

  function TagAll(rs: seq<seq<LogRecord>>): seq<Head> {
    TagFrom(rs, 0)
  }

  ghost predicate AllSorted(rs: seq<seq<LogRecord>>) {
    forall i :: 0 <= i < |rs| ==> Sorted(rs[i], RecLe)
  }

  lemma {:induction false} TagFromAppend(a: seq<seq<LogRecord>>, b: seq<seq<LogRecord>>, base: nat)
    ensures TagFrom(a + b, base) == TagFrom(a, base) + TagFrom(b, base + |a|)
    decreases |a|
  {
    hide Tag;
    if a == [] {
      assert a + b == b;
    } else {
      TagFromAppend(a[1..], b, base + 1);
      assert (a + b)[0] == a[0] && (a + b)[1..] == a[1..] + b;
      Assoc(Tag(a[0], base), TagFrom(a[1..], base + 1), TagFrom(b, base + |a|));
    }
  }

  lemma {:induction false} TagMember(rs: seq<seq<LogRecord>>, base: nat, x: Head)
    requires x in TagFrom(rs, base)
    ensures base <= x.src < base + |rs| && x.rec in rs[x.src - base]
    decreases |rs|
  {
    if x in Tag(rs[0], base) {
    } else {
      TagMember(rs[1..], base + 1, x);
    }
  }

  /** Splitting the tagged concatenation at the head of one source. */
  lemma TagSplit(rs: seq<seq<LogRecord>>, src: nat)
    requires src < |rs| && rs[src] != []
    ensures var before, after := TagFrom(rs[..src], 0), Tag(rs[src][1..], src) + TagFrom(rs[src + 1..], src + 1);
            && TagAll(rs) == before + [Head(rs[src][0], src)] + after
            && TagAll(rs[src := rs[src][1..]]) == before + after
  {
    hide TagFrom;
    var rest := rs[src + 1..];
    var next := rs[src := rs[src][1..]];
    assert rs == rs[..src] + ([rs[src]] + rest);
    assert next == rs[..src] + ([rs[src][1..]] + rest);
    TagFromAppend(rs[..src], [rs[src]] + rest, 0);
    TagFromAppend(rs[..src], [rs[src][1..]] + rest, 0);
    TagCons(rs[src], rest, src);
    TagCons(rs[src][1..], rest, src);
    assert Tag(rs[src], src) == [Head(rs[src][0], src)] + Tag(rs[src][1..], src);
    Assoc([Head(rs[src][0], src)], Tag(rs[src][1..], src), TagFrom(rest, src + 1));
    Assoc(TagFrom(rs[..src], 0), [Head(rs[src][0], src)], Tag(rs[src][1..], src) + TagFrom(rest, src + 1));
  }

  lemma TagCons(r: seq<LogRecord>, rest: seq<seq<LogRecord>>, base: nat)
    ensures TagFrom([r] + rest, base) == Tag(r, base) + TagFrom(rest, base + 1)
  {
    assert ([r] + rest)[0] == r && ([r] + rest)[1..] == rest;
  }

  /** The head of source src is first in (timestamp, stream, source) order. */
  ghost predicate LeastHead(rs: seq<seq<LogRecord>>, src: nat) {
    && src < |rs| && rs[src] != []
    && (forall j :: 0 <= j < src && rs[j] != [] ==> !RecLe(rs[j][0], rs[src][0]))
    && (forall j :: src < j < |rs| && rs[j] != [] ==> RecLe(rs[src][0], rs[j][0]))
  }

  lemma HeadBelow(s: seq<LogRecord>, r: LogRecord)
    requires Sorted(s, RecLe) && r in s
    ensures RecLe(s[0], r)
  {
    RecOrder();
    var k :| 0 <= k < |s| && s[k] == r;
    if k > 0 {
      assert RecLe(s[0], s[k]);
    }
  }

  /** Emitting the least head is one step of the stable sort. */
  lemma LeastHeadFirst(rs: seq<seq<LogRecord>>, src: nat)
    requires AllSorted(rs) && LeastHead(rs, src)
    ensures StableSort(TagAll(rs), HeadLe) ==
            [Head(rs[src][0], src)] + StableSort(TagAll(rs[src := rs[src][1..]]), HeadLe)
  {
    TagSplit(rs, src);
    var h := Head(rs[src][0], src);
    var before, after := TagFrom(rs[..src], 0), Tag(rs[src][1..], src) + TagFrom(rs[src + 1..], src + 1);
    var all, p := TagAll(rs), |before|;
    forall q | 0 <= q < p ensures !HeadLe(all[q], all[p]) {
      assert all[q] == before[q];
      BeforeIsAbove(rs, src, before[q]);
    }
    forall q | p < q < |all| ensures HeadLe(all[p], all[q]) {
      assert all[q] == after[q - p - 1];
      AfterIsNotBelow(rs, src, after[q - p - 1]);
    }
    SelectMin(all, p, HeadLe);
    assert all[..p] == before && all[p + 1..] == after;
  }

  lemma BeforeIsAbove(rs: seq<seq<LogRecord>>, src: nat, x: Head)
    requires AllSorted(rs) && LeastHead(rs, src) && x in TagFrom(rs[..src], 0)
    ensures !RecLe(x.rec, rs[src][0])
  {
    RecOrder();
    TagMember(rs[..src], 0, x);
    HeadBelow(rs[x.src], x.rec);
  }

  lemma AfterIsNotBelow(rs: seq<seq<LogRecord>>, src: nat, x: Head)
    requires AllSorted(rs) && LeastHead(rs, src)
    requires x in Tag(rs[src][1..], src) + TagFrom(rs[src + 1..], src + 1)
    ensures RecLe(rs[src][0], x.rec)
  {
    RecOrder();
    if x in Tag(rs[src][1..], src) {
      assert x.rec in rs[src][1..];
      HeadBelow(rs[src], x.rec);
    } else {
      TagMember(rs[src + 1..], src + 1, x);
      HeadBelow(rs[x.src], x.rec);
    }
  }

  lemma {:induction false} NothingTagged(rs: seq<seq<LogRecord>>, base: nat)
    requires forall i :: 0 <= i < |rs| ==> rs[i] == []
    ensures TagFrom(rs, base) == []
    decreases |rs|
  {
    if rs != [] {
      NothingTagged(rs[1..], base + 1);
    }
  }

  function PendingOf(sources: seq<seq<seq<LogRecord>>>, batches: seq<seq<LogRecord>>, heads: map<nat, LogRecord>, i: nat): seq<LogRecord>
    requires i < |sources| && |batches| == |sources|
  {
    (if i in heads then [heads[i]] else []) + (batches[i] + Flatten(sources[i]))
  }

  function RestOf(sources: seq<seq<seq<LogRecord>>>, batches: seq<seq<LogRecord>>, heads: map<nat, LogRecord>): seq<seq<LogRecord>>
    requires |batches| == |sources|
  {
    seq(|sources|, i requires 0 <= i < |sources| => PendingOf(sources, batches, heads, i))
  }

  /** Popping a head shortens exactly that source. */
  lemma PopHead(sources: seq<seq<seq<LogRecord>>>, batches: seq<seq<LogRecord>>, heads: map<nat, LogRecord>, src: nat)
    requires |batches| == |sources| && src < |sources| && src in heads
    ensures var all := RestOf(sources, batches, heads);
            RestOf(sources, batches, heads - {src}) == all[src := all[src][1..]]
  {
    var all := RestOf(sources, batches, heads);
    assert all[src] == [heads[src]] + (batches[src] + Flatten(sources[src]));
    assert PendingOf(sources, batches, heads - {src}, src) == all[src][1..];
  }

  /**
   * The streaming merge: at most one head per source in the heap, one open
   * batch per source. The heap is kept as the head record of each source.
   */
  class KWayMerge {
    var sources: seq<seq<seq<LogRecord>>>
    var batches: seq<seq<LogRecord>>
    var heads: map<nat, LogRecord>
    var primed: bool

    /** What source i has yet to deliver. */
    ghost function Pending(i: nat): seq<LogRecord>
      reads this
      requires i < |sources| && |batches| == |sources|
    {
      PendingOf(sources, batches, heads, i)
    }

    ghost function Rest(): seq<seq<LogRecord>>
      reads this
      requires |batches| == |sources|
    {
      RestOf(sources, batches, heads)
    }

    ghost predicate Shape()
      reads this
    {
      |batches| == |sources| && forall i :: i in heads ==> i < |sources|
    }

    ghost predicate Exhausted(i: nat)
      reads this
      requires |batches| == |sources| && i < |sources|
    {
      batches[i] == [] && sources[i] == []
    }

    ghost predicate Valid()
      reads this
    {
      && Shape()
      && (!primed ==> heads == map[])
      && (primed ==> forall i :: 0 <= i < |sources| && i !in heads ==> Exhausted(i))
    }

    constructor (srcs: seq<seq<seq<LogRecord>>>)
      ensures Valid() && |sources| == |srcs| && forall i :: 0 <= i < |srcs| ==> Pending(i) == Flatten(srcs[i])
    {
      sources := srcs;
      batches := seq(|srcs|, _ => []);
      heads, primed := map[], false;
      new;
      assert forall i :: 0 <= i < |srcs| ==> [] + ([] + Flatten(srcs[i])) == Flatten(srcs[i]);
    }

    /** Give source src a head again, unless it has nothing left; empty batches are skipped. */
    method Refill(src: nat)
      requires Shape() && src < |sources| && src !in heads
      modifies this`sources, this`batches, this`heads
      ensures Shape() && |sources| == old(|sources|)
      ensures src in heads || Exhausted(src)
      ensures heads.Keys <= old(heads.Keys) + {src} && old(heads.Keys) <= heads.Keys
      ensures forall i :: 0 <= i < |sources| && i != src ==>
                batches[i] == old(batches[i]) && sources[i] == old(sources[i]) && (i in heads ==> heads[i] == old(heads)[i])
      ensures forall i :: 0 <= i < |sources| ==> Pending(i) == old(Pending(i))
    {
      ghost var was := Pending(src);
      while true
        invariant Shape() && |sources| == old(|sources|) && heads == old(heads)
        invariant Pending(src) == was
        invariant forall i :: 0 <= i < |sources| && i != src ==> batches[i] == old(batches[i]) && sources[i] == old(sources[i])
        decreases |sources[src]|, |batches[src]|
      {
        if batches[src] != [] {
          ghost var b := batches[src];
          heads := heads[src := batches[src][0]];
          batches := batches[src := batches[src][1..]];
          assert [b[0]] + (b[1..] + Flatten(sources[src])) == [] + (b + Flatten(sources[src]));
          break;
        }
        if sources[src] == [] {
          break;
        }
        ghost var s := sources[src];
        batches := batches[src := sources[src][0]];
        sources := sources[src := sources[src][1..]];
        assert [] + (s[0] + Flatten(s[1..])) == [] + ([] + Flatten(s));
      }
    }

    /** The source whose head is least by (timestamp, stream, source index). */
    method LeastSource() returns (src: nat)
      requires heads != map[]
      ensures src in heads
      ensures forall i :: i in heads && i < src ==> !RecLe(heads[i], heads[src])
      ensures forall i :: i in heads && i >= src ==> RecLe(heads[src], heads[i])
    {
      RecOrder();
      var rest := heads.Keys;
      src :| src in rest;
      rest := rest - {src};
      while rest != {}
        invariant rest <= heads.Keys && src in heads
        invariant forall i :: i in heads && i !in rest && i < src ==> !RecLe(heads[i], heads[src])
        invariant forall i :: i in heads && i !in rest && i >= src ==> RecLe(heads[src], heads[i])
        decreases |rest|
      {
        var i :| i in rest;
        rest := rest - {i};
        if !RecLe(heads[src], heads[i]) || (RecLe(heads[i], heads[src]) && i < src) {
          src := i;
        }
      }
    }

    /**
     * The next record of the merge with its source: exactly the next element
     * of the stable sort of what remains; None exactly when nothing remains.
     */
    method NextIndexed() returns (r: Option<Head>)
      requires Valid() && AllSorted(Rest())
      modifies this
      ensures Valid() && primed && |sources| == old(|sources|)
      ensures r.None? ==> TagAll(old(Rest())) == []
      ensures r.Some? ==> AllSorted(Rest())
      ensures r.Some? ==> StableSort(TagAll(old(Rest())), HeadLe) == [r.value] + StableSort(TagAll(Rest()), HeadLe)
    {
      if !primed {
        Prime();
      }
      ghost var all := Rest();
      if heads == map[] {
        NothingTagged(all, 0);
        return None;
      }
      var src := LeastSource();
      HeadsAreLeast(all, src);
      var rec := heads[src];
      PopHead(sources, batches, heads, src);
      LeastHeadFirst(all, src);
      TailSorted(all, src);
      PopAndRefill(src);
      return Some(Head(rec, src));
    }

    method PopAndRefill(src: nat)
      requires Valid() && primed && src in heads
      modifies this`sources, this`batches, this`heads
      ensures Valid() && |sources| == old(|sources|)
      ensures Rest() == RestOf(old(sources), old(batches), old(heads) - {src})
    {
      ghost var next := RestOf(sources, batches, heads - {src});
      heads := heads - {src};
      assert forall i :: 0 <= i < |sources| ==> Pending(i) == next[i];
      Refill(src);
      assert forall i :: 0 <= i < |sources| ==> Rest()[i] == Pending(i) == next[i];
    }

    method Prime()
      requires Valid() && !primed
      modifies this
      ensures Valid() && primed && |sources| == old(|sources|) && Rest() == old(Rest())
    {
      primed := true;
      for i := 0 to |sources|
        invariant Shape() && primed && |sources| == old(|sources|)
        invariant forall k :: k in heads ==> k < i
        invariant forall k :: 0 <= k < i && k !in heads ==> Exhausted(k)
        invariant forall k :: 0 <= k < |sources| ==> Pending(k) == old(Pending(k))
      {
        Refill(i);
      }
      assert forall k :: 0 <= k < |sources| ==> Rest()[k] == Pending(k);
      assert forall k :: 0 <= k < |sources| ==> Rest()[k] == old(Rest())[k];
    }

    lemma HeadsAreLeast(all: seq<seq<LogRecord>>, src: nat)
      requires Valid() && primed && all == Rest() && src in heads
      requires forall i :: i in heads && i < src ==> !RecLe(heads[i], heads[src])
      requires forall i :: i in heads && i >= src ==> RecLe(heads[src], heads[i])
      ensures LeastHead(all, src) && all[src][0] == heads[src]
      ensures all[src][1..] == batches[src] + Flatten(sources[src])
    {
      forall j | 0 <= j < |all| && all[j] != [] ensures j in heads && all[j][0] == heads[j] {
        assert all[j] == Pending(j);
      }
    }
  }

  lemma TailSorted(all: seq<seq<LogRecord>>, src: nat)
    requires AllSorted(all) && src < |all| && all[src] != []
    ensures AllSorted(all[src := all[src][1..]])
  {
    forall i, j | 0 <= i < j < |all[src][1..]| ensures RecLe(all[src][1..][i], all[src][1..][j]) {
      assert RecLe(all[src][i + 1], all[src][j + 1]);
    }
  }

  function FlattenEach(srcs: seq<seq<seq<LogRecord>>>): seq<seq<LogRecord>> {
    seq(|srcs|, i requires 0 <= i < |srcs| => Flatten(srcs[i]))
  }

  /**
   * The whole merge: for any sources whose concatenated batches are sorted,
   * however they are cut, the output is the stable sort of the tagged
   * concatenation of the sources.
   */
  method MergeAll(srcs: seq<seq<seq<LogRecord>>>) returns (out: seq<Head>)
    requires AllSorted(FlattenEach(srcs))
    ensures out == StableSort(TagAll(FlattenEach(srcs)), HeadLe)
  {
    var merge := new KWayMerge(srcs);
    ghost var spec := StableSort(TagAll(FlattenEach(srcs)), HeadLe);
    assert merge.Rest() == FlattenEach(srcs);
    out := [];
    while true
      invariant merge.Valid() && fresh(merge) && AllSorted(merge.Rest())
      invariant spec == out + StableSort(TagAll(merge.Rest()), HeadLe)
      decreases |spec| - |out|
    {
      ghost var before := StableSort(TagAll(merge.Rest()), HeadLe);
      var next := merge.NextIndexed();
      if next.None? {
        assert before == [];
        break;
      }
      Assoc(out, [next.value], StableSort(TagAll(merge.Rest()), HeadLe));
      out := out + [next.value];
    }
  }
}
