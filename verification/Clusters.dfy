/** Grouping a chunk's frames into decode units whose time ranges do not overlap. */
module Clusters {
  import opened Common
  import opened Sorting

  datatype FrameSpan = FrameSpan(frameIdx: nat, byteStart: nat, byteEnd: nat, originalSize: nat)

  /** A frame with its inclusive time range. */
  datatype Timed = Timed(span: FrameSpan, minTs: int, maxTs: int)

  predicate TimedLe(a: Timed, b: Timed) {
    a.minTs < b.minTs || (a.minTs == b.minTs && a.span.frameIdx <= b.span.frameIdx)
  }

  lemma TimedOrder()
    ensures TotalPreorder(TimedLe)
  {
  }

  predicate Overlap(a: Timed, b: Timed) {
    a.minTs <= b.maxTs && b.minTs <= a.maxTs
  }

  ghost predicate Proper(s: seq<Timed>) {
    forall i :: 0 <= i < |s| ==> s[i].minTs <= s[i].maxTs
  }

  function MaxOf(c: seq<Timed>): int
    requires c != []
  {
    if |c| == 1 then c[0].maxTs else Max(MaxOf(c[..|c| - 1]), c[|c| - 1].maxTs)
  }

  /** The grouping pass over frames in (min, index) order. */
  function Group(s: seq<Timed>): (g: seq<seq<Timed>>)
    ensures [] !in g
  {
    if s == [] then []
    else
      var g, x := Group(s[..|s| - 1]), s[|s| - 1];
      if g != [] && x.minTs <= MaxOf(g[|g| - 1]) then g[..|g| - 1] + [g[|g| - 1] + [x]]
      else g + [[x]]
  }

  function Spans(c: seq<Timed>): seq<FrameSpan> {
    seq(|c|, i requires 0 <= i < |c| => c[i].span)
  }

  function AllSpans(g: seq<seq<Timed>>): seq<seq<FrameSpan>> {
    seq(|g|, i requires 0 <= i < |g| => Spans(g[i]))
  }

  /** The clustering loop: keep the running maximum of the open cluster. */
  method ClusterSpans(spans: seq<Timed>) returns (out: seq<seq<FrameSpan>>, ghost g: seq<seq<Timed>>)
    ensures g == Group(StableSort(spans, TimedLe))
    ensures out == AllSpans(Group(StableSort(spans, TimedLe)))
  {
    hide StableSort;
    var sorted := StableSort(spans, TimedLe);
    out, g := [], [];
    var clusterMax := 0;
    for i := 0 to |sorted|
      invariant g == Group(sorted[..i]) && |out| == |g|
      invariant out == AllSpans(g)
      invariant g != [] ==> clusterMax == MaxOf(g[|g| - 1])
    {
      hide MaxOf, Group, AllSpans;
      var x := sorted[i];
      GroupStep(sorted, i);
      if out != [] && x.minTs <= clusterMax {
        ghost var last := g[|g| - 1];
        GrowSpans(g, x);
        MaxSnoc(last, x);
        out := out[..|out| - 1] + [out[|out| - 1] + [x.span]];
        g := g[..|g| - 1] + [last + [x]];
        clusterMax := Max(clusterMax, x.maxTs);
      } else {
        AddSpans(g, x);
        MaxSingle(x);
        out := out + [[x.span]];
        g := g + [[x]];
        clusterMax := x.maxTs;
      }
    }
    assert sorted[..|sorted|] == sorted;
  }

  lemma GroupStep(s: seq<Timed>, i: nat)
    requires i < |s|
    ensures var g, x := Group(s[..i]), s[i];
            Group(s[..i + 1]) ==
            if g != [] && x.minTs <= MaxOf(g[|g| - 1]) then g[..|g| - 1] + [g[|g| - 1] + [x]] else g + [[x]]
    ensures |AllSpans(Group(s[..i]))| == |Group(s[..i])|
  {
    assert s[..i + 1][..i] == s[..i];
  }

  lemma MaxSingle(x: Timed)
    ensures MaxOf([x]) == x.maxTs
  {
  }

  lemma GrowSpans(g: seq<seq<Timed>>, x: Timed)
    requires g != []
    ensures var last := |g| - 1;
            AllSpans(g[..last] + [g[last] + [x]]) == AllSpans(g)[..last] + [AllSpans(g)[last] + [x.span]]
  {
    var last := |g| - 1;
    assert Spans(g[last] + [x]) == Spans(g[last]) + [x.span];
  }

  lemma AddSpans(g: seq<seq<Timed>>, x: Timed)
    ensures AllSpans(g + [[x]]) == AllSpans(g) + [[x.span]]
  {
    assert Spans([x]) == [x.span];
  }

  lemma MaxSnoc(c: seq<Timed>, x: Timed)
    requires c != []
    ensures MaxOf(c + [x]) == Max(MaxOf(c), x.maxTs)
  {
    assert (c + [x])[..|c|] == c;
  }

  lemma {:induction false} MaxAttained(c: seq<Timed>) returns (k: nat)
    requires c != []
    ensures k < |c| && c[k].maxTs == MaxOf(c)
    ensures forall i :: 0 <= i < |c| ==> c[i].maxTs <= MaxOf(c)
  {
    k := |c| - 1;
    if |c| > 1 {
      var init := c[..|c| - 1];
      var j := MaxAttained(init);
      assert forall i :: 0 <= i < |init| ==> c[i] == init[i];
      if init[j].maxTs >= c[|c| - 1].maxTs {
        k := j;
      }
    }
  }

  // ----- The clusters partition the frames -----

  lemma {:induction false} GroupFlattens(s: seq<Timed>)
    ensures Flatten(Group(s)) == s
  {
    if s != [] {
      hide Flatten, MaxOf;
      var n := |s| - 1;
      var g, x := Group(s[..n]), s[n];
      GroupFlattens(s[..n]);
      TakeSnoc(s, n);
      TakeAll(s);
      if g != [] && x.minTs <= MaxOf(g[|g| - 1]) {
        var front, last := g[..|g| - 1], g[|g| - 1];
        TakeSnoc(g, |g| - 1);
        TakeAll(g);
        FlattenSnoc(front, last);
        FlattenSnoc(front, last + [x]);
        Assoc(Flatten(front), last, [x]);
      } else {
        FlattenSnoc(g, [x]);
      }
    }
  }

  // ----- Later clusters are strictly later -----

  /** Every timestamp of an earlier cluster is below every timestamp of a later one. */
  ghost predicate Separated(g: seq<seq<Timed>>) {
    forall i, j, a, b :: 0 <= i < j < |g| && a in g[i] && b in g[j] ==> a.maxTs < b.minTs
  }

  /** Earlier clusters end before the last one begins. */
  ghost predicate EndsBefore(g: seq<seq<Timed>>) {
    g != [] && g[|g| - 1] != [] ==> forall i, a :: 0 <= i < |g| - 1 && a in g[i] ==> a.maxTs < g[|g| - 1][0].minTs
  }

  lemma {:induction false} GroupSeparated(s: seq<Timed>)
    requires Sorted(s, TimedLe)
    ensures Separated(Group(s)) && EndsBefore(Group(s))
  {
    if s != [] {
      hide Separated, EndsBefore;
      var init, x := s[..|s| - 1], s[|s| - 1];
      assert s == init + [x];
      var g := Group(init);
      GroupSeparated(init);
      GroupFlattens(init);
      if g == [] {
        OneCluster(x);
      } else if x.minTs <= MaxOf(g[|g| - 1]) {
        GrowSeparated(init, g, x);
      } else {
        NewSeparated(init, g, x);
      }
    } else {
      assert Group(s) == [];
    }
  }

  lemma OneCluster(x: Timed)
    ensures Separated([] + [[x]]) && EndsBefore([] + [[x]])
  {
  }

  lemma FirstOfLast(s: seq<Timed>, g: seq<seq<Timed>>, x: Timed)
    requires Sorted(s + [x], TimedLe) && Flatten(g) == s && g != [] && [] !in g
    ensures g[|g| - 1] != [] && g[|g| - 1][0].minTs <= x.minTs
  {
    hide Flatten;
    var n := |g| - 1;
    var last := g[n];
    assert last in g;
    TakeSnoc(g, n);
    TakeAll(g);
    FlattenSnoc(g[..n], last);
    var k := |Flatten(g[..n])|;
    assert (s + [x])[k] == s[k] == last[0] && (s + [x])[|s|] == x;
    assert TimedLe((s + [x])[k], (s + [x])[|s|]);
  }

  lemma GrowSeparated(s: seq<Timed>, g: seq<seq<Timed>>, x: Timed)
    requires Sorted(s + [x], TimedLe) && Flatten(g) == s && g != [] && [] !in g
    requires Separated(g) && EndsBefore(g)
    ensures var h := g[..|g| - 1] + [g[|g| - 1] + [x]]; Separated(h) && EndsBefore(h)
  {
    FirstOfLast(s, g, x);
    var n := |g| - 1;
    var h := g[..n] + [g[n] + [x]];
    forall i, j, a: Timed, b: Timed | 0 <= i < j < |h| && a in h[i] && b in h[j] ensures a.maxTs < b.minTs {
      assert h[i] == g[i];
      if j == n && b !in g[n] {
        assert b == x;
      }
    }
    assert h[n][0] == g[n][0];
  }

  lemma NewSeparated(s: seq<Timed>, g: seq<seq<Timed>>, x: Timed)
    requires Sorted(s + [x], TimedLe) && Flatten(g) == s && g != [] && [] !in g
    requires Separated(g) && EndsBefore(g) && x.minTs > MaxOf(g[|g| - 1])
    ensures Separated(g + [[x]]) && EndsBefore(g + [[x]])
  {
    AllBelow(s, g, x);
    hide Sorted, Flatten, MaxOf;
    var h := g + [[x]];
    forall i, j, a: Timed, b: Timed | 0 <= i < j < |h| && a in h[i] && b in h[j] ensures a.maxTs < b.minTs {
      assert h[i] == g[i];
      if j == |g| {
        assert b == x;
      } else {
        assert h[j] == g[j];
      }
    }
    assert h[|h| - 1] == [x];
    forall i, a: Timed | 0 <= i < |h| - 1 && a in h[i] ensures a.maxTs < x.minTs {
      assert h[i] == g[i];
    }
  }

  lemma AllBelow(s: seq<Timed>, g: seq<seq<Timed>>, x: Timed)
    requires Sorted(s + [x], TimedLe) && Flatten(g) == s && g != [] && [] !in g
    requires EndsBefore(g) && x.minTs > MaxOf(g[|g| - 1])
    ensures forall i, a :: 0 <= i < |g| && a in g[i] ==> a.maxTs < x.minTs
  {
    FirstOfLast(s, g, x);
    hide Sorted, Flatten, MaxOf;
    var n := |g| - 1;
    forall i, a: Timed | 0 <= i < |g| && a in g[i] ensures a.maxTs < x.minTs {
      if i == n {
        MaxBounds(g[n], a);
      } else {
        assert a.maxTs < g[n][0].minTs;
      }
    }
  }

  lemma MaxBounds(c: seq<Timed>, a: Timed)
    requires a in c
    ensures c != [] && a.maxTs <= MaxOf(c)
  {
    hide MaxOf;
    var k := MaxAttained(c);
    var m :| 0 <= m < |c| && c[m] == a;
  }

  // ----- Each cluster is connected -----

  /** Each frame of a cluster but the first overlaps an earlier one. */
  ghost predicate Linked(c: seq<Timed>) {
    forall k :: 0 < k < |c| ==> exists j :: 0 <= j < k && Overlap(c[j], c[k])
  }

  lemma {:induction false} GroupLinked(s: seq<Timed>)
    requires Sorted(s, TimedLe) && Proper(s)
    ensures forall i :: 0 <= i < |Group(s)| ==> Linked(Group(s)[i])
  {
    if s != [] {
      InitInOrder(s);
      hide Linked, Sorted, Proper, Flatten, MaxOf;
      var init, x := s[..|s| - 1], s[|s| - 1];
      var g := Group(init);
      GroupLinked(init);
      GroupFlattens(init);
      if g != [] && x.minTs <= MaxOf(g[|g| - 1]) {
        LinkedSnoc(init, g, x);
        forall i | 0 <= i < |Group(s)| ensures Linked(Group(s)[i]) {
          assert i < |g| - 1 ==> Group(s)[i] == g[i];
        }
      } else {
        OneLinked(x);
        forall i | 0 <= i < |Group(s)| ensures Linked(Group(s)[i]) {
          assert i < |g| ==> Group(s)[i] == g[i];
        }
      }
    }
  }

  lemma InitInOrder(s: seq<Timed>)
    requires s != [] && Sorted(s, TimedLe) && Proper(s)
    ensures var init, x := s[..|s| - 1], s[|s| - 1];
            s == init + [x] && Sorted(init, TimedLe) && Proper(init) && x.minTs <= x.maxTs
  {
  }

  lemma OneLinked(x: Timed)
    ensures Linked([x])
  {
  }

  lemma LinkedSnoc(s: seq<Timed>, g: seq<seq<Timed>>, x: Timed)
    requires Sorted(s + [x], TimedLe) && Flatten(g) == s && g != [] && [] !in g && x.minTs <= x.maxTs
    requires Linked(g[|g| - 1]) && x.minTs <= MaxOf(g[|g| - 1])
    ensures Linked(g[|g| - 1] + [x])
  {
    var c := g[|g| - 1];
    var m := LastOverlaps(s, g, x);
    var d := c + [x];
    forall k | 0 < k < |d| ensures exists j :: 0 <= j < k && Overlap(d[j], d[k]) {
      if k < |c| {
        var j :| 0 <= j < k && Overlap(c[j], c[k]);
        assert Overlap(d[j], d[k]);
      } else {
        assert Overlap(d[m], d[k]);
      }
    }
  }

  lemma LastOverlaps(s: seq<Timed>, g: seq<seq<Timed>>, x: Timed) returns (m: nat)
    requires Sorted(s + [x], TimedLe) && Flatten(g) == s && g != [] && [] !in g && x.minTs <= x.maxTs
    requires x.minTs <= MaxOf(g[|g| - 1])
    ensures m < |g[|g| - 1]| && Overlap(g[|g| - 1][m], x)
  {
    var c := g[|g| - 1];
    assert c in g;
    m := MaxAttained(c);
    assert g == g[..|g| - 1] + [c];
    FlattenSnoc(g[..|g| - 1], c);
    var at := |Flatten(g[..|g| - 1])| + m;
    assert (s + [x])[at] == c[m] && (s + [x])[|s|] == x;
  }

  // ----- Clusters are the connected components of the overlap graph -----

  /** A walk through frames of s, each overlapping the next. */
  ghost predicate Walk(s: seq<Timed>, p: seq<Timed>) {
    && p != [] && (forall i :: 0 <= i < |p| ==> p[i] in s)
    && (forall i :: 0 <= i < |p| - 1 ==> Overlap(p[i], p[i + 1]))
  }

  ghost predicate Connected(s: seq<Timed>, a: Timed, b: Timed) {
    exists p :: Walk(s, p) && p[0] == a && p[|p| - 1] == b
  }

  lemma ConnectedVia(s: seq<Timed>, a: Timed, b: Timed, c: Timed)
    requires Connected(s, a, b) && Connected(s, b, c)
    ensures Connected(s, a, c)
  {
    var p :| Walk(s, p) && p[0] == a && p[|p| - 1] == b;
    var q :| Walk(s, q) && q[0] == b && q[|q| - 1] == c;
    var r := p + q[1..];
    forall i | 0 <= i < |r| - 1 ensures Overlap(r[i], r[i + 1]) {
      if i < |p| - 1 {
        assert r[i] == p[i] && r[i + 1] == p[i + 1];
      } else {
        assert r[i] == q[i - |p| + 1] && r[i + 1] == q[i - |p| + 2];
      }
    }
    assert Walk(s, r);
    assert r[0] == a && r[|r| - 1] == c;
  }

  lemma ConnectedEdge(s: seq<Timed>, a: Timed, b: Timed)
    requires a in s && b in s && Overlap(a, b)
    ensures Connected(s, a, b)
  {
    var p := [a, b];
    assert Walk(s, p) && p[0] == a && p[|p| - 1] == b;
  }

  lemma {:induction false} LinkedReachesFirst(s: seq<Timed>, c: seq<Timed>, k: nat)
    requires Linked(c) && k < |c| && (forall x :: x in c ==> x in s) && Proper(s)
    ensures Connected(s, c[k], c[0]) && Connected(s, c[0], c[k])
    decreases k
  {
    if k == 0 {
      assert c[0] in c;
      var i :| 0 <= i < |s| && s[i] == c[0];
      ConnectedEdge(s, c[0], c[0]);
    } else {
      var j :| 0 <= j < k && Overlap(c[j], c[k]);
      LinkedReachesFirst(s, c, j);
      assert c[j] in c && c[k] in c;
      ConnectedEdge(s, c[k], c[j]);
      ConnectedEdge(s, c[j], c[k]);
      ConnectedVia(s, c[k], c[j], c[0]);
      ConnectedVia(s, c[0], c[j], c[k]);
    }
  }

  lemma WalkTail(s: seq<Timed>, p: seq<Timed>)
    requires Walk(s, p) && |p| > 1
    ensures Walk(s, p[1..])
  {
    var q := p[1..];
    forall k | 0 <= k < |q| - 1 ensures Overlap(q[k], q[k + 1]) {
      assert q[k] == p[k + 1] && q[k + 1] == p[k + 1 + 1];
    }
  }

  /** A walk never leaves the cluster it starts in. */
  lemma {:induction false} WalkStays(s: seq<Timed>, g: seq<seq<Timed>>, i: nat, p: seq<Timed>)
    requires Separated(g) && Flatten(g) == s && Walk(s, p) && i < |g| && p[0] in g[i]
    ensures p[|p| - 1] in g[i]
    decreases |p|
  {
    if |p| > 1 {
      var b := p[1];
      assert b in s;
      FlattenMember(g, b);
      var j :| 0 <= j < |g| && b in g[j];
      assert Overlap(p[0], p[1]);
      assert i == j;
      WalkTail(s, p);
      WalkStays(s, g, i, p[1..]);
    }
  }

  /** s and g as the clustering pass leaves them. */
  ghost predicate Clustering(spans: seq<Timed>, g: seq<seq<Timed>>) {
    g == Group(StableSort(spans, TimedLe))
  }

  /** Everything the read path relies on: a partition, strictly ordered in time. */
  lemma ClustersPartition(spans: seq<Timed>, g: seq<seq<Timed>>)
    requires Clustering(spans, g)
    ensures multiset(Flatten(g)) == multiset(spans)
    ensures [] !in g && Separated(g)
  {
    TimedOrder();
    StableSortSorts(spans, TimedLe);
    GroupFlattens(StableSort(spans, TimedLe));
    GroupSeparated(StableSort(spans, TimedLe));
  }

  /** Two frames share a cluster exactly when a chain of overlapping frames joins them. */
  lemma ClustersAreComponents(spans: seq<Timed>, g: seq<seq<Timed>>, i: nat, a: Timed, b: Timed)
    requires Proper(spans) && Clustering(spans, g) && i < |g| && a in g[i]
    ensures b in g[i] <==> Connected(Flatten(g), a, b)
  {
    TimedOrder();
    var s := StableSort(spans, TimedLe);
    StableSortSorts(spans, TimedLe);
    ProperPermutes(spans, s);
    GroupFlattens(s);
    GroupSeparated(s);
    GroupLinked(s);
    if b in g[i] {
      var ka :| 0 <= ka < |g[i]| && g[i][ka] == a;
      var kb :| 0 <= kb < |g[i]| && g[i][kb] == b;
      forall x | x in g[i] ensures x in s {
        FlattenMember(g, x);
      }
      LinkedReachesFirst(s, g[i], ka);
      LinkedReachesFirst(s, g[i], kb);
      ConnectedVia(s, a, g[i][0], b);
    }
    if Connected(s, a, b) {
      var p :| Walk(s, p) && p[0] == a && p[|p| - 1] == b;
      WalkStays(s, g, i, p);
    }
  }

  lemma ProperPermutes(s: seq<Timed>, t: seq<Timed>)
    requires Proper(s) && multiset(s) == multiset(t)
    ensures Proper(t)
  {
    forall i | 0 <= i < |t| ensures t[i].minTs <= t[i].maxTs {
      assert t[i] in multiset(s);
      var k :| 0 <= k < |s| && s[k] == t[i];
    }
  }
}
