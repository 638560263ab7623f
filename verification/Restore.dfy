/**
 * Re-ingest batching: the streaming batcher, the reference split over a whole
 * slice, and what both promise about PutLogEvents limits.
 */
module Restore {
  import opened Common

  const MAX_BATCH_EVENTS: nat := 10_000
  const MAX_BATCH_BYTES: nat := 1_048_576
  const EVENT_OVERHEAD_BYTES: nat := 26
  const MAX_BATCH_SPAN_MS: int := 86_400_000

  /** One event headed for PutLogEvents; the message is its UTF-8 bytes. */
  datatype BatchEvent = BatchEvent(timestamp: I64, message: seq<byte>)

  function EventCost(message: seq<byte>): nat {
    |message| + EVENT_OVERHEAD_BYTES
  }

  function Cost(es: seq<BatchEvent>): nat {
    if es == [] then 0 else Cost(es[..|es| - 1]) + EventCost(es[|es| - 1].message)
  }

  lemma CostSnoc(es: seq<BatchEvent>, ev: BatchEvent)
    ensures Cost(es + [ev]) == Cost(es) + EventCost(ev.message)
  {
    assert (es + [ev])[..|es|] == es;
  }

  ghost predicate TimeOrdered(es: seq<BatchEvent>) {
    forall i, j :: 0 <= i < j < |es| ==> es[i].timestamp <= es[j].timestamp
  }

  ghost predicate NoneOversized(es: seq<BatchEvent>) {
    forall i :: 0 <= i < |es| ==> EventCost(es[i].message) <= MAX_BATCH_BYTES
  }

  /** What the API accepts as one batch: count, bytes, and time span between any two events. */
  ghost predicate WithinLimits(b: seq<BatchEvent>) {
    && 0 < |b| <= MAX_BATCH_EVENTS
    && Cost(b) <= MAX_BATCH_BYTES
    && forall i, j :: 0 <= i < |b| && 0 <= j < |b| ==> b[j].timestamp - b[i].timestamp <= MAX_BATCH_SPAN_MS
  }

  /** UTF-8 bytes of the messages. */
  function TextBytes(es: seq<BatchEvent>): nat {
    if es == [] then 0 else |es[0].message| + TextBytes(es[1..])
  }

  lemma {:induction false} TextSnoc(es: seq<BatchEvent>, ev: BatchEvent)
    ensures TextBytes(es + [ev]) == TextBytes(es) + |ev.message|
  {
    if es == [] {
      assert (es + [ev])[1..] == [];
    } else {
      TextSnoc(es[1..], ev);
      assert (es + [ev])[0] == es[0] && (es + [ev])[1..] == es[1..] + [ev];
    }
  }

  lemma {:induction false} CostIs(es: seq<BatchEvent>)
    ensures Cost(es) == TextBytes(es) + 26 * |es|
  {
    if es != [] {
      var n := |es| - 1;
      CostIs(es[..n]);
      TextSnoc(es[..n], es[n]);
      TakeSnoc(es, n);
      TakeAll(es);
    }
  }

  /** The limits of PutLogEvents: 10,000 events, 1 MiB of text and 26 bytes an event, 24 hours. */
  lemma LimitsAre(b: seq<BatchEvent>)
    ensures WithinLimits(b) <==>
            && 0 < |b| <= 10_000 && TextBytes(b) + 26 * |b| <= 1_048_576
            && forall i, j :: 0 <= i < |b| && 0 <= j < |b| ==> b[j].timestamp - b[i].timestamp <= 86_400_000
  {
    hide Cost;
    CostIs(b);
  }

  /** A contiguous split of the events into acceptable batches. */
  ghost predicate LegalSplit(bs: seq<seq<BatchEvent>>, es: seq<BatchEvent>) {
    Flatten(bs) == es && forall i :: 0 <= i < |bs| ==> WithinLimits(bs[i])
  }

  /** The event does not fit behind a non-empty batch. */
  predicate Overflows(batch: seq<BatchEvent>, bytes: nat, ev: BatchEvent) {
    && batch != []
    && (|batch| >= MAX_BATCH_EVENTS
        || bytes + EventCost(ev.message) > MAX_BATCH_BYTES
        || Saturate(ev.timestamp - batch[0].timestamp) > MAX_BATCH_SPAN_MS)
  }

  /** The batches completed so far and the open one, after feeding es in order. */
  datatype Progress = Progress(done: seq<seq<BatchEvent>>, open: seq<BatchEvent>)
  {
    function All(): seq<seq<BatchEvent>> {
      if open == [] then done else done + [open]
    }
  }

  function Greedy(es: seq<BatchEvent>): Progress {
    if es == [] then Progress([], [])
    else
      Step(Greedy(es[..|es| - 1]), es[|es| - 1])
  }

  function Step(p: Progress, ev: BatchEvent): Progress {
    if Overflows(p.open, Cost(p.open), ev) then Progress(p.done + [p.open], [ev])
    else Progress(p.done, p.open + [ev])
  }

  /** Streaming batcher: one open batch and its byte count, updated per event. */
  class EventBatcher {
    var batch: seq<BatchEvent>
    var bytes: nat

    ghost predicate Valid()
      reads this
    {
      bytes == Cost(batch)
    }

    constructor ()
      ensures Valid() && batch == []
    {
      batch, bytes := [], 0;
    }

    method Push(ev: BatchEvent) returns (out: Option<seq<BatchEvent>>)
      requires Valid()
      modifies this
      ensures Valid()
      ensures out.Some? <==> Overflows(old(batch), Cost(old(batch)), ev)
      ensures out.Some? ==> out.value == old(batch) && batch == [ev]
      ensures out.None? ==> batch == old(batch) + [ev]
    {
      hide Cost;
      GreedyEmpty();
      var cost := EventCost(ev.message);
      var full := batch != []
                  && (|batch| >= MAX_BATCH_EVENTS
                      || bytes + cost > MAX_BATCH_BYTES
                      || Saturate(ev.timestamp - batch[0].timestamp) > MAX_BATCH_SPAN_MS);
      out := None;
      if full {
        bytes := 0;
        out := Some(batch);
        batch := [];
      }
      CostSnoc(batch, ev);
      bytes := bytes + cost;
      batch := batch + [ev];
    }

    /** The final partial batch, if any. */
    method Finish() returns (out: Option<seq<BatchEvent>>)
      ensures out == if batch == [] then None else Some(batch)
    {
      out := if batch != [] then Some(batch) else None;
    }
  }

  lemma GreedyEmpty()
    ensures Greedy([]) == Progress([], []) && Cost([]) == 0
  {
  }

  lemma GreedyStep(es: seq<BatchEvent>, i: nat)
    requires i < |es|
    ensures Greedy(es[..i + 1]) == Step(Greedy(es[..i]), es[i])
  {
    assert es[..i + 1][..i] == es[..i];
  }

  /** Feed every event through the streaming batcher and collect its batches. */
  method DriveBatcher(events: seq<BatchEvent>) returns (out: seq<seq<BatchEvent>>)
    ensures out == Greedy(events).All()
  {
    var b := new EventBatcher();
    out := [];
    for i := 0 to |events|
      invariant b.Valid() && fresh(b)
      invariant Greedy(events[..i]) == Progress(out, b.batch)
    {
      GreedyStep(events, i);
      var full := b.Push(events[i]);
      if full.Some? {
        out := out + [full.value];
      }
    }
    assert events[..|events|] == events;
    var rest := b.Finish();
    if rest.Some? {
      out := out + [rest.value];
    }
  }

  datatype Range = Range(start: nat, end: nat)

  /** The slices a list of index ranges denotes. */
  function Slices(events: seq<BatchEvent>, rs: seq<Range>): seq<seq<BatchEvent>>
    requires forall i :: 0 <= i < |rs| ==> rs[i].start <= rs[i].end <= |events|
  {
    seq(|rs|, i requires 0 <= i < |rs| => events[rs[i].start..rs[i].end])
  }

  lemma SlicesSnoc(events: seq<BatchEvent>, rs: seq<Range>, r: Range)
    requires forall i :: 0 <= i < |rs| ==> rs[i].start <= rs[i].end <= |events|
    requires r.start <= r.end <= |events|
    ensures Slices(events, rs + [r]) == Slices(events, rs) + [events[r.start..r.end]]
  {
  }

  lemma SliceGrows(events: seq<BatchEvent>, start: nat, i: nat)
    requires start <= i < |events|
    ensures events[start..i + 1] == events[start..i] + [events[i]]
    ensures Cost(events[start..i + 1]) == Cost(events[start..i]) + EventCost(events[i].message)
  {
    assert events[start..i + 1] == events[start..i] + [events[i]];
    CostSnoc(events[start..i], events[i]);
  }

  /** The ranges and open start of the reference split denote the greedy progress on the first i events. */
  ghost predicate Denotes(events: seq<BatchEvent>, i: nat, out: seq<Range>, start: nat, bytes: nat) {
    && start <= i <= |events| && (start == i ==> i == 0)
    && (forall k :: 0 <= k < |out| ==> out[k].start < out[k].end <= |events|)
    && Greedy(events[..i]) == Progress(Slices(events, out), events[start..i])
    && bytes == Cost(events[start..i])
  }

  lemma DenotesStep(events: seq<BatchEvent>, i: nat, out: seq<Range>, start: nat, bytes: nat)
    requires i < |events| && Denotes(events, i, out, start, bytes)
    ensures if Overflows(events[start..i], bytes, events[i])
            then Denotes(events, i + 1, out + [Range(start, i)], i, EventCost(events[i].message))
            else Denotes(events, i + 1, out, start, bytes + EventCost(events[i].message))
  {
    hide Greedy, Cost;
    GreedyEmpty();
    GreedyStep(events, i);
    SliceGrows(events, start, i);
    SliceGrows(events, i, i);
    SlicesSnoc(events, out, Range(start, i));
  }

  /** The reference split over a materialized slice denotes the same batches. */
  method SplitBatches(events: seq<BatchEvent>) returns (out: seq<Range>)
    ensures forall i :: 0 <= i < |out| ==> out[i].start < out[i].end <= |events|
    ensures Slices(events, out) == Greedy(events).All()
  {
    hide Greedy, Cost;
    GreedyEmpty();
    out := [];
    var start: nat, bytes: nat := 0, 0;
    assert events[..0] == [];
    for i := 0 to |events|
      invariant Denotes(events, i, out, start, bytes)
    {
      DenotesStep(events, i, out, start, bytes);
      var cost := EventCost(events[i].message);
      var count := i - start;
      var tooMany := count >= MAX_BATCH_EVENTS;
      var tooBig := bytes + cost > MAX_BATCH_BYTES;
      var tooWide := count > 0 && Saturate(events[i].timestamp - events[start].timestamp) > MAX_BATCH_SPAN_MS;
      if count > 0 && (tooMany || tooBig || tooWide) {
        out := out + [Range(start, i)];
        start := i;
        bytes := 0;
      }
      bytes := bytes + cost;
    }
    assert events[..|events|] == events;
    if start < |events| {
      SlicesSnoc(events, out, Range(start, |events|));
      out := out + [Range(start, |events|)];
    }
  }

  // ----- What the batches promise -----

  lemma {:induction false} CostAppend(a: seq<BatchEvent>, b: seq<BatchEvent>)
    ensures Cost(a + b) == Cost(a) + Cost(b)
    decreases |b|
  {
    if b == [] {
      assert a + b == a;
    } else {
      CostAppend(a, b[..|b| - 1]);
      assert (a + b)[..|a + b| - 1] == a + b[..|b| - 1];
    }
  }

  lemma StepCovers(p: Progress, ev: BatchEvent)
    ensures Flatten(Step(p, ev).done) + Step(p, ev).open == Flatten(p.done) + p.open + [ev]
  {
    FlattenSnoc(p.done, p.open);
    Assoc(Flatten(p.done), p.open, [ev]);
  }

  /** The batches concatenate to the input and the open one ends it. */
  lemma {:induction false} GreedyCovers(es: seq<BatchEvent>)
    ensures var p := Greedy(es);
            Flatten(p.done) + p.open == es && (es != [] ==> p.open != [])
  {
    if es == [] {
      GreedyEmpty();
    } else {
      hide Cost, Overflows, Greedy, Flatten;
      var n := |es| - 1;
      GreedyCovers(es[..n]);
      StepCovers(Greedy(es[..n]), es[n]);
      GreedyStep(es, n);
      TakeSnoc(es, n);
      TakeAll(es);
    }
  }

  lemma SuffixOrdered(a: seq<BatchEvent>, b: seq<BatchEvent>)
    requires TimeOrdered(a + b)
    ensures TimeOrdered(b)
  {
    forall i, j | 0 <= i < j < |b| ensures b[i].timestamp <= b[j].timestamp {
      assert (a + b)[|a| + i] == b[i] && (a + b)[|a| + j] == b[j];
    }
  }

  lemma ExtendWithinLimits(b: seq<BatchEvent>, ev: BatchEvent)
    requires b == [] || WithinLimits(b)
    requires TimeOrdered(b + [ev]) && EventCost(ev.message) <= MAX_BATCH_BYTES
    requires !Overflows(b, Cost(b), ev)
    ensures WithinLimits(b + [ev])
  {
    CostSnoc(b, ev);
    NothingCosts();
    hide Cost;
    var n := b + [ev];
    forall i, j | 0 <= i < |n| && 0 <= j < |n| ensures n[j].timestamp - n[i].timestamp <= MAX_BATCH_SPAN_MS {
      assert i < |b| ==> n[i] == b[i];
      assert j < |b| ==> n[j] == b[j];
      if j == |b| && i < |b| {
        assert n[0] == b[0] && (i > 0 ==> n[0].timestamp <= n[i].timestamp);
      }
    }
  }

  lemma NothingCosts()
    ensures Cost([]) == 0
  {
  }

  ghost predicate Sound(p: Progress) {
    (forall i :: 0 <= i < |p.done| ==> WithinLimits(p.done[i])) && (p.open == [] || WithinLimits(p.open))
  }

  lemma StepSound(p: Progress, ev: BatchEvent)
    requires Sound(p) && TimeOrdered(p.open + [ev]) && EventCost(ev.message) <= MAX_BATCH_BYTES
    ensures Sound(Step(p, ev))
  {
    hide WithinLimits, Cost;
    if Overflows(p.open, Cost(p.open), ev) {
      SuffixOrdered(p.open, [ev]);
      assert [] + [ev] == [ev];
      ExtendWithinLimits([], ev);
    } else {
      ExtendWithinLimits(p.open, ev);
    }
  }

  /** Every batch respects the count, byte and span limits. */
  lemma {:induction false} GreedyWithinLimits(es: seq<BatchEvent>)
    requires TimeOrdered(es) && NoneOversized(es)
    ensures Sound(Greedy(es))
  {
    if es == [] {
      GreedyEmpty();
    } else {
      hide WithinLimits, Cost, Overflows, Greedy, Step, Flatten, Sound;
      var n := |es| - 1;
      var init, ev := es[..n], es[n];
      GreedyWithinLimits(init);
      GreedyCovers(init);
      var p := Greedy(init);
      TakeSnoc(es, n);
      TakeAll(es);
      Assoc(Flatten(p.done), p.open, [ev]);
      SuffixOrdered(Flatten(p.done), p.open + [ev]);
      StepSound(p, ev);
      GreedyStep(es, n);
    }
  }

  /** Part of an acceptable batch is acceptable. */
  lemma SubBatch(b: seq<BatchEvent>, lo: nat, hi: nat)
    requires WithinLimits(b) && lo < hi <= |b|
    ensures WithinLimits(b[lo..hi])
  {
    hide Cost;
    assert b == b[..lo] + b[lo..hi] + b[hi..];
    CostAppend(b[..lo] + b[lo..hi], b[hi..]);
    CostAppend(b[..lo], b[lo..hi]);
    var c := b[lo..hi];
    forall i, j | 0 <= i < |c| && 0 <= j < |c| ensures c[j].timestamp - c[i].timestamp <= MAX_BATCH_SPAN_MS {
      assert c[i] == b[lo + i] && c[j] == b[lo + j];
    }
  }

  /** A batch that takes one more event than the greedy batch would break a limit. */
  lemma OverflowIsForced(b: seq<BatchEvent>, ev: BatchEvent)
    requires Overflows(b, Cost(b), ev)
    ensures !WithinLimits(b + [ev])
  {
    assert (b + [ev])[..|b|] == b;
    assert (b + [ev])[0] == b[0] && (b + [ev])[|b|] == ev;
  }

  /**
   * Any legal split of es into n batches: the greedy split of every prefix that
   * ends inside batch number m has completed at most m batches, and if it has
   * completed exactly m its open batch starts no earlier than that batch does.
   */
  lemma {:induction false} GreedyStaysAhead(es: seq<BatchEvent>, bs: seq<seq<BatchEvent>>, m: nat, k: nat)
    requires LegalSplit(bs, es) && m < |bs| && k <= |bs[m]|
    ensures var n := |Flatten(bs[..m])| + k;
            && n <= |es|
            && |Greedy(es[..n]).done| <= m
            && (|Greedy(es[..n]).done| == m ==> |Greedy(es[..n]).open| <= k)
    decreases m, k
  {
    hide WithinLimits, Cost, Overflows, Greedy;
    SplitPoint(bs, m);
    if k > 0 {
      GreedyStaysAhead(es, bs, m, k - 1);
      var n := |Flatten(bs[..m])| + k;
      GreedyStep(es, n - 1);
      if |Greedy(es[..n - 1]).done| == m {
        InsideBatchNeverOverflows(es, bs, m, k);
      }
    } else if m > 0 {
      GreedyStaysAhead(es, bs, m - 1, |bs[m - 1]|);
      assert bs[..m] == bs[..m - 1] + [bs[m - 1]];
      FlattenSnoc(bs[..m - 1], bs[m - 1]);
    } else {
      GreedyEmpty();
      assert bs[..0] == [] && es[..0] == [];
    }
  }

  lemma OpenInside(es: seq<BatchEvent>, b: seq<BatchEvent>, base: nat, k: nat, done: seq<BatchEvent>, open: seq<BatchEvent>)
    requires 0 < k <= |b| && base + |b| <= |es| && es[base..base + |b|] == b
    requires done + open == es[..base + k - 1] && |open| < k
    ensures open + [es[base + k - 1]] == b[k - 1 - |open|..k]
  {
    var lo := k - 1 - |open|;
    forall i | 0 <= i < |open| ensures open[i] == b[lo + i] {
      assert open[i] == (done + open)[|done| + i] == es[|done| + i];
    }
    assert b[k - 1] == es[base + k - 1];
  }

  /** While the greedy open batch lies inside batch m of a legal split, the next event of that batch fits. */
  lemma InsideBatchNeverOverflows(es: seq<BatchEvent>, bs: seq<seq<BatchEvent>>, m: nat, k: nat)
    requires LegalSplit(bs, es) && m < |bs| && 0 < k <= |bs[m]|
    requires |Flatten(bs[..m])| + k <= |es|
    requires |Greedy(es[..|Flatten(bs[..m])| + k - 1]).open| < k
    ensures var n := |Flatten(bs[..m])| + k;
            var p := Greedy(es[..n - 1]);
            !Overflows(p.open, Cost(p.open), es[n - 1])
  {
    hide WithinLimits, Cost, Overflows, Greedy, Flatten;
    var base := |Flatten(bs[..m])|;
    var n := base + k;
    var p := Greedy(es[..n - 1]);
    var lo := k - 1 - |p.open|;
    GreedyCovers(es[..n - 1]);
    SplitPoint(bs, m);
    OpenInside(es, bs[m], base, k, Flatten(p.done), p.open);
    SubBatch(bs[m], lo, k);
    if Overflows(p.open, Cost(p.open), es[n - 1]) {
      OverflowIsForced(p.open, es[n - 1]);
    }
  }

  lemma {:induction false} SplitPoint(bs: seq<seq<BatchEvent>>, m: nat)
    requires m < |bs|
    ensures var base := |Flatten(bs[..m])|;
            base + |bs[m]| <= |Flatten(bs)| && Flatten(bs)[base..base + |bs[m]|] == bs[m]
  {
    assert bs == bs[..m] + ([bs[m]] + bs[m + 1..]);
    FlattenAppend(bs[..m], [bs[m]] + bs[m + 1..]);
    assert ([bs[m]] + bs[m + 1..])[1..] == bs[m + 1..];
  }

  /**
   * The batching theorem, for every time-ordered input without an oversized
   * event: the batches are a legal split, and no legal split is shorter.
   */
  lemma BatchingIsOptimal(es: seq<BatchEvent>, other: seq<seq<BatchEvent>>)
    requires TimeOrdered(es) && NoneOversized(es) && LegalSplit(other, es)
    ensures LegalSplit(Greedy(es).All(), es)
    ensures |Greedy(es).All()| <= |other|
  {
    GreedyIsLegal(es);
    GreedyCovers(es);
    if es != [] {
      LastBatch(es, other);
    }
  }

  lemma GreedyIsLegal(es: seq<BatchEvent>)
    requires TimeOrdered(es) && NoneOversized(es)
    ensures LegalSplit(Greedy(es).All(), es)
  {
    hide WithinLimits, Cost, Overflows;
    GreedyCovers(es);
    GreedyWithinLimits(es);
    FlattenSnoc(Greedy(es).done, Greedy(es).open);
    assert Flatten(Greedy(es).done) + [] == Flatten(Greedy(es).done);
  }

  lemma SplitEnd(es: seq<BatchEvent>, other: seq<seq<BatchEvent>>)
    requires LegalSplit(other, es) && es != []
    ensures other != [] && |Flatten(other[..|other| - 1])| + |other[|other| - 1]| == |es|
  {
    assert other == [] ==> Flatten(other) == [];
    hide WithinLimits, Flatten;
    var m := |other| - 1;
    TakeSnoc(other, m);
    TakeAll(other);
    FlattenSnoc(other[..m], other[m]);
  }

  lemma LastBatch(es: seq<BatchEvent>, other: seq<seq<BatchEvent>>)
    requires LegalSplit(other, es) && es != []
    ensures other != [] && |Greedy(es).done| < |other|
  {
    SplitEnd(es, other);
    hide *;
    var m := |other| - 1;
    var n := |Flatten(other[..m])| + |other[m]|;
    assert n == |es| && es[..n] == es;
    GreedyStaysAhead(es, other, m, |other[m]|);
    assert |Greedy(es[..n]).done| <= m;
  }
}
