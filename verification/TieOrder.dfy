/**
 * The order among records that tie on (timestamp, stream) when one object is
 * read through its index: what it is, and exactly when it is arrival order.
 */
module TieOrder {
  import opened Common
  import opened Sorting
  import opened Chunk
  import opened Merge
  import opened Clusters
  import opened ScanObject

  // ----- Ties of concatenations -----

  /** The pieces of all elements, in order. */
  function Cat<T, R>(s: seq<T>, f: T -> seq<R>): seq<R> {
    if s == [] then [] else f(s[0]) + Cat(s[1..], f)
  }

  lemma {:induction false} TiesAppend<T>(a: seq<T>, b: seq<T>, y: T, le: (T, T) -> bool)
    ensures Ties(a + b, y, le) == Ties(a, y, le) + Ties(b, y, le)
  {
    hide Tie;
    if a == [] {
      assert a + b == b;
    } else {
      TiesAppend(a[1..], b, y, le);
      assert (a + b)[0] == a[0] && (a + b)[1..] == a[1..] + b;
      Assoc(Tie(a[0], y, le), Ties(a[1..], y, le), Ties(b, y, le));
    }
  }

  lemma {:induction false} InsertFrontCat<T, R>(x: T, s: seq<T>, f: T -> seq<R>, le: (T, T) -> bool)
    requires forall z :: z in s && f(x) != [] && f(z) != [] ==> le(x, z)
    ensures Cat(InsertFront(x, s, le), f) == f(x) + Cat(s, f)
  {
    if s == [] {
      assert [x][1..] == [];
    } else if le(x, s[0]) {
      assert ([x] + s)[1..] == s;
    } else {
      assert s[0] in s;
      InsertFrontCat(x, s[1..], f, le);
      var rest := InsertFront(x, s[1..], le);
      assert ([s[0]] + rest)[1..] == rest;
      assert f(x) == [] || f(s[0]) == [];
      Assoc(f(s[0]), f(x), Cat(s[1..], f));
      Assoc(f(x), f(s[0]), Cat(s[1..], f));
    }
  }

  /** Sorting does not reorder the pieces when the elements with a piece are already in order. */
  lemma {:induction false} SortKeepsCat<T, R>(s: seq<T>, f: T -> seq<R>, le: (T, T) -> bool)
    requires forall i, j :: 0 <= i < j < |s| && f(s[i]) != [] && f(s[j]) != [] ==> le(s[i], s[j])
    ensures Cat(StableSort(s, le), f) == Cat(s, f)
  {
    if s != [] {
      var sorted := StableSort(s[1..], le);
      SortKeepsCat(s[1..], f, le);
      StableSortPermutes(s[1..], le);
      forall z | z in sorted && f(s[0]) != [] && f(z) != [] ensures le(s[0], z) {
        assert z in multiset(sorted);
        assert z in s[1..];
        var k :| 0 <= k < |s[1..]| && s[1..][k] == z;
        assert s[k + 1] == z;
      }
      InsertFrontCat(s[0], sorted, f, le);
    }
  }

  /** The first element with a piece decides how the concatenation starts. */
  lemma {:induction false} CatStartsWith<T, R>(s: seq<T>, f: T -> seq<R>, p: nat, x: R)
    requires p < |s| && f(s[p]) == [x] && forall q :: 0 <= q < p ==> f(s[q]) == [] || f(s[q]) == [x]
    ensures Cat(s, f) != [] && Cat(s, f)[0] == x
  {
    if f(s[0]) == [] {
      CatStartsWith(s[1..], f, p - 1, x);
    }
  }

  // ----- What reading through the index does -----

  /** The matching records of one frame that tie with y. */
  function FrameTies(frames: seq<seq<LogRecord>>, range: TimeRange, pattern: Pattern, y: LogRecord): Timed -> seq<LogRecord> {
    (t: Timed) => Ties(Select(FrameAt(frames, t.span.frameIdx), range, pattern), y, RecLe)
  }

  lemma {:induction false} TiesByFrame(frames: seq<seq<LogRecord>>, ts: seq<Timed>, range: TimeRange, pattern: Pattern, y: LogRecord)
    ensures Ties(Select(FrameRecords(frames, ts), range, pattern), y, RecLe) == Cat(ts, FrameTies(frames, range, pattern, y))
  {
    if ts == [] {
      NoFrameRecords(frames);
      SelectNothing(range, pattern);
    } else {
      hide Select, Ties, RecLe;
      TiesByFrame(frames, ts[1..], range, pattern, y);
      var first, rest := FrameAt(frames, ts[0].span.frameIdx), FrameRecords(frames, ts[1..]);
      SelectAppend(first, rest, range, pattern);
      TiesAppend(Select(first, range, pattern), Select(rest, range, pattern), y, RecLe);
    }
  }

  lemma {:induction false} FrameRecordsAppend(frames: seq<seq<LogRecord>>, a: seq<Timed>, b: seq<Timed>)
    ensures FrameRecords(frames, a + b) == FrameRecords(frames, a) + FrameRecords(frames, b)
  {
    if a == [] {
      assert a + b == b;
    } else {
      FrameRecordsAppend(frames, a[1..], b);
      assert (a + b)[0] == a[0] && (a + b)[1..] == a[1..] + b;
      Assoc(FrameAt(frames, a[0].span.frameIdx), FrameRecords(frames, a[1..]), FrameRecords(frames, b));
    }
  }

  /** Ties of the batches are ties of the frames in cluster order. */
  lemma {:induction false} BatchTies(frames: seq<seq<LogRecord>>, g: seq<seq<Timed>>, range: TimeRange, pattern: Pattern, y: LogRecord)
    ensures Ties(Flatten(BatchesOf(frames, g, range, pattern)), y, RecLe) ==
            Ties(Select(FrameRecords(frames, Flatten(g)), range, pattern), y, RecLe)
  {
    RecOrder();
    if g == [] {
      NoFrameRecords(frames);
      SelectNothing(range, pattern);
    } else {
      hide Select, Ties, RecLe, StableSort, FrameRecords, TotalPreorder;
      BatchTies(frames, g[1..], range, pattern, y);
      var chosen := Select(FrameRecords(frames, g[0]), range, pattern);
      var rest := Flatten(BatchesOf(frames, g[1..], range, pattern));
      StableSortIsStable(chosen, y, RecLe);
      TiesAppend(StableSort(chosen, RecLe), rest, y, RecLe);
      FrameRecordsAppend(frames, g[0], Flatten(g[1..]));
      SelectAppend(FrameRecords(frames, g[0]), FrameRecords(frames, Flatten(g[1..])), range, pattern);
      TiesAppend(chosen, Select(FrameRecords(frames, Flatten(g[1..])), range, pattern), y, RecLe);
    }
  }

  /** The pruned frames of an object with their times, in object order. */
  function Pruned(c: Codec, frames: seq<seq<LogRecord>>, range: TimeRange): seq<Timed> {
    EntriesMatch(c, frames);
    FramesOverlapping(FrameEntries(c, frames), TsEntries(frames), range, |frames|)
  }

  /** The records of the pruned frames in the order of their (minimum, index). */
  function ByStart(c: Codec, frames: seq<seq<LogRecord>>, range: TimeRange): seq<LogRecord> {
    FrameRecords(frames, StableSort(Pruned(c, frames, range), TimedLe))
  }

  /** The batches of an indexed object are one stable sort of its frames taken by start. */
  lemma BatchesAreOneSort(c: Codec, frames: seq<seq<LogRecord>>, range: TimeRange, pattern: Pattern, g: seq<seq<Timed>>)
    requires Clustering(Pruned(c, frames, range), g)
    ensures Flatten(BatchesOf(frames, g, range, pattern)) == StableSort(Select(ByStart(c, frames, range), range, pattern), RecLe)
  {
    var timed := Pruned(c, frames, range);
    EntriesMatch(c, frames);
    PlanIsRight(c, frames, range, pattern, timed, g);
    GroupFlattens(StableSort(timed, TimedLe));
    hide Select, Ties, RecLe, StableSort, BatchesOf, FrameRecords, TotalPreorder, Sorted;
    RecOrder();
    var out, chosen := Flatten(BatchesOf(frames, g, range, pattern)), Select(ByStart(c, frames, range), range, pattern);
    forall y ensures Ties(out, y, RecLe) == Ties(chosen, y, RecLe) {
      BatchTies(frames, g, range, pattern, y);
    }
    StableSortUnique(chosen, out, RecLe);
  }

  /** Pruning drops nothing that matches and reorders nothing. */
  lemma {:induction false} PruningKeepsOrder(c: Codec, frames: seq<seq<LogRecord>>, range: TimeRange, pattern: Pattern, n: nat)
    requires n <= |frames| == |TsEntries(frames)|
    ensures Select(FrameRecords(frames, FramesOverlapping(FrameEntries(c, frames), TsEntries(frames), range, n)), range, pattern)
            == Select(Flatten(frames[..n]), range, pattern)
    decreases n
  {
    if n == 0 {
      NoFrameRecords(frames);
      assert frames[..0] == [];
    } else {
      hide Select, FrameEntries, FrameRecords;
      PruningKeepsOrder(c, frames, range, pattern, n - 1);
      var es, ts, last := FrameEntries(c, frames), TsEntries(frames), frames[n - 1];
      var before := FramesOverlapping(es, ts, range, n - 1);
      TakeSnoc(frames, n - 1);
      FlattenSnoc(frames[..n - 1], last);
      SelectAppend(Flatten(frames[..n - 1]), last, range, pattern);
      if Overlaps(range, ts[n - 1]) {
        FrameRecordsSnoc(frames, before, TimedAt(es, ts, n - 1));
        SelectAppend(FrameRecords(frames, before), last, range, pattern);
      } else {
        NothingOutside(frames, range, pattern, n - 1);
        assert before + [] == before;
        assert Select(FrameRecords(frames, before), range, pattern) + [] == Select(FrameRecords(frames, before), range, pattern);
      }
    }
  }

  lemma NothingOutside(frames: seq<seq<LogRecord>>, range: TimeRange, pattern: Pattern, k: nat)
    requires k < |frames| == |TsEntries(frames)| && !Overlaps(range, TsEntries(frames)[k])
    ensures Select(frames[k], range, pattern) == []
  {
    TightBounds(frames[k]);
    SelectNone(frames[k], range, pattern);
  }

  lemma PrunedInArrivalOrder(c: Codec, frames: seq<seq<LogRecord>>, range: TimeRange, pattern: Pattern)
    ensures Select(FrameRecords(frames, Pruned(c, frames, range)), range, pattern) == Select(Flatten(frames), range, pattern)
  {
    EntriesMatch(c, frames);
    PruningKeepsOrder(c, frames, range, pattern, |frames|);
    assert frames[..|frames|] == frames;
  }

  /** Every element is the indexed frame its index names, below n. */
  ghost predicate Indexes(s: seq<Timed>, es: seq<FrameEntry>, ts: seq<TsEntry>, n: nat)
    requires n <= |es| == |ts|
  {
    forall p :: 0 <= p < |s| ==> s[p].span.frameIdx < n && s[p] == TimedAt(es, ts, s[p].span.frameIdx)
  }

  ghost predicate AscendsByIndex(s: seq<Timed>) {
    forall p, q :: 0 <= p < q < |s| ==> s[p].span.frameIdx < s[q].span.frameIdx
  }

  /** The pruned list ascends in frame index and holds exactly the overlapping frames. */
  lemma {:induction false} PrunedShape(es: seq<FrameEntry>, ts: seq<TsEntry>, range: TimeRange, n: nat)
    requires n <= |es| == |ts|
    ensures var s := FramesOverlapping(es, ts, range, n); Indexes(s, es, ts, n) && AscendsByIndex(s)
    ensures forall k :: 0 <= k < n && Overlaps(range, ts[k]) ==> TimedAt(es, ts, k) in FramesOverlapping(es, ts, range, n)
    decreases n
  {
    hide Overlaps;
    if n > 0 {
      PrunedShape(es, ts, range, n - 1);
      var before, s, x := FramesOverlapping(es, ts, range, n - 1), FramesOverlapping(es, ts, range, n), TimedAt(es, ts, n - 1);
      if Overlaps(range, ts[n - 1]) {
        assert s == before + [x];
        assert s[|before|] == x;
        forall p | 0 <= p < |s| ensures s[p].span.frameIdx < n && s[p] == TimedAt(es, ts, s[p].span.frameIdx) {
          assert p < |before| ==> s[p] == before[p];
        }
        forall p, q | 0 <= p < q < |s| ensures s[p].span.frameIdx < s[q].span.frameIdx {
          assert s[p] == before[p] && (q < |before| ==> s[q] == before[q]);
        }
        forall k | 0 <= k < n && Overlaps(range, ts[k]) ensures TimedAt(es, ts, k) in s {
          assert k < n - 1 ==> TimedAt(es, ts, k) in before;
        }
      } else {
        assert s == before;
        forall k | 0 <= k < n && Overlaps(range, ts[k]) ensures TimedAt(es, ts, k) in s {
          assert k < n - 1;
        }
      }
    }
  }

  // ----- When it is arrival order -----

  /** A later frame starts before an earlier one with which it shares an instant of the range. */
  predicate Clash(ts: seq<TsEntry>, range: TimeRange, i: nat, j: nat)
    requires i < |ts| && j < |ts|
  {
    i < j && ts[j].minTs < ts[i].minTs
    && Max(ts[i].minTs, range.fromMs) <= Min(Min(ts[i].maxTs, ts[j].maxTs), range.toMs - 1)
  }

  /** The timestamp index alone tells: no two frames clash. */
  predicate InOrder(ts: seq<TsEntry>, range: TimeRange) {
    forall i: nat, j: nat :: i < |ts| && j < |ts| ==> !Clash(ts, range, i, j)
  }

  /** In an object whose index is in order, reading through the index is the stable sort of arrival order. */
  lemma InOrderKeepsArrival(c: Codec, frames: seq<seq<LogRecord>>, range: TimeRange, pattern: Pattern)
    requires InOrder(TsEntries(frames), range)
    ensures StableSort(Select(ByStart(c, frames, range), range, pattern), RecLe) == StableSort(Select(Flatten(frames), range, pattern), RecLe)
  {
    RecOrder();
    hide Select, Ties, RecLe, StableSort, FrameRecords, TotalPreorder, Sorted, InOrder, Pruned;
    var a, b := Select(ByStart(c, frames, range), range, pattern), Select(Flatten(frames), range, pattern);
    forall y ensures Ties(a, y, RecLe) == Ties(b, y, RecLe) {
      InOrderTies(c, frames, range, pattern, y);
    }
    StableSortSorts(a, RecLe);
    forall y ensures Ties(StableSort(a, RecLe), y, RecLe) == Ties(b, y, RecLe) {
      StableSortIsStable(a, y, RecLe);
    }
    StableSortUnique(b, StableSort(a, RecLe), RecLe);
  }

  lemma InOrderTies(c: Codec, frames: seq<seq<LogRecord>>, range: TimeRange, pattern: Pattern, y: LogRecord)
    requires InOrder(TsEntries(frames), range)
    ensures Ties(Select(ByStart(c, frames, range), range, pattern), y, RecLe) == Ties(Select(Flatten(frames), range, pattern), y, RecLe)
  {
    hide Select, Ties, RecLe, StableSort, FrameRecords, InOrder, FramesOverlapping, FrameEntries, TsEntries;
    EntriesMatch(c, frames);
    var timed, f := Pruned(c, frames, range), FrameTies(frames, range, pattern, y);
    PrunedShape(FrameEntries(c, frames), TsEntries(frames), range, |frames|);
    forall p, q | 0 <= p < q < |timed| && f(timed[p]) != [] && f(timed[q]) != [] ensures TimedLe(timed[p], timed[q]) {
      var i, j := timed[p].span.frameIdx, timed[q].span.frameIdx;
      assert f(timed[p]) == Ties(Select(FrameAt(frames, i), range, pattern), y, RecLe);
      assert f(timed[q]) == Ties(Select(FrameAt(frames, j), range, pattern), y, RecLe);
      TiedFramesInOrder(c, frames, range, pattern, y, i, j);
    }
    SortKeepsCat(timed, f, TimedLe);
    TiesByFrame(frames, StableSort(timed, TimedLe), range, pattern, y);
    TiesByFrame(frames, timed, range, pattern, y);
    PrunedInArrivalOrder(c, frames, range, pattern);
  }

  /** Two frames that hold matching ties share the instant of the tie, so the earlier one starts first. */
  lemma TiedFramesInOrder(c: Codec, frames: seq<seq<LogRecord>>, range: TimeRange, pattern: Pattern, y: LogRecord, i: nat, j: nat)
    requires InOrder(TsEntries(frames), range) && i < j < |frames| == |TsEntries(frames)|
    requires Ties(Select(FrameAt(frames, i), range, pattern), y, RecLe) != [] && Ties(Select(FrameAt(frames, j), range, pattern), y, RecLe) != []
    ensures TsEntries(frames)[i].minTs <= TsEntries(frames)[j].minTs
  {
    hide Select, Ties, RecLe;
    TieInstant(frames, range, pattern, y, i);
    TieInstant(frames, range, pattern, y, j);
    assert !Clash(TsEntries(frames), range, i, j);
  }

  lemma TieInstant(frames: seq<seq<LogRecord>>, range: TimeRange, pattern: Pattern, y: LogRecord, i: nat)
    requires i < |frames| == |TsEntries(frames)| && Ties(Select(FrameAt(frames, i), range, pattern), y, RecLe) != []
    ensures range.fromMs <= y.timestamp < range.toMs && TsEntries(frames)[i].minTs <= y.timestamp <= TsEntries(frames)[i].maxTs
  {
    var chosen := Select(frames[i], range, pattern);
    var r := TieMember(chosen, y);
    SelectMember(frames[i], range, pattern, r);
    TightBounds(frames[i]);
  }

  lemma {:induction false} TieMember(s: seq<LogRecord>, y: LogRecord) returns (r: LogRecord)
    requires Ties(s, y, RecLe) != []
    ensures r in s && RecLe(r, y) && RecLe(y, r) && r.timestamp == y.timestamp
  {
    if RecLe(s[0], y) && RecLe(y, s[0]) {
      r := s[0];
    } else {
      r := TieMember(s[1..], y);
    }
  }

  // ----- When it is not -----

  lemma {:induction false} NoneTie(s: seq<LogRecord>, y: LogRecord)
    requires forall r :: r in s ==> !(RecLe(r, y) && RecLe(y, r))
    ensures Ties(s, y, RecLe) == []
  {
    hide RecLe;
    if s != [] {
      assert s[0] in s;
      NoneTie(s[1..], y);
    }
  }

  /** If the frames hold one tie each and the later one starts first, their order is swapped. */
  lemma TiesSwapped(
    c: Codec, frames: seq<seq<LogRecord>>, range: TimeRange, pattern: Pattern, i: nat, j: nat, y: LogRecord, a: LogRecord, b: LogRecord)
    requires i < j < |frames| == |TsEntries(frames)| && TsEntries(frames)[j].minTs < TsEntries(frames)[i].minTs && a != b
    requires Ties(Select(frames[i], range, pattern), y, RecLe) == [a] && Ties(Select(frames[j], range, pattern), y, RecLe) == [b]
    requires forall k :: 0 <= k < |frames| && k != i && k != j ==> Ties(Select(frames[k], range, pattern), y, RecLe) == []
    ensures StableSort(Select(ByStart(c, frames, range), range, pattern), RecLe) != StableSort(Select(Flatten(frames), range, pattern), RecLe)
  {
    RecOrder();
    TieInstant(frames, range, pattern, y, i);
    TieInstant(frames, range, pattern, y, j);
    EntriesMatch(c, frames);
    PrunedShape(FrameEntries(c, frames), TsEntries(frames), range, |frames|);
    hide Select, Ties, RecLe, StableSort, FrameRecords, TotalPreorder, Sorted, FramesOverlapping, FrameEntries, TsEntries;
    var f, timed := FrameTies(frames, range, pattern, y), Pruned(c, frames, range);
    FirstInObjectOrder(c, frames, range, f, i, j, a, b);
    FirstByStart(c, frames, range, f, i, j, a, b);
    var sorted := StableSort(timed, TimedLe);
    TiesByFrame(frames, sorted, range, pattern, y);
    TiesByFrame(frames, timed, range, pattern, y);
    PrunedInArrivalOrder(c, frames, range, pattern);
    StableSortIsStable(Select(ByStart(c, frames, range), range, pattern), y, RecLe);
    StableSortIsStable(Select(Flatten(frames), range, pattern), y, RecLe);
  }

  /** Only frames i and j hold a piece, and both are pruned in. */
  ghost predicate TwoPieces(c: Codec, frames: seq<seq<LogRecord>>, range: TimeRange, f: Timed -> seq<LogRecord>, i: nat, j: nat, a: LogRecord, b: LogRecord)
  {
    && i < |frames| && j < |frames| && |FrameEntries(c, frames)| == |TsEntries(frames)| == |frames|
    && Overlaps(range, TsEntries(frames)[i]) && Overlaps(range, TsEntries(frames)[j])
    && (forall t: Timed :: t.span.frameIdx < |frames| ==>
          f(t) == if t.span.frameIdx == i then [a] else if t.span.frameIdx == j then [b] else [])
  }

  lemma FirstInObjectOrder(c: Codec, frames: seq<seq<LogRecord>>, range: TimeRange, f: Timed -> seq<LogRecord>, i: nat, j: nat, a: LogRecord, b: LogRecord)
    requires i < j && TwoPieces(c, frames, range, f, i, j, a, b)
    ensures Cat(Pruned(c, frames, range), f) != [] && Cat(Pruned(c, frames, range), f)[0] == a
  {
    hide FrameEntries, TsEntries, FramesOverlapping;
    var es, ts, timed := FrameEntries(c, frames), TsEntries(frames), Pruned(c, frames, range);
    PrunedShape(es, ts, range, |frames|);
    var x := TimedAt(es, ts, i);
    var p :| 0 <= p < |timed| && timed[p] == x;
    CatStartsWith(timed, f, p, a);
  }

  lemma FirstByStart(c: Codec, frames: seq<seq<LogRecord>>, range: TimeRange, f: Timed -> seq<LogRecord>, i: nat, j: nat, a: LogRecord, b: LogRecord)
    requires TwoPieces(c, frames, range, f, i, j, a, b) && TsEntries(frames)[j].minTs < TsEntries(frames)[i].minTs
    ensures var sorted := StableSort(Pruned(c, frames, range), TimedLe);
            Cat(sorted, f) != [] && Cat(sorted, f)[0] == b
  {
    hide FrameEntries, TsEntries, FramesOverlapping, StableSort, Overlaps, TotalPreorder, AscendsByIndex;
    var es, ts, timed := FrameEntries(c, frames), TsEntries(frames), Pruned(c, frames, range);
    PrunedShape(es, ts, range, |frames|);
    TimedOrder();
    StableSortSorts(timed, TimedLe);
    var sorted, x := StableSort(timed, TimedLe), TimedAt(es, ts, j);
    assert x in multiset(timed);
    var p :| 0 <= p < |sorted| && sorted[p] == x;
    forall q | 0 <= q < p ensures f(sorted[q]) == [] || f(sorted[q]) == [b] {
      assert sorted[q] in multiset(timed);
      var k :| 0 <= k < |timed| && timed[k] == sorted[q];
      assert TimedLe(sorted[q], sorted[p]);
    }
    CatStartsWith(sorted, f, p, b);
  }

  // ----- The exact condition on the index -----

  /** Reading this object through its index gives the stable sort of arrival order. */
  ghost predicate ArrivalKept(c: Codec, frames: seq<seq<LogRecord>>, range: TimeRange) {
    StableSort(Select(ByStart(c, frames, range), range, None), RecLe) == StableSort(Select(Flatten(frames), range, None), RecLe)
  }

  function Plain(ts: I64, stream: string, message: string): LogRecord {
    LogRecord(ts, stream, message, None, None)
  }

  /** A frame with the given time range and, if marked, one record of stream x at instant t. */
  function Marked(e: TsEntry, t: I64, mark: Option<string>): seq<LogRecord> {
    [Plain(e.minTs, "", ""), Plain(e.maxTs, "", "")] + if mark.Some? then [Plain(t, "x", mark.value)] else []
  }

  lemma MarkedBounds(e: TsEntry, t: I64, mark: Option<string>)
    requires e.minTs <= e.maxTs && (mark.Some? ==> e.minTs <= t <= e.maxTs)
    ensures TsEntry(MinTs(Marked(e, t, mark)), MaxTs(Marked(e, t, mark))) == e
  {
    var rs := Marked(e, t, mark);
    TightBounds(rs);
    assert rs[0] in rs && rs[1] in rs;
  }

  lemma MarkedTies(e: TsEntry, t: I64, mark: Option<string>, range: TimeRange)
    requires mark.Some? ==> range.fromMs <= t < range.toMs
    ensures Ties(Select(Marked(e, t, mark), range, None), Plain(t, "x", ""), RecLe) ==
            if mark.Some? then [Plain(t, "x", mark.value)] else []
  {
    var y, base := Plain(t, "x", ""), [Plain(e.minTs, "", ""), Plain(e.maxTs, "", "")];
    var chosen := Select(base, range, None);
    forall r | r in chosen ensures !(RecLe(r, y) && RecLe(y, r)) {
      SelectMember(base, range, None, r);
    }
    NoneTie(chosen, y);
    hide Select, Ties, RecLe;
    if mark.Some? {
      var m := Plain(t, "x", mark.value);
      SelectAppend(base, [m], range, None);
      TiesAppend(chosen, [m], y, RecLe);
      OneTie(m, y, range);
      assert Select([m], range, None) == [m];
    } else {
      assert base + [] == base;
    }
  }

  lemma OneTie(m: LogRecord, y: LogRecord, range: TimeRange)
    requires range.fromMs <= m.timestamp < range.toMs
    ensures Select([m], range, None) == [m]
    ensures m.timestamp == y.timestamp && m.stream == y.stream ==> Ties([m], y, RecLe) == [m]
    ensures m.timestamp != y.timestamp ==> Ties([m], y, RecLe) == []
  {
    assert [m][1..] == [];
    StrLeTotal(m.stream, m.stream);
    assert RecordMatches(m, range, None);
  }

  /** The frames of the swapped tie for an index in which i and j clash. */
  function Witness(ts: seq<TsEntry>, t: I64, i: nat, j: nat): seq<seq<LogRecord>> {
    seq(|ts|, k requires 0 <= k < |ts| => Marked(ts[k], t, if k == i then Some("a") else if k == j then Some("b") else None))
  }

  /** The frames have the given index; they need not be the ones a single writer with one frame target would cut. */
  lemma ClashSwaps(c: Codec, ts: seq<TsEntry>, range: TimeRange, i: nat, j: nat) returns (frames: seq<seq<LogRecord>>)
    requires forall k :: 0 <= k < |ts| ==> ts[k].minTs <= ts[k].maxTs
    requires i < |ts| && j < |ts| && Clash(ts, range, i, j)
    ensures [] !in frames && TsEntries(frames) == ts && !ArrivalKept(c, frames, range)
  {
    var t: I64 := Max(ts[i].minTs, Min(Min(ts[i].maxTs, ts[j].maxTs), range.toMs - 1));
    frames := Witness(ts, t, i, j);
    hide Select, Ties, RecLe, StableSort, Marked;
    forall k | 0 <= k < |ts| ensures TsEntries(frames)[k] == ts[k] {
      MarkedBounds(ts[k], t, if k == i then Some("a") else if k == j then Some("b") else None);
    }
    forall k | 0 <= k < |ts|
      ensures Ties(Select(frames[k], range, None), Plain(t, "x", ""), RecLe) ==
              if k == i then [Plain(t, "x", "a")] else if k == j then [Plain(t, "x", "b")] else []
    {
      MarkedTies(ts[k], t, if k == i then Some("a") else if k == j then Some("b") else None, range);
    }
    WitnessNonEmpty(ts, t, i, j);
    assert |TsEntries(frames)| == |ts|;
    assert TsEntries(frames) == ts;
    TiesSwapped(c, frames, range, None, i, j, Plain(t, "x", ""), Plain(t, "x", "a"), Plain(t, "x", "b"));
  }

  lemma WitnessNonEmpty(ts: seq<TsEntry>, t: I64, i: nat, j: nat)
    ensures [] !in Witness(ts, t, i, j)
  {
  }

  /**
   * Exactly the indexes without a clash guarantee arrival order among ties: it
   * holds for every object with this index if and only if no later frame starts
   * before an earlier one with which it shares an instant of the range. Objects
   * range over all sequences of non-empty frames, however they were cut.
   */
  lemma TieOrderExact(c: Codec, ts: seq<TsEntry>, range: TimeRange)
    requires forall k :: 0 <= k < |ts| ==> ts[k].minTs <= ts[k].maxTs
    ensures InOrder(ts, range) <==> forall frames :: [] !in frames && TsEntries(frames) == ts ==> ArrivalKept(c, frames, range)
  {
    hide ArrivalKept, Clash;
    if InOrder(ts, range) {
      forall frames | [] !in frames && TsEntries(frames) == ts ensures ArrivalKept(c, frames, range) {
        InOrderArrivalKept(c, frames, range);
      }
    } else {
      var i: nat, j: nat :| i < |ts| && j < |ts| && Clash(ts, range, i, j);
      var frames := ClashSwaps(c, ts, range, i, j);
    }
  }

  lemma InOrderArrivalKept(c: Codec, frames: seq<seq<LogRecord>>, range: TimeRange)
    requires InOrder(TsEntries(frames), range)
    ensures ArrivalKept(c, frames, range)
  {
    InOrderKeepsArrival(c, frames, range, None);
  }

  /** The swapped tie at an input: the second frame starts earlier and shares (5, "s") with the first. */
  lemma SwappedTie(c: Codec)
    ensures var frames := [[Plain(5, "s", "first")], [Plain(3, "s", ""), Plain(5, "s", "second")]];
            !ArrivalKept(c, frames, TimeRange(0, 10))
  {
    hide Select, Ties, RecLe, StableSort, MinTs, MaxTs;
    var one, low, two := Plain(5, "s", "first"), Plain(3, "s", ""), Plain(5, "s", "second");
    var frames, range := [[one], [low, two]], TimeRange(0, 10);
    OneTie(one, one, range);
    OneTie(low, one, range);
    OneTie(two, one, range);
    SelectAppend([low], [two], range, None);
    TiesAppend([low], [two], one, RecLe);
    assert [low] + [two] == [low, two];
    TightBounds([one]);
    TightBounds([low, two]);
    assert low in [low, two];
    TiesSwapped(c, frames, range, None, 0, 1, one, one, two);
  }
}
