/**
 * Reading one data object for a time range: sidecar pruning, frame clusters,
 * lazily decoded sorted batches, and the whole-object fallback.
 */
module ScanObject {
  import opened Common
  import opened Sorting
  import opened Bags
  import opened Chunk
  import opened Merge
  import opened Clusters

  const FALLBACK_DECODE_CAP_BYTES: nat := 0x8000_0000

  datatype TimeRange = TimeRange(fromMs: int, toMs: int)

  type Pattern = Option<string -> bool>

  predicate Overlaps(range: TimeRange, e: TsEntry) {
    e.minTs < range.toMs && e.maxTs >= range.fromMs
  }

  predicate RecordMatches(r: LogRecord, range: TimeRange, pattern: Pattern) {
    && range.fromMs <= r.timestamp < range.toMs
    && (pattern.Some? ==> pattern.value(r.message))
  }

  function Kept(r: LogRecord, range: TimeRange, pattern: Pattern): seq<LogRecord> {
    if RecordMatches(r, range, pattern) then [r] else []
  }

  /** The matching records, in order. */
  function Select(rs: seq<LogRecord>, range: TimeRange, pattern: Pattern): seq<LogRecord> {
    if rs == [] then [] else Kept(rs[0], range, pattern) + Select(rs[1..], range, pattern)
  }

  lemma SelectCons(r: LogRecord, rs: seq<LogRecord>, range: TimeRange, pattern: Pattern)
    ensures Select([r] + rs, range, pattern) == Kept(r, range, pattern) + Select(rs, range, pattern)
  {
    assert ([r] + rs)[0] == r && ([r] + rs)[1..] == rs;
  }

  lemma {:induction false} SelectAppend(a: seq<LogRecord>, b: seq<LogRecord>, range: TimeRange, pattern: Pattern)
    ensures Select(a + b, range, pattern) == Select(a, range, pattern) + Select(b, range, pattern)
  {
    hide Kept;
    if a == [] {
      assert a + b == b;
    } else {
      SelectAppend(a[1..], b, range, pattern);
      assert (a + b)[0] == a[0] && (a + b)[1..] == a[1..] + b;
      Assoc(Kept(a[0], range, pattern), Select(a[1..], range, pattern), Select(b, range, pattern));
    }
  }

  /** Of all there is, exactly the records of the range that the pattern, if there is one, accepts; each as often as it occurs. */
  ghost predicate Filtered(out: multiset<LogRecord>, all: multiset<LogRecord>, range: TimeRange, pattern: Pattern) {
    forall r :: out[r] == if range.fromMs <= r.timestamp < range.toMs && (pattern.Some? ==> pattern.value(r.message)) then all[r] else 0
  }

  lemma {:induction false} SelectFilters(rs: seq<LogRecord>, range: TimeRange, pattern: Pattern)
    ensures Filtered(multiset(Select(rs, range, pattern)), multiset(rs), range, pattern)
  {
    if rs != [] {
      SelectFilters(rs[1..], range, pattern);
      assert rs == [rs[0]] + rs[1..];
    }
  }

  lemma {:induction false} SelectMember(rs: seq<LogRecord>, range: TimeRange, pattern: Pattern, r: LogRecord)
    requires r in Select(rs, range, pattern)
    ensures r in rs && RecordMatches(r, range, pattern)
  {
    if !(RecordMatches(rs[0], range, pattern) && r == rs[0]) {
      SelectMember(rs[1..], range, pattern, r);
    }
  }

  lemma {:induction false} SelectNone(rs: seq<LogRecord>, range: TimeRange, pattern: Pattern)
    requires forall r :: r in rs ==> !RecordMatches(r, range, pattern)
    ensures Select(rs, range, pattern) == []
  {
    if rs != [] {
      SelectNone(rs[1..], range, pattern);
    }
  }

  // ----- The object and its sidecars -----

  /** A data object with its sidecar pair, None when either is missing or does not decode. */
  datatype StoredObject = StoredObject(body: seq<byte>, sidecars: Option<(seq<FrameEntry>, seq<TsEntry>)>)

  predicate Indexed(o: StoredObject) {
    o.sidecars.Some? && |o.sidecars.value.0| == |o.sidecars.value.1|
  }

  /**
   * The object stores these frames; sidecars that load with equal counts are its
   * own. The reader does not check the latter: it is what the writer must keep.
   */
  ghost predicate Stores(c: Codec, o: StoredObject, frames: seq<seq<LogRecord>>) {
    && [] !in frames
    && o.body == c.Zipped(c.Plains(frames))
    && (Indexed(o) ==> o.sidecars.value == (FrameEntries(c, frames), TsEntries(frames)))
  }

  function SpanAt(es: seq<FrameEntry>, i: nat): FrameSpan
    requires i < |es|
  {
    FrameSpan(i, es[i].compressedOffset, CompressedEnd(es[i]), es[i].originalSize)
  }

  function TimedAt(es: seq<FrameEntry>, ts: seq<TsEntry>, i: nat): Timed
    requires i < |es| == |ts|
  {
    Timed(SpanAt(es, i), ts[i].minTs, ts[i].maxTs)
  }

  /** Frames whose indexed time range overlaps the query, in object order, with their times. */
  function FramesOverlapping(es: seq<FrameEntry>, ts: seq<TsEntry>, range: TimeRange, n: nat): seq<Timed>
    requires n <= |es| == |ts|
  {
    if n == 0 then []
    else FramesOverlapping(es, ts, range, n - 1) + (if Overlaps(range, ts[n - 1]) then [TimedAt(es, ts, n - 1)] else [])
  }

  /** An instant of the range within the entry's bounds. */
  ghost predicate Meets(range: TimeRange, e: TsEntry, t: int) {
    range.fromMs <= t < range.toMs && e.minTs <= t <= e.maxTs
  }

  /** A frame is fetched exactly when some instant of the range lies within its bounds; an empty range fetches only what lies around it. */
  lemma {:induction false} PruningExact(es: seq<FrameEntry>, ts: seq<TsEntry>, range: TimeRange, n: nat, i: nat)
    requires i < |es| == |ts| && n <= |es| && ts[i].minTs <= ts[i].maxTs
    ensures range.fromMs < range.toMs ==>
              (TimedAt(es, ts, i) in FramesOverlapping(es, ts, range, n) <==> i < n && exists t :: Meets(range, ts[i], t))
    ensures range.fromMs >= range.toMs ==>
              (TimedAt(es, ts, i) in FramesOverlapping(es, ts, range, n) <==> i < n && ts[i].minTs < range.toMs && range.fromMs <= ts[i].maxTs)
  {
    if n > 0 {
      PruningExact(es, ts, range, n - 1, i);
      assert TimedAt(es, ts, i) == TimedAt(es, ts, n - 1) ==> i == n - 1;
      if range.fromMs < range.toMs && Overlaps(range, ts[i]) {
        assert Meets(range, ts[i], if range.fromMs < ts[i].minTs then ts[i].minTs else range.fromMs);
      }
    }
  }

  datatype ScanError = ShortRange | Decode(error: ReadError) | FallbackTooBig

  // ----- Fetching -----

  /** One range GET: length check, decompress, parse. */
  function FetchFrame(c: Codec, body: seq<byte>, s: FrameSpan): Result<seq<Option<LogRecord>>, ScanError> {
    if !(s.byteStart <= s.byteEnd <= |body|) then Err(ShortRange)
    else
      match DecompressFrames(c, body[s.byteStart..s.byteEnd], s.originalSize)
      case Ok(plain) => Ok(c.ParseLines(plain))
      case Err(e) => Err(Decode(e))
  }

  function FrameAt(frames: seq<seq<LogRecord>>, i: nat): seq<LogRecord> {
    if i < |frames| then frames[i] else []
  }

  /** A frame small enough to decode. */
  predicate Decodable(c: Codec, frames: seq<seq<LogRecord>>, t: Timed) {
    |c.Lines(FrameAt(frames, t.span.frameIdx))| <= MAX_DECOMPRESSED_BYTES
  }

  /** The timed span is frame i of the object, as indexed. */
  ghost predicate Genuine(c: Codec, frames: seq<seq<LogRecord>>, t: Timed) {
    && t.span.frameIdx < |frames|
    && FrameEntries(c, frames) != [] && |TsEntries(frames)| == |FrameEntries(c, frames)|
    && t == TimedAt(FrameEntries(c, frames), TsEntries(frames), t.span.frameIdx)
  }

  /** Fetching an indexed frame gives exactly its records, unless it is above the decompression ceiling. */
  lemma FetchGenuine(c: Codec, frames: seq<seq<LogRecord>>, t: Timed)
    requires c.Lawful() && Genuine(c, frames, t)
    ensures var r := FetchFrame(c, c.Zipped(c.Plains(frames)), t.span);
            && (r.Ok? <==> Decodable(c, frames, t))
            && (r.Ok? ==> r.value == Intact(frames[t.span.frameIdx]))
  {
    hide FrameEntries, TsEntries;
    var i := t.span.frameIdx;
    FrameReadsBack(c, frames, i);
    var body, s := c.Zipped(c.Plains(frames)), t.span;
    DecompressExact(c, body[s.byteStart..s.byteEnd], s.originalSize);
  }

  /** The records of a list of frames, in list order. */
  function FrameRecords(frames: seq<seq<LogRecord>>, cluster: seq<Timed>): seq<LogRecord> {
    if cluster == [] then []
    else FrameAt(frames, cluster[0].span.frameIdx) + FrameRecords(frames, cluster[1..])
  }

  lemma {:induction false} FrameRecordsSnoc(frames: seq<seq<LogRecord>>, cluster: seq<Timed>, t: Timed)
    ensures FrameRecords(frames, cluster + [t]) == FrameRecords(frames, cluster) + FrameAt(frames, t.span.frameIdx)
  {
    if cluster == [] {
      assert [] + [t] == [t] && [t][1..] == [];
    } else {
      FrameRecordsSnoc(frames, cluster[1..], t);
      assert (cluster + [t])[0] == cluster[0] && (cluster + [t])[1..] == cluster[1..] + [t];
      Assoc(FrameAt(frames, cluster[0].span.frameIdx), FrameRecords(frames, cluster[1..]), FrameAt(frames, t.span.frameIdx));
    }
  }

  /** The body is that of these frames, and every span of the cluster is one of them as indexed. */
  ghost predicate OwnCluster(c: Codec, body: seq<byte>, frames: seq<seq<LogRecord>>, cluster: seq<Timed>) {
    c.Lawful() && body == c.Zipped(c.Plains(frames)) && forall i :: 0 <= i < |cluster| ==> Genuine(c, frames, cluster[i])
  }

  /** Decode one cluster: fetch each frame, keep the matching records, sort stably. */
  method FetchCluster(c: Codec, body: seq<byte>, spans: seq<FrameSpan>, range: TimeRange, pattern: Pattern,
                      ghost frames: seq<seq<LogRecord>>, ghost cluster: seq<Timed>)
    returns (r: Result<seq<LogRecord>, ScanError>)
    requires spans == Spans(cluster)
    ensures OwnCluster(c, body, frames, cluster) ==> (r.Ok? <==> forall i :: 0 <= i < |cluster| ==> Decodable(c, frames, cluster[i]))
    ensures OwnCluster(c, body, frames, cluster) && r.Ok? ==> r.value == StableSort(Select(FrameRecords(frames, cluster), range, pattern), RecLe)
    ensures OwnCluster(c, body, frames, cluster) && r.Ok? ==> Filtered(multiset(r.value), multiset(FrameRecords(frames, cluster)), range, pattern)
  {
    hide FetchFrame, Genuine, Decodable, StableSort, Select, FrameRecords, Decoded, Intact;
    ghost var own := OwnCluster(c, body, frames, cluster);
    SelectNothing(range, pattern);
    NoFrameRecords(frames);
    assert cluster[..0] == [];
    var recs: seq<LogRecord> := [];
    for i := 0 to |spans|
      invariant own ==> recs == Select(FrameRecords(frames, cluster[..i]), range, pattern)
      invariant own ==> forall k :: 0 <= k < i ==> Decodable(c, frames, cluster[k])
    {
      if own {
        FetchGenuine(c, frames, cluster[i]);
      }
      var got := FetchFrame(c, body, spans[i]);
      if got.Err? {
        return Err(got.error);
      }
      if own {
        GenuineFrame(c, frames, cluster[i]);
        DecodedIntact(frames[cluster[i].span.frameIdx]);
        FetchStep(frames, cluster, i, range, pattern);
      }
      recs := recs + Select(Decoded(got.value), range, pattern);
    }
    assert cluster[..|cluster|] == cluster;
    StableSortPermutes(recs, RecLe);
    SelectFilters(FrameRecords(frames, cluster), range, pattern);
    return Ok(StableSort(recs, RecLe));
  }

  lemma NoFrameRecords(frames: seq<seq<LogRecord>>)
    ensures FrameRecords(frames, []) == []
  {
  }

  lemma FetchStep(frames: seq<seq<LogRecord>>, cluster: seq<Timed>, i: nat, range: TimeRange, pattern: Pattern)
    requires i < |cluster|
    ensures Select(FrameRecords(frames, cluster[..i + 1]), range, pattern) ==
            Select(FrameRecords(frames, cluster[..i]), range, pattern) + Select(FrameAt(frames, cluster[i].span.frameIdx), range, pattern)
  {
    hide Select, FrameRecords;
    assert cluster[..i + 1] == cluster[..i] + [cluster[i]];
    FrameRecordsSnoc(frames, cluster[..i], cluster[i]);
    SelectAppend(FrameRecords(frames, cluster[..i]), FrameAt(frames, cluster[i].span.frameIdx), range, pattern);
  }

  lemma GenuineFrame(c: Codec, frames: seq<seq<LogRecord>>, t: Timed)
    requires Genuine(c, frames, t)
    ensures t.span.frameIdx < |frames| && FrameAt(frames, t.span.frameIdx) == frames[t.span.frameIdx]
    ensures t.minTs == MinTs(frames[t.span.frameIdx]) && t.maxTs == MaxTs(frames[t.span.frameIdx])
  {
  }

  // ----- The whole-object fallback -----

  function StripCr(line: seq<byte>): seq<byte> {
    if line != [] && line[|line| - 1] == CARRIAGE_RETURN then line[..|line| - 1] else line
  }

  /** One decode attempt per line that is not empty after trimming its terminator. */
  function StreamLines(c: Codec, b: seq<byte>): seq<Option<LogRecord>>
    decreases |b|
  {
    if b == [] then []
    else
      var i := FirstNewline(b);
      var content := StripCr(b[..i]);
      (if content == [] then [] else [c.dec(content)]) + StreamLines(c, if i < |b| then b[i + 1..] else [])
  }

  lemma {:induction false} StreamLinesIntact(c: Codec, rs: seq<LogRecord>)
    requires c.Lawful()
    ensures StreamLines(c, c.Lines(rs)) == Intact(rs)
  {
    if rs != [] {
      hide StreamLines;
      StreamLinesIntact(c, rs[1..]);
      FirstLine(c, rs);
      StreamUnfold(c, c.Lines(rs));
    } else {
      assert c.Lines(rs) == [];
    }
  }

  lemma FirstLine(c: Codec, rs: seq<LogRecord>)
    requires c.Lawful() && rs != []
    ensures var b, n := c.Lines(rs), |c.enc(rs[0])|;
            && FirstNewline(b) == n < |b|
            && StripCr(b[..n]) == c.enc(rs[0]) && b[n + 1..] == c.Lines(rs[1..])
  {
    hide FirstNewline, StripCr;
    var e, rest := c.enc(rs[0]), c.Lines(rs[1..]);
    Assoc(e, [NEWLINE], rest);
    FirstNewlineIs(e, [NEWLINE] + rest);
    Around(e, NEWLINE, rest);
    NoCr(e);
  }

  /** A line may end in carriage return and newline; a blank one is skipped. */
  lemma CrlfLine(c: Codec, l: seq<byte>, rest: seq<byte>)
    requires 10 !in l && (l == [] || l[|l| - 1] != 13)
    ensures StreamLines(c, l + ([13] + ([10] + rest))) == StreamLines(c, l + ([10] + rest))
    ensures StreamLines(c, l + ([10] + rest)) == (if l == [] then [] else [c.dec(l)]) + StreamLines(c, rest)
  {
    var m := l + [13];
    Stripped(l);
    hide StreamLines, StripCr;
    Assoc(l, [13], [10] + rest);
    OneMoreLine(c, m, rest);
    OneMoreLine(c, l, rest);
  }

  lemma Stripped(l: seq<byte>)
    requires l == [] || l[|l| - 1] != CARRIAGE_RETURN
    ensures StripCr(l) == l && StripCr(l + [13]) == l
  {
    assert (l + [13])[..|l|] == l;
  }

  lemma OneMoreLine(c: Codec, l: seq<byte>, rest: seq<byte>)
    requires NEWLINE !in l
    ensures StreamLines(c, l + ([10] + rest)) == (if StripCr(l) == [] then [] else [c.dec(StripCr(l))]) + StreamLines(c, rest)
  {
    hide StreamLines, StripCr;
    FirstNewlineIs(l, [NEWLINE] + rest);
    Around(l, NEWLINE, rest);
    StreamUnfold(c, l + ([NEWLINE] + rest));
  }

  lemma Around(e: seq<byte>, x: byte, rest: seq<byte>)
    ensures var b := e + ([x] + rest);
            |b| > |e| && b[..|e|] == e && b[|e| + 1..] == rest
  {
  }

  lemma NoCr(e: seq<byte>)
    requires CARRIAGE_RETURN !in e
    ensures StripCr(e) == e
  {
    if e != [] {
      assert e[|e| - 1] in e;
    }
  }

  /** Stream the decompressed text line by line, refusing more than the cap. */
  method StreamFullObject(c: Codec, plain: seq<byte>, range: TimeRange, pattern: Pattern)
    returns (r: Result<seq<LogRecord>, ScanError>)
    ensures r.Ok? <==> |plain| <= FALLBACK_DECODE_CAP_BYTES
    ensures r.Ok? ==> r.value == Select(Decoded(StreamLines(c, plain)), range, pattern)
    ensures r.Ok? ==> Filtered(multiset(r.value), multiset(Decoded(StreamLines(c, plain))), range, pattern)
  {
    hide Select;
    var out: seq<LogRecord> := [];
    var rest, total := plain, 0;
    ghost var all := Select(Decoded(StreamLines(c, plain)), range, pattern);
    SelectNothing(range, pattern);
    while rest != []
      invariant total + |rest| == |plain| && total <= FALLBACK_DECODE_CAP_BYTES
      invariant all == out + Select(Decoded(StreamLines(c, rest)), range, pattern)
      decreases |rest|
    {
      hide StreamLines, Decoded, StripCr, FirstNewline;
      StreamFirst(c, rest, range, pattern);
      FirstNewlineBound(rest);
      var i := FirstNewline(rest);
      var n := if i < |rest| then i + 1 else |rest|;
      total := total + n;
      if total > FALLBACK_DECODE_CAP_BYTES {
        return Err(FallbackTooBig);
      }
      var content := StripCr(rest[..i]);
      rest := rest[n..];
      if content != [] {
        var d := c.dec(content);
        if d.Some? && RecordMatches(d.value, range, pattern) {
          Assoc(out, [d.value], Select(Decoded(StreamLines(c, rest)), range, pattern));
          out := out + [d.value];
        }
      }
    }
    assert out + [] == out;
    SelectFilters(Decoded(StreamLines(c, plain)), range, pattern);
    return Ok(out);
  }

  lemma SelectNothing(range: TimeRange, pattern: Pattern)
    ensures Select([], range, pattern) == []
  {
  }

  lemma FirstNewlineBound(b: seq<byte>)
    ensures FirstNewline(b) <= |b|
  {
  }

  lemma DecodedCons(d: Option<LogRecord>, os: seq<Option<LogRecord>>)
    ensures Decoded([d] + os) == (if d.Some? then [d.value] else []) + Decoded(os)
  {
    assert ([d] + os)[0] == d && ([d] + os)[1..] == os;
  }

  lemma StreamFirst(c: Codec, b: seq<byte>, range: TimeRange, pattern: Pattern)
    requires b != []
    ensures var i := FirstNewline(b);
            var n := if i < |b| then i + 1 else |b|;
            var content := StripCr(b[..i]);
            var rest := Select(Decoded(StreamLines(c, b[n..])), range, pattern);
            Select(Decoded(StreamLines(c, b)), range, pattern) ==
            if content != [] && c.dec(content).Some? && RecordMatches(c.dec(content).value, range, pattern)
            then [c.dec(content).value] + rest else rest
  {
    hide StreamLines, Select, Decoded, StripCr;
    StreamUnfold(c, b);
    var i := FirstNewline(b);
    var n := if i < |b| then i + 1 else |b|;
    var content, more := StripCr(b[..i]), StreamLines(c, b[n..]);
    if content == [] {
      assert StreamLines(c, b) == [] + more == more;
    } else {
      var d := c.dec(content);
      DecodedCons(d, more);
      if d.Some? {
        SelectCons(d.value, Decoded(more), range, pattern);
        assert [] + Select(Decoded(more), range, pattern) == Select(Decoded(more), range, pattern);
      } else {
        assert [] + Decoded(more) == Decoded(more);
      }
    }
  }

  lemma StreamUnfold(c: Codec, b: seq<byte>)
    requires b != []
    ensures var i := FirstNewline(b);
            var n := if i < |b| then i + 1 else |b|;
            var content := StripCr(b[..i]);
            StreamLines(c, b) == (if content == [] then [] else [c.dec(content)]) + StreamLines(c, b[n..])
  {
    assert b[|b|..] == [];
  }

  // ----- One object's batches -----

  /** The bag of matching records of one frame. */
  function FrameBag(frames: seq<seq<LogRecord>>, range: TimeRange, pattern: Pattern): Timed -> multiset<LogRecord> {
    (t: Timed) => multiset(Select(FrameAt(frames, t.span.frameIdx), range, pattern))
  }

  lemma {:induction false} ClusterBag(frames: seq<seq<LogRecord>>, cluster: seq<Timed>, range: TimeRange, pattern: Pattern)
    ensures multiset(Select(FrameRecords(frames, cluster), range, pattern)) == SumOver(cluster, FrameBag(frames, range, pattern))
  {
    if cluster != [] {
      ClusterBag(frames, cluster[1..], range, pattern);
      SelectAppend(FrameAt(frames, cluster[0].span.frameIdx), FrameRecords(frames, cluster[1..]), range, pattern);
    }
  }

  lemma {:induction false} OverlappingGenuine(c: Codec, frames: seq<seq<LogRecord>>, range: TimeRange, n: nat)
    requires n <= |frames| == |TsEntries(frames)|
    ensures forall t :: t in FramesOverlapping(FrameEntries(c, frames), TsEntries(frames), range, n) ==> Genuine(c, frames, t)
    decreases n
  {
    if n > 0 {
      OverlappingGenuine(c, frames, range, n - 1);
    }
  }

  lemma OneFrameBag(c: Codec, frames: seq<seq<LogRecord>>, range: TimeRange, pattern: Pattern, n: nat)
    requires 0 < n <= |frames| == |TsEntries(frames)|
    ensures var es, ts, f := FrameEntries(c, frames), TsEntries(frames), FrameBag(frames, range, pattern);
            SumOver(if Overlaps(range, ts[n - 1]) then [TimedAt(es, ts, n - 1)] else [], f)
            == multiset(Select(frames[n - 1], range, pattern))
  {
    hide FrameEntries, Select;
    var es, ts, f, last := FrameEntries(c, frames), TsEntries(frames), FrameBag(frames, range, pattern), frames[n - 1];
    if Overlaps(range, ts[n - 1]) {
      SumOverOne(TimedAt(es, ts, n - 1), f);
    } else {
      TightBounds(last);
      SelectNone(last, range, pattern);
    }
  }

  /** Pruning by the timestamp index loses no matching record. */
  lemma {:induction false} PruningIsSafe(c: Codec, frames: seq<seq<LogRecord>>, range: TimeRange, pattern: Pattern, n: nat)
    requires n <= |frames| == |TsEntries(frames)|
    ensures SumOver(FramesOverlapping(FrameEntries(c, frames), TsEntries(frames), range, n), FrameBag(frames, range, pattern))
            == multiset(Select(Flatten(frames[..n]), range, pattern))
    decreases n
  {
    hide *;
    if n == 0 {
      NothingPruned(c, frames, range, pattern);
    } else {
      PruningIsSafe(c, frames, range, pattern, n - 1);
      OneFrameBag(c, frames, range, pattern, n);
      var es, ts, f := FrameEntries(c, frames), TsEntries(frames), FrameBag(frames, range, pattern);
      TakeSnoc(frames, n - 1);
      FlattenSnoc(frames[..n - 1], frames[n - 1]);
      SelectAppend(Flatten(frames[..n - 1]), frames[n - 1], range, pattern);
      OverlappingStep(es, ts, range, n);
      SumOverAppend(FramesOverlapping(es, ts, range, n - 1), if Overlaps(range, ts[n - 1]) then [TimedAt(es, ts, n - 1)] else [], f);
    }
  }

  lemma NothingPruned(c: Codec, frames: seq<seq<LogRecord>>, range: TimeRange, pattern: Pattern)
    requires |frames| == |TsEntries(frames)|
    ensures SumOver(FramesOverlapping(FrameEntries(c, frames), TsEntries(frames), range, 0), FrameBag(frames, range, pattern))
            == multiset(Select(Flatten(frames[..0]), range, pattern))
  {
    hide FrameEntries, TsEntries, FrameBag;
    assert frames[..0] == [];
  }

  lemma OverlappingStep(es: seq<FrameEntry>, ts: seq<TsEntry>, range: TimeRange, n: nat)
    requires 0 < n <= |es| == |ts|
    ensures FramesOverlapping(es, ts, range, n) ==
            FramesOverlapping(es, ts, range, n - 1) + if Overlaps(range, ts[n - 1]) then [TimedAt(es, ts, n - 1)] else []
  {
  }

  /** The matching records of consecutive batches, in batch order. */
  function BatchesOf(frames: seq<seq<LogRecord>>, g: seq<seq<Timed>>, range: TimeRange, pattern: Pattern): (bs: seq<seq<LogRecord>>)
    ensures |bs| == |g|
  {
    if g == [] then []
    else [StableSort(Select(FrameRecords(frames, g[0]), range, pattern), RecLe)] + BatchesOf(frames, g[1..], range, pattern)
  }

  lemma {:induction false} BatchesBag(frames: seq<seq<LogRecord>>, g: seq<seq<Timed>>, range: TimeRange, pattern: Pattern)
    ensures multiset(Flatten(BatchesOf(frames, g, range, pattern))) == SumOver(Flatten(g), FrameBag(frames, range, pattern))
  {
    if g != [] {
      BatchesBag(frames, g[1..], range, pattern);
      StableSortPermutes(Select(FrameRecords(frames, g[0]), range, pattern), RecLe);
      ClusterBag(frames, g[0], range, pattern);
      SumOverAppend(g[0], Flatten(g[1..]), FrameBag(frames, range, pattern));
    }
  }

  /** A record of a batch lies within the time range of some frame of its cluster. */
  lemma {:induction false} RecordInFrame(frames: seq<seq<LogRecord>>, cluster: seq<Timed>, r: LogRecord) returns (t: Timed)
    requires r in FrameRecords(frames, cluster)
    ensures t in cluster && r in FrameAt(frames, t.span.frameIdx)
  {
    if r in FrameAt(frames, cluster[0].span.frameIdx) {
      t := cluster[0];
    } else {
      t := RecordInFrame(frames, cluster[1..], r);
    }
  }

  ghost predicate AllGenuine(c: Codec, frames: seq<seq<LogRecord>>, g: seq<seq<Timed>>) {
    forall i, t :: 0 <= i < |g| && t in g[i] ==> Genuine(c, frames, t)
  }

  lemma {:induction false} InSomeBatch(frames: seq<seq<LogRecord>>, g: seq<seq<Timed>>, range: TimeRange, pattern: Pattern, r: LogRecord)
    returns (i: nat, t: Timed)
    requires r in Flatten(BatchesOf(frames, g, range, pattern))
    ensures i < |g| && t in g[i] && r in FrameAt(frames, t.span.frameIdx)
  {
    hide StableSort, Select, FrameRecords, FrameAt, RecLe;
    var first := StableSort(Select(FrameRecords(frames, g[0]), range, pattern), RecLe);
    if r in first {
      StableSortPermutes(Select(FrameRecords(frames, g[0]), range, pattern), RecLe);
      assert r in multiset(first);
      SelectMember(FrameRecords(frames, g[0]), range, pattern, r);
      i := 0;
      t := RecordInFrame(frames, g[0], r);
    } else {
      i, t := InSomeBatch(frames, g[1..], range, pattern, r);
      i := i + 1;
    }
  }

  /** Because clusters are strictly ordered in time, the batches form one ascending stream. */
  lemma {:induction false} BatchesAscend(c: Codec, frames: seq<seq<LogRecord>>, g: seq<seq<Timed>>, range: TimeRange, pattern: Pattern)
    requires Separated(g) && AllGenuine(c, frames, g)
    ensures Sorted(Flatten(BatchesOf(frames, g, range, pattern)), RecLe)
  {
    if g != [] {
      RecOrder();
      var rest := Flatten(BatchesOf(frames, g[1..], range, pattern));
      var chosen := Select(FrameRecords(frames, g[0]), range, pattern);
      var first := StableSort(chosen, RecLe);
      TailClusters(c, frames, g);
      BatchesAscend(c, frames, g[1..], range, pattern);
      StableSortSorts(chosen, RecLe);
      forall a, b | a in first && b in rest ensures RecLe(a, b) {
        BatchBeforeRest(c, frames, g, range, pattern, a, b);
      }
      SortedConcat(first, rest);
    }
  }

  lemma TailClusters(c: Codec, frames: seq<seq<LogRecord>>, g: seq<seq<Timed>>)
    requires g != [] && Separated(g) && AllGenuine(c, frames, g)
    ensures Separated(g[1..]) && AllGenuine(c, frames, g[1..])
  {
    hide Genuine;
    var h := g[1..];
    forall i, j, a: Timed, b: Timed | 0 <= i < j < |h| && a in h[i] && b in h[j] ensures a.maxTs < b.minTs {
      assert a in g[i + 1] && b in g[j + 1];
    }
    forall i, t | 0 <= i < |h| && t in h[i] ensures Genuine(c, frames, t) {
      assert t in g[i + 1];
    }
  }

  lemma BatchBeforeRest(c: Codec, frames: seq<seq<LogRecord>>, g: seq<seq<Timed>>, range: TimeRange, pattern: Pattern, a: LogRecord, b: LogRecord)
    requires g != [] && Separated(g) && AllGenuine(c, frames, g)
    requires a in StableSort(Select(FrameRecords(frames, g[0]), range, pattern), RecLe)
    requires b in Flatten(BatchesOf(frames, g[1..], range, pattern))
    ensures a.timestamp < b.timestamp
  {
    hide Genuine;
    var chosen := Select(FrameRecords(frames, g[0]), range, pattern);
    StableSortPermutes(chosen, RecLe);
    assert a in multiset(StableSort(chosen, RecLe));
    SelectMember(FrameRecords(frames, g[0]), range, pattern, a);
    var ta := RecordInFrame(frames, g[0], a);
    var i, tb := InSomeBatch(frames, g[1..], range, pattern, b);
    assert tb in g[i + 1];
    assert ta.maxTs < tb.minTs;
    WithinFrame(c, frames, ta, a);
    WithinFrame(c, frames, tb, b);
  }

  lemma WithinFrame(c: Codec, frames: seq<seq<LogRecord>>, t: Timed, r: LogRecord)
    requires Genuine(c, frames, t) && r in FrameAt(frames, t.span.frameIdx)
    ensures t.minTs <= r.timestamp <= t.maxTs
  {
    GenuineFrame(c, frames, t);
    TightBounds(frames[t.span.frameIdx]);
  }

  lemma SortedConcat(a: seq<LogRecord>, b: seq<LogRecord>)
    requires Sorted(a, RecLe) && Sorted(b, RecLe) && forall x, y :: x in a && y in b ==> RecLe(x, y)
    ensures Sorted(a + b, RecLe)
  {
    var s := a + b;
    forall i, j | 0 <= i < j < |s| ensures RecLe(s[i], s[j]) {
      if j < |a| {
        assert s[i] == a[i] && s[j] == a[j];
      } else if i >= |a| {
        assert s[i] == b[i - |a|] && s[j] == b[j - |a|];
      } else {
        assert s[i] == a[i] && s[j] == b[j - |a|];
        assert a[i] in a && b[j - |a|] in b;
      }
    }
  }

  /** Whether the object can be read at all: frames in range within the ceiling, or the fallback within its cap. */
  ghost predicate Readable(c: Codec, o: StoredObject, frames: seq<seq<LogRecord>>, range: TimeRange) {
    if Indexed(o) then
      |TsEntries(frames)| == |FrameEntries(c, frames)| &&
      forall t :: t in FramesOverlapping(FrameEntries(c, frames), TsEntries(frames), range, |TsEntries(frames)|) ==> Decodable(c, frames, t)
    else |c.Lines(Flatten(frames))| <= FALLBACK_DECODE_CAP_BYTES
  }

  /**
   * Reading fails exactly when, with an index, a frame whose bounds meet the range
   * has more than 64 GiB of text, or without one, the object more than 2 GiB.
   */
  lemma ReadableMeans(c: Codec, o: StoredObject, frames: seq<seq<LogRecord>>, range: TimeRange)
    requires [] !in frames && range.fromMs < range.toMs
    ensures Readable(c, o, frames, range) <==>
            if Indexed(o) then MetAreSmall(c, frames, range) else |c.Lines(Flatten(frames))| <= 2_147_483_648
  {
    hide Codec.Lines, MinTs, MaxTs;
    if Indexed(o) {
      EntriesMatch(c, frames);
      if Readable(c, o, frames, range) {
        forall i, t | 0 <= i < |frames| && Meets(range, TsEntry(MinTs(frames[i]), MaxTs(frames[i])), t) ensures |c.Lines(frames[i])| <= 68_719_476_736 {
          MetIsFetched(c, frames, range, i, t);
          assert Decodable(c, frames, TimedAt(FrameEntries(c, frames), TsEntries(frames), i));
        }
      }
      if MetAreSmall(c, frames, range) {
        forall x | x in FramesOverlapping(FrameEntries(c, frames), TsEntries(frames), range, |TsEntries(frames)|) ensures Decodable(c, frames, x) {
          var i, t := FetchedIsMet(c, frames, range, x);
        }
      }
    }
  }

  /** Every frame with an instant of the range within its bounds has at most 64 GiB of text. */
  ghost predicate MetAreSmall(c: Codec, frames: seq<seq<LogRecord>>, range: TimeRange) {
    forall i, t :: 0 <= i < |frames| && Meets(range, TsEntry(MinTs(frames[i]), MaxTs(frames[i])), t) ==> |c.Lines(frames[i])| <= 68_719_476_736
  }

  lemma MetIsFetched(c: Codec, frames: seq<seq<LogRecord>>, range: TimeRange, i: nat, t: int)
    requires i < |frames| && [] !in frames && Meets(range, TsEntry(MinTs(frames[i]), MaxTs(frames[i])), t)
    ensures |FrameEntries(c, frames)| == |TsEntries(frames)| == |frames|
    ensures TimedAt(FrameEntries(c, frames), TsEntries(frames), i) in FramesOverlapping(FrameEntries(c, frames), TsEntries(frames), range, |TsEntries(frames)|)
  {
    hide Codec.Lines, MinTs, MaxTs, FrameEntries, FramesOverlapping;
    EntriesMatch(c, frames);
    PruningExact(FrameEntries(c, frames), TsEntries(frames), range, |frames|, i);
  }

  lemma FetchedIsMet(c: Codec, frames: seq<seq<LogRecord>>, range: TimeRange, x: Timed) returns (i: nat, t: int)
    requires [] !in frames && range.fromMs < range.toMs && |FrameEntries(c, frames)| == |TsEntries(frames)| == |frames|
    requires x in FramesOverlapping(FrameEntries(c, frames), TsEntries(frames), range, |TsEntries(frames)|)
    ensures i < |frames| && x.span.frameIdx == i && Meets(range, TsEntry(MinTs(frames[i]), MaxTs(frames[i])), t)
  {
    hide Codec.Lines, MinTs, MaxTs, FrameEntries, FramesOverlapping;
    var es, ts := FrameEntries(c, frames), TsEntries(frames);
    OverlappingIsIndexed(es, ts, range, |ts|, x);
    i :| 0 <= i < |frames| && x == TimedAt(es, ts, i);
    assert frames[i] in frames;
    BoundsOrdered(frames[i]);
    PruningExact(es, ts, range, |ts|, i);
    t :| Meets(range, ts[i], t);
  }

  lemma BoundsOrdered(frame: seq<LogRecord>)
    requires frame != []
    ensures MinTs(frame) <= MaxTs(frame)
  {
    TightBounds(frame);
    assert frame[0] in frame;
  }

  lemma {:induction false} OverlappingIsIndexed(es: seq<FrameEntry>, ts: seq<TsEntry>, range: TimeRange, n: nat, t: Timed)
    requires n <= |es| == |ts| && t in FramesOverlapping(es, ts, range, n)
    ensures exists i :: 0 <= i < n && t == TimedAt(es, ts, i)
  {
    if t in FramesOverlapping(es, ts, range, n - 1) {
      OverlappingIsIndexed(es, ts, range, n - 1, t);
    }
  }

  lemma EntriesMatch(c: Codec, frames: seq<seq<LogRecord>>)
    ensures |FrameEntries(c, frames)| == |TsEntries(frames)| == |frames|
  {
  }

  lemma NoBatches(frames: seq<seq<LogRecord>>, range: TimeRange, pattern: Pattern)
    ensures BatchesOf(frames, [], range, pattern) == []
  {
  }

  /** The clusters of the pruned frames hold exactly the matching records, ascending. */
  lemma PlanIsRight(c: Codec, frames: seq<seq<LogRecord>>, range: TimeRange, pattern: Pattern, timed: seq<Timed>, g: seq<seq<Timed>>)
    requires |TsEntries(frames)| == |frames|
    requires timed == FramesOverlapping(FrameEntries(c, frames), TsEntries(frames), range, |frames|)
    requires Clustering(timed, g)
    ensures multiset(Flatten(g)) == multiset(timed)
    ensures forall i, t :: 0 <= i < |g| && t in g[i] ==> t in timed && Genuine(c, frames, t)
    ensures Sorted(Flatten(BatchesOf(frames, g, range, pattern)), RecLe)
    ensures multiset(Flatten(BatchesOf(frames, g, range, pattern))) == multiset(Select(Flatten(frames), range, pattern))
  {
    hide Select, FrameEntries, TsEntries, Genuine, Separated, FramesOverlapping, BatchesOf, Clustering, FrameBag;
    ClustersPartition(timed, g);
    ClusterMembers(timed, g);
    OverlappingGenuine(c, frames, range, |frames|);
    PruningIsSafe(c, frames, range, pattern, |frames|);
    assert frames[..|frames|] == frames;
    SumOverPermutes(Flatten(g), timed, FrameBag(frames, range, pattern));
    BatchesBag(frames, g, range, pattern);
    BatchesAscend(c, frames, g, range, pattern);
  }

  lemma BatchesStep(frames: seq<seq<LogRecord>>, g: seq<seq<Timed>>, range: TimeRange, pattern: Pattern, i: nat,
                    batches: seq<seq<LogRecord>>, next: seq<LogRecord>)
    requires i < |g| && next == StableSort(Select(FrameRecords(frames, g[i]), range, pattern), RecLe)
    ensures batches + BatchesOf(frames, g[i..], range, pattern) == batches + [next] + BatchesOf(frames, g[i + 1..], range, pattern)
  {
    hide StableSort, Select;
    assert g[i..][0] == g[i] && g[i..][1..] == g[i + 1..];
    Assoc(batches, [next], BatchesOf(frames, g[i + 1..], range, pattern));
  }

  lemma ClusterMembers(timed: seq<Timed>, g: seq<seq<Timed>>)
    requires multiset(Flatten(g)) == multiset(timed)
    ensures forall i, t :: 0 <= i < |g| && t in g[i] ==> t in timed
  {
    forall i, t | 0 <= i < |g| && t in g[i] ensures t in timed {
      FlattenMember(g, t);
      assert t in multiset(Flatten(g));
    }
  }
}
