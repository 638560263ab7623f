/** Reading one data object into batches, through its sidecars or without them. */
module ObjectReader {
  import opened Common
  import opened Sorting
  import opened Chunk
  import opened Merge
  import opened Clusters
  import opened ScanObject
  import opened TieOrder

  /** The order in which reading meets an object's records. */
  function ReadOrder(c: Codec, o: StoredObject, frames: seq<seq<LogRecord>>, range: TimeRange): seq<LogRecord> {
    if Indexed(o) then ByStart(c, frames, range) else Flatten(frames)
  }

  /** The object is read in arrival order as far as ties go: it has no index, or its index is in order. */
  ghost predicate Orderly(o: StoredObject, frames: seq<seq<LogRecord>>, range: TimeRange) {
    Indexed(o) ==> InOrder(TsEntries(frames), range)
  }

  /** No indexed frame overlaps the range: nothing of the object is fetched. */
  predicate AllPruned(o: StoredObject, range: TimeRange) {
    Indexed(o) && FramesOverlapping(o.sidecars.value.0, o.sidecars.value.1, range, |o.sidecars.value.0|) == []
  }

  /** What reading an object that stores these frames must return. */
  ghost predicate ReadsRight(
    c: Codec, o: StoredObject, range: TimeRange, pattern: Pattern, frames: seq<seq<LogRecord>>, r: Result<seq<seq<LogRecord>>, ScanError>)
  {
    && (r.Ok? <==> Readable(c, o, frames, range))
    && (r.Ok? ==> Sorted(Flatten(r.value), RecLe))
    && (r.Ok? ==> multiset(Flatten(r.value)) == multiset(Select(Flatten(frames), range, pattern)))
    && (r.Ok? ==> Filtered(multiset(Flatten(r.value)), multiset(Flatten(frames)), range, pattern))
    && (r.Ok? ==> Flatten(r.value) == StableSort(Select(ReadOrder(c, o, frames, range), range, pattern), RecLe))
    && (r.Ok? && Orderly(o, frames, range) ==> Flatten(r.value) == StableSort(Select(Flatten(frames), range, pattern), RecLe))
  }

  /**
   * The batches of one object. If it stores frames, its sidecars being missing,
   * rejected or its own, they hold exactly the matching records and, concatenated,
   * ascend; reading fails exactly when something is above a decode cap. The batches
   * are one stable sort of the object in reading order, which is arrival order when
   * there is no index or the index is in order. Any sidecars whose entries all miss
   * the range make the object read as empty.
   */
  method ReadObject(c: Codec, o: StoredObject, range: TimeRange, pattern: Pattern, ghost frames: seq<seq<LogRecord>>)
    returns (r: Result<seq<seq<LogRecord>>, ScanError>)
    ensures c.Lawful() && Stores(c, o, frames) ==> ReadsRight(c, o, range, pattern, frames, r)
    ensures AllPruned(o, range) ==> r == Ok([])
  {
    hide StableSort, Select, Stores, Readable, Codec.Lawful, Sorted, FramesOverlapping, Filtered;
    SelectFilters(Flatten(frames), range, pattern);
    if Indexed(o) {
      r := ReadIndexed(c, o, range, pattern, frames);
      if c.Lawful() && Stores(c, o, frames) && Orderly(o, frames, range) {
        InOrderKeepsArrival(c, frames, range, pattern);
      }
    } else {
      r := ReadWhole(c, o, range, pattern, frames);
    }
  }

  method ReadWhole(c: Codec, o: StoredObject, range: TimeRange, pattern: Pattern, ghost frames: seq<seq<LogRecord>>)
    returns (r: Result<seq<seq<LogRecord>>, ScanError>)
    requires !Indexed(o)
    ensures c.Lawful() && Stores(c, o, frames) ==> ReadsRight(c, o, range, pattern, frames, r)
  {
    hide StableSort, Select, Sorted, Filtered;
    SelectFilters(Flatten(frames), range, pattern);
    ghost var rs := Flatten(frames);
    ghost var own := c.Lawful() && Stores(c, o, frames);
    if own {
      BodyText(c, o, frames);
    }
    hide Stores, Codec.Lawful;
    var plain := c.unzip(o.body);
    if plain.None? {
      return Err(Decode(Io));
    }
    var got := StreamFullObject(c, plain.value, range, pattern);
    if got.Err? {
      return Err(got.error);
    }
    if own {
      StreamLinesIntact(c, rs);
      DecodedIntact(rs);
    }
    RecOrder();
    StableSortSorts(got.value, RecLe);
    var batch := StableSort(got.value, RecLe);
    assert Flatten([batch]) == batch + Flatten([batch][1..]) == batch;
    return Ok([batch]);
  }

  lemma BodyText(c: Codec, o: StoredObject, frames: seq<seq<LogRecord>>)
    requires c.Lawful() && Stores(c, o, frames)
    ensures c.unzip(o.body) == Some(c.Lines(Flatten(frames)))
  {
    c.PlainsFlatten(frames);
  }

  method ReadIndexed(c: Codec, o: StoredObject, range: TimeRange, pattern: Pattern, ghost frames: seq<seq<LogRecord>>)
    returns (r: Result<seq<seq<LogRecord>>, ScanError>)
    requires Indexed(o)
    ensures c.Lawful() && Stores(c, o, frames) ==>
              && (r.Ok? <==> Readable(c, o, frames, range))
              && (r.Ok? ==> Sorted(Flatten(r.value), RecLe))
              && (r.Ok? ==> multiset(Flatten(r.value)) == multiset(Select(Flatten(frames), range, pattern)))
              && (r.Ok? ==> Flatten(r.value) == StableSort(Select(ByStart(c, frames, range), range, pattern), RecLe))
    ensures AllPruned(o, range) ==> r == Ok([])
  {
    hide ByStart, StableSort, Select, Genuine, Decodable, FramesOverlapping, BatchesOf, FrameEntries, TsEntries, Sorted;
    var es, ts := o.sidecars.value.0, o.sidecars.value.1;
    var timed := FramesOverlapping(es, ts, range, |es|);
    var clusters, g := ClusterSpans(timed);
    NoClusters();
    r := FetchAll(c, o.body, clusters, range, pattern, frames, g);
    if c.Lawful() && Stores(c, o, frames) {
      EntriesMatch(c, frames);
      PlanIsRight(c, frames, range, pattern, timed, g);
      BatchesAreOneSort(c, frames, range, pattern, g);
      assert OwnPlan(c, o.body, frames, g);
      PlanDecodable(c, frames, timed, g);
    }
  }

  lemma PlanDecodable(c: Codec, frames: seq<seq<LogRecord>>, timed: seq<Timed>, g: seq<seq<Timed>>)
    requires multiset(Flatten(g)) == multiset(timed)
    ensures (forall t :: t in timed ==> Decodable(c, frames, t)) <==> AllDecodable(c, frames, g)
  {
    hide Decodable;
    ClusterMembers(timed, g);
    if AllDecodable(c, frames, g) {
      forall t | t in timed ensures Decodable(c, frames, t) {
        assert t in multiset(Flatten(g));
        FlattenMember(g, t);
      }
    }
  }

  ghost predicate OwnPlan(c: Codec, body: seq<byte>, frames: seq<seq<LogRecord>>, g: seq<seq<Timed>>) {
    c.Lawful() && body == c.Zipped(c.Plains(frames)) && forall i, t :: 0 <= i < |g| && t in g[i] ==> Genuine(c, frames, t)
  }

  ghost predicate AllDecodable(c: Codec, frames: seq<seq<LogRecord>>, g: seq<seq<Timed>>) {
    forall i, t :: 0 <= i < |g| && t in g[i] ==> Decodable(c, frames, t)
  }

  /** Fetch and decode the clusters one after another. */
  method FetchAll(c: Codec, body: seq<byte>, clusters: seq<seq<FrameSpan>>, range: TimeRange, pattern: Pattern,
                  ghost frames: seq<seq<LogRecord>>, ghost g: seq<seq<Timed>>)
    returns (r: Result<seq<seq<LogRecord>>, ScanError>)
    requires clusters == AllSpans(g)
    ensures OwnPlan(c, body, frames, g) ==> (r.Ok? <==> AllDecodable(c, frames, g)) && (r.Ok? ==> r.value == BatchesOf(frames, g, range, pattern))
    ensures clusters == [] ==> r == Ok([])
  {
    hide StableSort, Select, Genuine, Decodable, BatchesOf;
    ghost var own := OwnPlan(c, body, frames, g);
    NoBatches(frames, range, pattern);
    var batches: seq<seq<LogRecord>> := [];
    TakeAll(g);
    for i := 0 to |clusters|
      invariant own ==> batches + BatchesOf(frames, g[i..], range, pattern) == BatchesOf(frames, g, range, pattern)
      invariant own ==> forall k, t :: 0 <= k < i && t in g[k] ==> Decodable(c, frames, t)
      invariant |clusters| == 0 ==> batches == []
    {
      var got := FetchCluster(c, body, clusters[i], range, pattern, frames, g[i]);
      if got.Err? {
        return Err(got.error);
      }
      if own {
        BatchesStep(frames, g, range, pattern, i, batches, got.value);
      }
      batches := batches + [got.value];
    }
    assert batches + [] == batches;
    return Ok(batches);
  }

  lemma NoClusters()
    ensures Group(StableSort([], TimedLe)) == []
  {
  }

  /**
   * Foreign sidecars at an input: the body is one frame with events at 3 and 5, the
   * sidecars say [5, 5]. For the range [3, 4) nothing is fetched and no error is
   * raised, while the body holds a matching record.
   */
  lemma ForeignSidecarsLose(c: Codec, three: LogRecord, five: LogRecord, entry: FrameEntry)
    requires three.timestamp == 3 && five.timestamp == 5
    ensures var frames, range := [[three, five]], TimeRange(3, 4);
            var o := StoredObject(c.Zipped(c.Plains(frames)), Some(([entry], [TsEntry(5, 5)])));
            && AllPruned(o, range) && Select(Flatten(frames), range, None) == [three]
            && !Stores(c, o, frames)
  {
    var range := TimeRange(3, 4);
    assert Flatten([[three, five]]) == [three, five];
    assert [three, five][1..] == [five] && [five][1..] == [];
    assert Kept(three, range, None) == [three] && Kept(five, range, None) == [];
    assert Select([five], range, None) == [] + Select([], range, None) == [];
    assert FramesOverlapping([entry], [TsEntry(5, 5)], range, 1) == FramesOverlapping([entry], [TsEntry(5, 5)], range, 0) + [];
    TightBounds([three, five]);
    assert three in [three, five];
    assert TsEntries([[three, five]])[0].minTs <= 3;
  }
}
