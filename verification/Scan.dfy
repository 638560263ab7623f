/**
 * The multi-group scan: list the objects of each group for a range, read each
 * into batches, merge everything into one time-ordered stream.
 */
module Scan {
  import opened Common
  import opened Sorting
  import opened Bags
  import opened Chunk
  import opened Merge
  import Clusters
  import opened ScanObject
  import opened TieOrder
  import opened ObjectReader
  import opened ScanOrder

  const MAX_PER_DT_LISTS: nat := 32

  /** One listed data object: its group, date partition (day number) and name. */
  datatype Entry = Entry(group: string, day: int, name: string, obj: StoredObject)

  predicate EntryLe(a: Entry, b: Entry) {
    a.day < b.day || (a.day == b.day && StrLe(a.name, b.name))
  }

  lemma EntryOrder()
    ensures TotalPreorder(EntryLe)
  {
    forall a: Entry, b: Entry ensures EntryLe(a, b) || EntryLe(b, a) {
      StrLeTotal(a.name, b.name);
    }
    forall a: Entry, b: Entry, c: Entry | EntryLe(a, b) && EntryLe(b, c) ensures EntryLe(a, c) {
      if a.day == b.day == c.day {
        StrLeTransitive(a.name, b.name, c.name);
      }
    }
  }

  // ----- Dates -----

  /** The day numbers a half-open range touches. */
  function DatesInRange(range: TimeRange): seq<int> {
    if range.fromMs >= range.toMs then []
    else
      var first := Day(range.fromMs);
      var last := Day(range.toMs - 1);
      seq(if last >= first then last - first + 1 else 0, i => first + i)
  }

  /** Exactly the days of the instants in the range. */
  lemma DatesExact(range: TimeRange, d: int)
    ensures d in DatesInRange(range) <==> exists t :: range.fromMs <= t < range.toMs && Day(t) == d
    ensures d in DatesInRange(range) <==> range.fromMs < range.toMs && d * 86_400_000 < range.toMs && range.fromMs < (d + 1) * 86_400_000
  {
    if range.fromMs < range.toMs {
      var first, last := Day(range.fromMs), Day(range.toMs - 1);
      if first <= d <= last {
        var t := Max(range.fromMs, d * DAY_MS);
        assert Day(t) == d && range.fromMs <= t < range.toMs;
        assert DatesInRange(range)[d - first] == d;
      }
      if t :| range.fromMs <= t < range.toMs && Day(t) == d {
        assert first <= d <= last;
      }
    }
  }

  // ----- Listing -----

  function Keep(es: seq<Entry>, p: Entry -> bool): seq<Entry> {
    if es == [] then [] else (if p(es[0]) then [es[0]] else []) + Keep(es[1..], p)
  }

  function InDates(group: string, dates: seq<int>): Entry -> bool {
    (e: Entry) => e.group == group && e.day in dates
  }

  function InGroup(group: string): Entry -> bool {
    (e: Entry) => e.group == group
  }

  /** No two objects share group, date and name. */
  ghost predicate DistinctKeys(es: seq<Entry>) {
    forall i, j :: 0 <= i < j < |es| ==> !(es[i].group == es[j].group && es[i].day == es[j].day && es[i].name == es[j].name)
  }

  lemma {:induction false} KeepMembers(es: seq<Entry>, p: Entry -> bool, e: Entry)
    ensures e in Keep(es, p) <==> e in es && p(e)
  {
    if es != [] {
      KeepMembers(es[1..], p, e);
    }
  }

  lemma {:induction false} KeepSplit(es: seq<Entry>, p: Entry -> bool, q: Entry -> bool, r: Entry -> bool)
    requires forall e :: e in es ==> (r(e) <==> p(e) || q(e)) && !(p(e) && q(e))
    ensures multiset(Keep(es, r)) == multiset(Keep(es, p)) + multiset(Keep(es, q))
  {
    if es != [] {
      KeepSplit(es[1..], p, q, r);
      assert es[0] in es;
    }
  }

  lemma {:induction false} KeepTwice(es: seq<Entry>, p: Entry -> bool, q: Entry -> bool, r: Entry -> bool)
    requires forall e :: r(e) <==> p(e) && q(e)
    ensures Keep(Keep(es, p), q) == Keep(es, r)
  {
    if es != [] {
      KeepTwice(es[1..], p, q, r);
      var k := Keep(es[1..], p);
      if p(es[0]) {
        assert ([es[0]] + k)[0] == es[0] && ([es[0]] + k)[1..] == k;
      } else {
        assert Keep(es, p) == [] + k == k;
        assert [] + Keep(es[1..], r) == Keep(es[1..], r);
      }
    }
  }

  lemma {:induction false} KeepNone(es: seq<Entry>, p: Entry -> bool)
    requires forall e :: e in es ==> !p(e)
    ensures Keep(es, p) == []
  {
    if es != [] {
      KeepNone(es[1..], p);
    }
  }

  /** The objects of a group in a range's dates, by (date, name): what either listing mode returns. */
  function Listing(es: seq<Entry>, group: string, range: TimeRange): seq<Entry> {
    StableSort(Keep(es, InDates(group, DatesInRange(range))), EntryLe)
  }

  lemma GroupHasNoTies(es: seq<Entry>, group: string, s: seq<Entry>)
    requires DistinctKeys(es) && forall e :: e in s ==> e in es && e.group == group
    ensures NoTies(s, EntryLe)
  {
    forall i, j | 0 <= i < |s| && 0 <= j < |s| && EntryLe(s[i], s[j]) && EntryLe(s[j], s[i]) ensures s[i] == s[j] {
      StrLeTotal(s[i].name, s[j].name);
      assert s[i] in s && s[j] in s;
      var a :| 0 <= a < |es| && es[a] == s[i];
      var b :| 0 <= b < |es| && es[b] == s[j];
    }
  }

  lemma SameListing(es: seq<Entry>, group: string, range: TimeRange, locs: seq<Entry>)
    requires DistinctKeys(es) && multiset(locs) == multiset(Keep(es, InDates(group, DatesInRange(range))))
    ensures StableSort(locs, EntryLe) == Listing(es, group, range)
  {
    EntryOrder();
    var kept := Keep(es, InDates(group, DatesInRange(range)));
    var a, b := StableSort(locs, EntryLe), StableSort(kept, EntryLe);
    StableSortSorts(locs, EntryLe);
    StableSortSorts(kept, EntryLe);
    forall e | e in a ensures e in es && e.group == group {
      assert e in multiset(a);
      assert e in kept;
      KeepMembers(es, InDates(group, DatesInRange(range)), e);
    }
    GroupHasNoTies(es, group, a);
    SortedPermutationUnique(a, b, EntryLe);
  }

  lemma {:induction false} KeepCounts(es: seq<Entry>, p: Entry -> bool, e: Entry)
    ensures multiset(Keep(es, p))[e] == if p(e) then multiset(es)[e] else 0
  {
    if es != [] {
      KeepCounts(es[1..], p, e);
      assert es == [es[0]] + es[1..];
    }
  }

  /** The group's objects whose UTC day meets the range, by date and name. */
  lemma ListingMeans(es: seq<Entry>, group: string, range: TimeRange)
    ensures var locs := Listing(es, group, range);
            && (forall e: Entry :: multiset(locs)[e] ==
                  if e.group == group && range.fromMs < range.toMs && e.day * 86_400_000 < range.toMs && range.fromMs < (e.day + 1) * 86_400_000
                  then multiset(es)[e] else 0)
            && (forall i, k :: 0 <= i < k < |locs| ==> locs[i].day < locs[k].day || (locs[i].day == locs[k].day && StrLe(locs[i].name, locs[k].name)))
  {
    var p := InDates(group, DatesInRange(range));
    var locs := Listing(es, group, range);
    EntryOrder();
    StableSortSorts(Keep(es, p), EntryLe);
    StableSortPermutes(Keep(es, p), EntryLe);
    hide StableSort, Keep, StrLe, DatesInRange;
    forall e: Entry ensures multiset(locs)[e] ==
                     if e.group == group && range.fromMs < range.toMs && e.day * 86_400_000 < range.toMs && range.fromMs < (e.day + 1) * 86_400_000
                     then multiset(es)[e] else 0
    {
      KeepCounts(es, p, e);
      DatesExact(range, e.day);
    }
    forall i, k | 0 <= i < k < |locs| ensures locs[i].day < locs[k].day || (locs[i].day == locs[k].day && StrLe(locs[i].name, locs[k].name)) {
      assert EntryLe(locs[i], locs[k]);
    }
  }

  /**
   * One LIST per date for narrow ranges, one LIST of the whole group filtered
   * afterwards for wide ones; both modes return the same sequence.
   */
  method ListRangeChunks(es: seq<Entry>, group: string, range: TimeRange) returns (locs: seq<Entry>)
    requires DistinctKeys(es)
    ensures locs == Listing(es, group, range)
    ensures forall e: Entry :: multiset(locs)[e] ==
              if e.group == group && range.fromMs < range.toMs && e.day * 86_400_000 < range.toMs && range.fromMs < (e.day + 1) * 86_400_000
              then multiset(es)[e] else 0
    ensures forall i, k :: 0 <= i < k < |locs| ==> locs[i].day < locs[k].day || (locs[i].day == locs[k].day && StrLe(locs[i].name, locs[k].name))
  {
    ListingMeans(es, group, range);
    hide StableSort, Listing;
    var dates := DatesInRange(range);
    locs := [];
    if |dates| <= MAX_PER_DT_LISTS {
      KeepNone(es, InDates(group, []));
      assert dates[..0] == [];
      for i := 0 to |dates|
        invariant multiset(locs) == multiset(Keep(es, InDates(group, dates[..i])))
      {
        OneMoreDate(es, group, range, i);
        locs := locs + Keep(es, InDates(group, [dates[i]]));
      }
      assert dates[..|dates|] == dates;
    } else {
      var chunks := Keep(es, InGroup(group));
      KeepTwice(es, InGroup(group), (e: Entry) => e.day in dates, InDates(group, dates));
      locs := Keep(chunks, (e: Entry) => e.day in dates);
    }
    SameListing(es, group, range, locs);
    locs := StableSort(locs, EntryLe);
  }

  lemma OneMoreDate(es: seq<Entry>, group: string, range: TimeRange, i: nat)
    requires i < |DatesInRange(range)|
    ensures var dates := DatesInRange(range);
            multiset(Keep(es, InDates(group, dates[..i + 1]))) ==
            multiset(Keep(es, InDates(group, dates[..i]))) + multiset(Keep(es, InDates(group, [dates[i]])))
  {
    var dates := DatesInRange(range);
    assert dates[..i + 1] == dates[..i] + [dates[i]];
    assert dates[i] !in dates[..i];
    KeepSplit(es, InDates(group, dates[..i]), InDates(group, [dates[i]]), InDates(group, dates[..i + 1]));
  }

  // ----- What a scan should return -----

  /** The object is well formed. */
  ghost predicate Sound(c: Codec, o: StoredObject) {
    exists frames :: Stores(c, o, frames)
  }

  ghost function FramesIn(c: Codec, o: StoredObject): seq<seq<LogRecord>> {
    if Sound(c, o) then var frames :| Stores(c, o, frames); frames else []
  }

  ghost function RecordsIn(c: Codec, o: StoredObject): seq<LogRecord> {
    Flatten(FramesIn(c, o))
  }

  /** Every object is well formed and holds only records of its own date. */
  ghost predicate SoundArchive(c: Codec, es: seq<Entry>) {
    && DistinctKeys(es)
    && (forall e :: e in es ==> Sound(c, e.obj))
    && (forall e, r :: e in es && r in RecordsIn(c, e.obj) ==> Day(r.timestamp) == e.day)
  }

  ghost function MatchesIn(c: Codec, range: TimeRange, pattern: Pattern): Entry -> multiset<LogRecord> {
    (e: Entry) => multiset(Select(RecordsIn(c, e.obj), range, pattern))
  }

  /** All matching records of one group, decoding everything. */
  ghost function GroupMatches(c: Codec, es: seq<Entry>, group: string, range: TimeRange, pattern: Pattern): multiset<LogRecord> {
    SumOver(Keep(es, InGroup(group)), MatchesIn(c, range, pattern))
  }

  /** Objects outside the range's dates hold nothing that matches, so date pruning is safe. */
  lemma OtherDatesEmpty(c: Codec, es: seq<Entry>, e: Entry, range: TimeRange, pattern: Pattern)
    requires SoundArchive(c, es) && e in es && e.day !in DatesInRange(range)
    ensures MatchesIn(c, range, pattern)(e) == multiset{}
  {
    forall r | r in RecordsIn(c, e.obj) ensures !RecordMatches(r, range, pattern) {
      DatesExact(range, Day(r.timestamp));
    }
    SelectNone(RecordsIn(c, e.obj), range, pattern);
  }

  lemma {:induction false} PrunedDates(c: Codec, all: seq<Entry>, es: seq<Entry>, group: string, range: TimeRange, pattern: Pattern)
    requires SoundArchive(c, all) && forall e :: e in es ==> e in all
    ensures SumOver(Keep(es, InDates(group, DatesInRange(range))), MatchesIn(c, range, pattern))
            == SumOver(Keep(es, InGroup(group)), MatchesIn(c, range, pattern))
  {
    hide MatchesIn, DatesInRange;
    if es != [] {
      PrunedDates(c, all, es[1..], group, range, pattern);
      var f, e := MatchesIn(c, range, pattern), es[0];
      assert e in es;
      var p, q := InDates(group, DatesInRange(range)), InGroup(group);
      KeepOne(es, p, f);
      KeepOne(es, q, f);
      if q(e) && !p(e) {
        OtherDatesEmpty(c, all, e, range, pattern);
      }
    }
  }

  lemma KeepOne(es: seq<Entry>, p: Entry -> bool, f: Entry -> multiset<LogRecord>)
    requires es != []
    ensures SumOver(Keep(es, p), f) == (if p(es[0]) then f(es[0]) else multiset{}) + SumOver(Keep(es[1..], p), f)
  {
    if p(es[0]) {
      SumOverAppend([es[0]], Keep(es[1..], p), f);
      SumOverOne(es[0], f);
    } else {
      assert Keep(es, p) == [] + Keep(es[1..], p) == Keep(es[1..], p);
    }
  }

  lemma ListedAreStored(es: seq<Entry>, group: string, range: TimeRange)
    ensures forall e :: e in Listing(es, group, range) ==> e in es
  {
    var kept := Keep(es, InDates(group, DatesInRange(range)));
    StableSortPermutes(kept, EntryLe);
    forall e | e in Listing(es, group, range) ensures e in es {
      assert e in multiset(Listing(es, group, range));
      KeepMembers(es, InDates(group, DatesInRange(range)), e);
    }
  }

  lemma ListingHoldsGroupMatches(c: Codec, es: seq<Entry>, group: string, range: TimeRange, pattern: Pattern)
    requires SoundArchive(c, es)
    ensures SumOver(Listing(es, group, range), MatchesIn(c, range, pattern)) == GroupMatches(c, es, group, range, pattern)
  {
    hide MatchesIn;
    var kept := Keep(es, InDates(group, DatesInRange(range)));
    StableSortPermutes(kept, EntryLe);
    SumOverPermutes(Listing(es, group, range), kept, MatchesIn(c, range, pattern));
    PrunedDates(c, es, es, group, range, pattern);
  }

  // ----- Sources -----

  ghost predicate Ascending(sources: seq<seq<seq<LogRecord>>>) {
    AllSorted(FlattenEach(sources))
  }

  /** The matching records of an object in reading order, and in arrival order. */
  ghost function Reading(c: Codec, range: TimeRange, pattern: Pattern): Entry -> seq<LogRecord> {
    (e: Entry) => Select(ReadOrder(c, e.obj, FramesIn(c, e.obj), range), range, pattern)
  }

  ghost function Arriving(c: Codec, range: TimeRange, pattern: Pattern): Entry -> seq<LogRecord> {
    (e: Entry) => Select(RecordsIn(c, e.obj), range, pattern)
  }

  /** Every listed object can be decoded within the caps. */
  ghost predicate GroupReadable(c: Codec, es: seq<Entry>, group: string, range: TimeRange) {
    forall e :: e in Listing(es, group, range) ==> Readable(c, e.obj, FramesIn(c, e.obj), range)
  }

  /** Read every listed object of one group into a source of ascending batches. */
  method BuildGroupSources(c: Codec, es: seq<Entry>, group: string, range: TimeRange, pattern: Pattern)
    returns (r: Result<seq<seq<seq<LogRecord>>>, ScanError>)
    requires c.Lawful() && SoundArchive(c, es)
    ensures r.Ok? <==> GroupReadable(c, es, group, range)
    ensures r.Ok? ==> Ascending(r.value)
    ensures r.Ok? ==> SameTies(Concatenated(r.value), Cat(Listing(es, group, range), Reading(c, range, pattern)), RecLe)
  {
    hide Listing, Readable, Select, Sorted, Stores, Sound, Ascending, FramesIn, SameTies, StableSort, RecLe, ReadOrder, Concatenated, Cat;
    ListedAreStored(es, group, range);
    var locs := ListRangeChunks(es, group, range);
    var sources: seq<seq<seq<LogRecord>>> := [];
    ghost var f := Reading(c, range, pattern);
    NoSources(f);
    TakeAll(locs);
    for i := 0 to |locs|
      invariant Ascending(sources)
      invariant SameTies(Concatenated(sources), Cat(locs[..i], f), RecLe)
      invariant forall e :: e in locs[..i] ==> Readable(c, e.obj, FramesIn(c, e.obj), range)
    {
      assert locs[i] in locs;
      SoundEntry(c, es, locs[i]);
      var got := ReadObject(c, locs[i].obj, range, pattern, FramesIn(c, locs[i].obj));
      assert ReadsRight(c, locs[i].obj, range, pattern, FramesIn(c, locs[i].obj), got);
      if got.Err? {
        return Err(got.error);
      }
      TakeSnoc(locs, i);
      AddSource(locs[..i], locs[i], f, sources, got.value);
      AddAscending(sources, got.value);
      if got.value != [] {
        sources := sources + [got.value];
      }
    }
    TakeAll(locs);
    return Ok(sources);
  }

  lemma NoSources(f: Entry -> seq<LogRecord>)
    ensures SameTies(Concatenated([]), Cat([], f), RecLe) && Ascending([])
  {
  }

  lemma SoundEntry(c: Codec, es: seq<Entry>, e: Entry)
    requires SoundArchive(c, es) && e in es
    ensures Stores(c, e.obj, FramesIn(c, e.obj))
  {
    hide Stores;
    assert Sound(c, e.obj);
  }

  lemma AddSource(locs: seq<Entry>, e: Entry, f: Entry -> seq<LogRecord>, sources: seq<seq<seq<LogRecord>>>, s: seq<seq<LogRecord>>)
    requires SameTies(Concatenated(sources), Cat(locs, f), RecLe) && Flatten(s) == StableSort(f(e), RecLe)
    ensures SameTies(Concatenated(sources + [s]), Cat(locs + [e], f), RecLe)
    ensures s == [] ==> SameTies(Concatenated(sources), Cat(locs + [e], f), RecLe)
  {
    hide SameTies, Concatenated, Cat, StableSort, RecLe, TotalPreorder;
    PairOrder();
    ConcatenatedSnoc(sources, s);
    CatSnoc(locs, e, f);
    SortedHasSameTies(f(e), RecLe);
    SameTiesAppend(Concatenated(sources), Cat(locs, f), Flatten(s), f(e), RecLe);
    if s == [] {
      assert Concatenated(sources) + [] == Concatenated(sources);
    }
  }

  lemma AddAscending(sources: seq<seq<seq<LogRecord>>>, s: seq<seq<LogRecord>>)
    requires Ascending(sources) && Sorted(Flatten(s), RecLe)
    ensures Ascending(sources + [s])
  {
    hide Sorted;
    forall i | 0 <= i < |sources| + 1 ensures Sorted(FlattenEach(sources + [s])[i], RecLe) {
      if i < |sources| {
        assert FlattenEach(sources + [s])[i] == FlattenEach(sources)[i];
      }
    }
  }

  lemma JoinAscending(a: seq<seq<seq<LogRecord>>>, b: seq<seq<seq<LogRecord>>>)
    requires Ascending(a) && Ascending(b)
    ensures Ascending(a + b)
  {
    hide Sorted;
    forall i | 0 <= i < |a| + |b| ensures Sorted(FlattenEach(a + b)[i], RecLe) {
      if i < |a| {
        assert FlattenEach(a + b)[i] == FlattenEach(a)[i];
      } else {
        assert FlattenEach(a + b)[i] == FlattenEach(b)[i - |a|];
      }
    }
  }

  // ----- The scan -----

  /** All matching records of the chosen groups, each with its group: decode everything, filter. */
  ghost function Expected(c: Codec, es: seq<Entry>, groups: seq<string>, range: TimeRange, pattern: Pattern): multiset<(LogRecord, string)> {
    if groups == [] then multiset{}
    else
      var n := |groups| - 1;
      Expected(c, es, groups[..n], range, pattern)
      + multiset(WithGroup(Cat(Keep(es, InGroup(groups[n])), Arriving(c, range, pattern)), groups[n]))
  }

  /** The matching records group by group, object by object in (date, name) order, each object's as f gives them. */
  ghost function InListing(es: seq<Entry>, groups: seq<string>, range: TimeRange, f: Entry -> seq<LogRecord>): seq<(LogRecord, string)> {
    if groups == [] then []
    else
      var n := |groups| - 1;
      InListing(es, groups[..n], range, f) + WithGroup(Cat(Listing(es, groups[n], range), f), groups[n])
  }

  /** Every object the scan would touch can be decoded within the caps. */
  ghost predicate AllReadable(c: Codec, es: seq<Entry>, groups: seq<string>, range: TimeRange) {
    forall i :: 0 <= i < |groups| ==> GroupReadable(c, es, groups[i], range)
  }

  /** Every listed object has no index or an index in order. */
  ghost predicate AllOrderly(c: Codec, es: seq<Entry>, groups: seq<string>, range: TimeRange) {
    forall i, e :: 0 <= i < |groups| && e in Listing(es, groups[i], range) ==> Orderly(e.obj, FramesIn(c, e.obj), range)
  }

  ghost predicate TimeOrdered(out: seq<(LogRecord, string)>) {
    forall i, j :: 0 <= i < j < |out| ==>
      out[i].0.timestamp < out[j].0.timestamp || (out[i].0.timestamp == out[j].0.timestamp && StrLe(out[i].0.stream, out[j].0.stream))
  }

  method OpenScan(c: Codec, es: seq<Entry>, groups: seq<string>, range: TimeRange, pattern: Pattern)
    returns (r: Result<(seq<seq<seq<LogRecord>>>, seq<nat>), ScanError>)
    requires c.Lawful() && SoundArchive(c, es)
    ensures r.Ok? <==> AllReadable(c, es, groups, range)
    ensures r.Ok? ==> Ascending(r.value.0)
    ensures r.Ok? ==> SameTies(PairsOf(r.value.0, 0, groups, r.value.1), InListing(es, groups, range, Reading(c, range, pattern)), PairLe)
  {
    hide SoundArchive, GroupReadable, SameTies, InListing, Ascending, PairsOf, Concatenated, Cat, Listing, Reading, RecLe, PairLe;
    var sources: seq<seq<seq<LogRecord>>> := [];
    var sg: seq<nat> := [];
    ghost var f := Reading(c, range, pattern);
    NothingOpened(es, groups, range, f);
    for gi := 0 to |groups|
      invariant |sg| == |sources| && Ascending(sources)
      invariant SameTies(PairsOf(sources, 0, groups, sg), InListing(es, groups[..gi], range, f), PairLe)
      invariant forall i :: 0 <= i < gi ==> GroupReadable(c, es, groups[i], range)
    {
      var got := BuildGroupSources(c, es, groups[gi], range, pattern);
      if got.Err? {
        return Err(got.error);
      }
      var tags := seq(|got.value|, _ => gi);
      OneMoreGroup(es, groups, range, f, gi, sources, sg, got.value, tags);
      JoinAscending(sources, got.value);
      sources := sources + got.value;
      sg := sg + tags;
    }
    TakeAll(groups);
    return Ok((sources, sg));
  }

  lemma NothingOpened(es: seq<Entry>, groups: seq<string>, range: TimeRange, f: Entry -> seq<LogRecord>)
    ensures SameTies(PairsOf([], 0, groups, []), InListing(es, groups[..0], range, f), PairLe)
    ensures Ascending([])
  {
  }

  lemma OneMoreGroup(
    es: seq<Entry>, groups: seq<string>, range: TimeRange, f: Entry -> seq<LogRecord>, gi: nat,
    sources: seq<seq<seq<LogRecord>>>, sg: seq<nat>, more: seq<seq<seq<LogRecord>>>, tags: seq<nat>)
    requires gi < |groups| && |sg| == |sources| && |tags| == |more| && forall i :: 0 <= i < |tags| ==> tags[i] == gi
    requires SameTies(PairsOf(sources, 0, groups, sg), InListing(es, groups[..gi], range, f), PairLe)
    requires SameTies(Concatenated(more), Cat(Listing(es, groups[gi], range), f), RecLe)
    ensures SameTies(PairsOf(sources + more, 0, groups, sg + tags), InListing(es, groups[..gi + 1], range, f), PairLe)
  {
    hide SameTies, PairsOf, Concatenated, Cat, Listing, WithGroup, RecLe, PairLe;
    PairsOfAppend(sources, more, 0, groups, sg + tags);
    PairsOfExtend(sources, 0, groups, sg, tags);
    OneGroupPairs(more, |sources|, groups, sg + tags, gi);
    WithGroupSameTies(Concatenated(more), Cat(Listing(es, groups[gi], range), f), groups[gi]);
    ListingStep(es, groups, range, f, gi);
    SameTiesAppend(PairsOf(sources, 0, groups, sg), InListing(es, groups[..gi], range, f),
                   WithGroup(Concatenated(more), groups[gi]), WithGroup(Cat(Listing(es, groups[gi], range), f), groups[gi]), PairLe);
  }

  lemma ListingStep(es: seq<Entry>, groups: seq<string>, range: TimeRange, f: Entry -> seq<LogRecord>, gi: nat)
    requires gi < |groups|
    ensures InListing(es, groups[..gi + 1], range, f) ==
            InListing(es, groups[..gi], range, f) + WithGroup(Cat(Listing(es, groups[gi], range), f), groups[gi])
  {
    hide WithGroup, Cat, Listing;
    TakeSnoc(groups, gi);
  }

  // ----- What the scan is due, counted -----

  /** What an object's body decodes to when it is read from end to end. */
  function BodyRecords(c: Codec, body: seq<byte>): seq<LogRecord> {
    match c.unzip(body) case Some(plain) => Decoded(c.ParseLines(plain)) case None => []
  }

  /** How often a record occurs in the objects of a group. */
  ghost function Occurrences(c: Codec, es: seq<Entry>, group: string, r: LogRecord): nat {
    if es == [] then 0
    else (if es[0].group == group then multiset(BodyRecords(c, es[0].obj.body))[r] else 0) + Occurrences(c, es[1..], group, r)
  }

  lemma BodyIsRecords(c: Codec, o: StoredObject, frames: seq<seq<LogRecord>>)
    requires c.Lawful() && Stores(c, o, frames)
    ensures BodyRecords(c, o.body) == Flatten(frames)
  {
    BodyText(c, o, frames);
    c.ParseLinesInverts(Flatten(frames));
    DecodedIntact(Flatten(frames));
  }

  lemma {:induction false} GroupCounts(c: Codec, es: seq<Entry>, group: string, range: TimeRange, pattern: Pattern, r: LogRecord)
    requires c.Lawful() && forall e :: e in es ==> Sound(c, e.obj)
    ensures SumOver(Keep(es, InGroup(group)), MatchesIn(c, range, pattern))[r] ==
            if range.fromMs <= r.timestamp < range.toMs && (pattern.Some? ==> pattern.value(r.message)) then Occurrences(c, es, group, r) else 0
  {
    if es != [] {
      var e, f := es[0], MatchesIn(c, range, pattern);
      assert e in es;
      assert f(e) == multiset(Select(RecordsIn(c, e.obj), range, pattern));
      hide Select, FramesIn, BodyRecords, Codec.Lawful, Stores, Keep, SumOver, MatchesIn;
      GroupCounts(c, es[1..], group, range, pattern, r);
      KeepOne(es, InGroup(group), f);
      BodyIsRecords(c, e.obj, FramesIn(c, e.obj)) by { FramesAreStored(c, e.obj); }
      SelectFilters(RecordsIn(c, e.obj), range, pattern);
    }
  }

  lemma FramesAreStored(c: Codec, o: StoredObject)
    requires Sound(c, o)
    ensures Stores(c, o, FramesIn(c, o))
  {
  }

  lemma WithGroupCounts(rs: seq<LogRecord>, group: string, r: LogRecord, g: string)
    ensures multiset(WithGroup(rs, group))[(r, g)] == if g == group then multiset(rs)[r] else 0
    decreases |rs|
  {
    if rs != [] {
      var n := |rs| - 1;
      WithGroupCounts(rs[..n], group, r, g);
      TakeSnoc(rs, n);
      TakeAll(rs);
      WithGroupAppend(rs[..n], [rs[n]], group);
      assert WithGroup([rs[n]], group) == [(rs[n], group)];
    }
  }

  lemma GroupBagCounts(c: Codec, es: seq<Entry>, group: string, range: TimeRange, pattern: Pattern, r: LogRecord, g: string)
    requires c.Lawful() && SoundArchive(c, es)
    ensures multiset(WithGroup(Cat(Keep(es, InGroup(group)), Arriving(c, range, pattern)), group))[(r, g)] ==
            if g == group && range.fromMs <= r.timestamp < range.toMs && (pattern.Some? ==> pattern.value(r.message))
            then Occurrences(c, es, g, r) else 0
  {
    SoundEach(c, es);
    hide SoundArchive, Cat, WithGroup, Arriving, MatchesIn, SumOver, Keep, Occurrences, Codec.Lawful, Sound;
    var kept := Keep(es, InGroup(group));
    ArrivingBag(c, kept, range, pattern);
    GroupCounts(c, es, group, range, pattern, r);
    WithGroupCounts(Cat(kept, Arriving(c, range, pattern)), group, r, g);
  }

  function Times(k: nat, n: nat): nat {
    k * n
  }

  lemma OnceMore(k: nat, n: nat)
    ensures Times(0, n) == 0 && Times(k + 1, n) == Times(k, n) + n
  {
  }

  /** Each wanted record of a chosen group is due as often as the group's objects hold it, once for every time the group is chosen. */
  lemma {:induction false} ExpectedCounts(c: Codec, es: seq<Entry>, groups: seq<string>, range: TimeRange, pattern: Pattern, r: LogRecord, g: string)
    requires c.Lawful() && SoundArchive(c, es)
    ensures Expected(c, es, groups, range, pattern)[(r, g)] ==
            if range.fromMs <= r.timestamp < range.toMs && (pattern.Some? ==> pattern.value(r.message))
            then Times(multiset(groups)[g], Occurrences(c, es, g, r)) else 0
  {
    hide *;
    OnceMore(0, Occurrences(c, es, g, r));
    if groups == [] {
      NothingExpected(c, es, range, pattern);
    } else {
      var n := |groups| - 1;
      ExpectedCounts(c, es, groups[..n], range, pattern, r, g);
      ExpectedStep(c, es, groups, range, pattern, r, g);
      ChosenOnceMore(groups, g);
      OnceMore(multiset(groups[..n])[g], Occurrences(c, es, g, r));
    }
  }

  lemma NothingExpected(c: Codec, es: seq<Entry>, range: TimeRange, pattern: Pattern)
    ensures Expected(c, es, [], range, pattern) == multiset{}
  {
  }

  lemma ExpectedStep(c: Codec, es: seq<Entry>, groups: seq<string>, range: TimeRange, pattern: Pattern, r: LogRecord, g: string)
    requires c.Lawful() && SoundArchive(c, es) && groups != []
    ensures Expected(c, es, groups, range, pattern)[(r, g)] ==
            Expected(c, es, groups[..|groups| - 1], range, pattern)[(r, g)]
            + if g == groups[|groups| - 1] && range.fromMs <= r.timestamp < range.toMs && (pattern.Some? ==> pattern.value(r.message))
              then Occurrences(c, es, g, r) else 0
  {
    hide SoundArchive, Cat, WithGroup, Arriving, Keep, Occurrences, Codec.Lawful, InGroup;
    GroupBagCounts(c, es, groups[|groups| - 1], range, pattern, r, g);
  }

  lemma ChosenOnceMore(groups: seq<string>, g: string)
    requires groups != []
    ensures multiset(groups)[g] == multiset(groups[..|groups| - 1])[g] + if g == groups[|groups| - 1] then 1 else 0
  {
    assert groups == groups[..|groups| - 1] + [groups[|groups| - 1]];
  }

  lemma SoundEach(c: Codec, es: seq<Entry>)
    requires SoundArchive(c, es)
    ensures forall e :: e in es ==> Sound(c, e.obj)
  {
  }

  /**
   * The scan theorem. For every archive whose objects hold only records of
   * their own date, whatever the state of the sidecars: the scan emits exactly
   * the in-range, matching records of the chosen groups, each with its group,
   * in non-decreasing (timestamp, stream) order. Among ties it is the stable
   * sort of the groups' listed objects, each in reading order, and of arrival
   * order when every listed index is in order. It fails exactly when an object
   * it must read is above a decode cap.
   */
  method ScanLogGroups(c: Codec, es: seq<Entry>, groups: seq<string>, range: TimeRange, pattern: Pattern)
    returns (r: Result<seq<(LogRecord, string)>, ScanError>)
    requires c.Lawful() && SoundArchive(c, es)
    ensures r.Ok? <==> AllReadable(c, es, groups, range)
    ensures r.Ok? ==> TimeOrdered(r.value)
    ensures r.Ok? ==> multiset(r.value) == Expected(c, es, groups, range, pattern)
    ensures r.Ok? ==> forall x, g ::
              multiset(r.value)[(x, g)] ==
                if range.fromMs <= x.timestamp < range.toMs && (pattern.Some? ==> pattern.value(x.message))
                then multiset(groups)[g] * Occurrences(c, es, g, x) else 0
    ensures r.Ok? ==> r.value == StableSort(InListing(es, groups, range, Reading(c, range, pattern)), PairLe)
    ensures r.Ok? && AllOrderly(c, es, groups, range) ==>
              r.value == StableSort(InListing(es, groups, range, Arriving(c, range, pattern)), PairLe)
  {
    hide SoundArchive, AllReadable, AllOrderly, InListing, Expected, Occurrences, StableSort, TagFrom, PairsOf, SameTies, Reading, Arriving, RecLe, PairLe, TotalPreorder;
    var plan := OpenScan(c, es, groups, range, pattern);
    if plan.Err? {
      return Err(plan.error);
    }
    var sources, sg := plan.value.0, plan.value.1;
    var heads := MergeAll(sources);
    var out := EmitAll(heads, groups, sg);
    ghost var all, listed := PairsOf(sources, 0, groups, sg), InListing(es, groups, range, Reading(c, range, pattern));
    PairOrder();
    SortCommutes(groups, sg, TagAll(FlattenEach(sources)));
    TaggedPairs(sources, 0, groups, sg);
    SameTiesSort(all, listed, PairLe);
    StableSortSorts(listed, PairLe);
    SortedIsTimeOrdered(out);
    ListedIsExpected(c, es, groups, range, pattern);
    forall x, g ensures Expected(c, es, groups, range, pattern)[(x, g)] ==
                        if range.fromMs <= x.timestamp < range.toMs && (pattern.Some? ==> pattern.value(x.message))
                        then multiset(groups)[g] * Occurrences(c, es, g, x) else 0
    {
      ExpectedCounts(c, es, groups, range, pattern, x, g);
    }
    if AllOrderly(c, es, groups, range) {
      OrderlyListing(c, es, groups, range, pattern);
      SameTiesSort(listed, InListing(es, groups, range, Arriving(c, range, pattern)), PairLe);
    }
    return Ok(out);
  }

  /** Hand every merged record out with the group its source belongs to. */
  method EmitAll(heads: seq<Head>, groups: seq<string>, sg: seq<nat>) returns (out: seq<(LogRecord, string)>)
    ensures out == Pairs(groups, sg, heads)
  {
    hide GroupAt;
    out := [];
    for i := 0 to |heads|
      invariant out == Pairs(groups, sg, heads[..i])
    {
      TakeSnoc(heads, i);
      out := out + [PairOf(groups, sg, heads[i])];
    }
    TakeAll(heads);
  }

  lemma SortedIsTimeOrdered(out: seq<(LogRecord, string)>)
    requires Sorted(out, PairLe)
    ensures TimeOrdered(out)
  {
    forall i, j | 0 <= i < j < |out| ensures RecLe(out[i].0, out[j].0) {
      assert PairLe(out[i], out[j]);
    }
  }

  // ----- Reading order against arrival order -----

  /** Reading an object through its index permutes its matching records. */
  lemma ReadingPermutes(c: Codec, o: StoredObject, frames: seq<seq<LogRecord>>, range: TimeRange, pattern: Pattern)
    ensures multiset(Select(ReadOrder(c, o, frames, range), range, pattern)) == multiset(Select(Flatten(frames), range, pattern))
  {
    if Indexed(o) {
      hide Select, StableSort, FrameRecords, FrameBag, SumOver;
      var timed := Pruned(c, frames, range);
      var sorted := StableSort(timed, Clusters.TimedLe);
      StableSortPermutes(timed, Clusters.TimedLe);
      ClusterBag(frames, sorted, range, pattern);
      ClusterBag(frames, timed, range, pattern);
      SumOverPermutes(sorted, timed, FrameBag(frames, range, pattern));
      PrunedInArrivalOrder(c, frames, range, pattern);
    }
  }

  lemma {:induction false} ReadingBag(c: Codec, locs: seq<Entry>, range: TimeRange, pattern: Pattern)
    ensures multiset(Cat(locs, Reading(c, range, pattern))) == SumOver(locs, MatchesIn(c, range, pattern))
  {
    hide Select, ReadOrder, FramesIn;
    if locs != [] {
      ReadingBag(c, locs[1..], range, pattern);
      ReadingPermutes(c, locs[0].obj, FramesIn(c, locs[0].obj), range, pattern);
    }
  }

  lemma {:induction false} ArrivingBag(c: Codec, locs: seq<Entry>, range: TimeRange, pattern: Pattern)
    ensures multiset(Cat(locs, Arriving(c, range, pattern))) == SumOver(locs, MatchesIn(c, range, pattern))
  {
    hide Select, FramesIn;
    if locs != [] {
      ArrivingBag(c, locs[1..], range, pattern);
    }
  }

  lemma {:induction false} ListedIsExpected(c: Codec, es: seq<Entry>, groups: seq<string>, range: TimeRange, pattern: Pattern)
    requires SoundArchive(c, es)
    ensures multiset(InListing(es, groups, range, Reading(c, range, pattern))) == Expected(c, es, groups, range, pattern)
  {
    hide SoundArchive, Cat, Listing, WithGroup, Reading, Arriving, MatchesIn, SumOver, Keep;
    if groups != [] {
      var n := |groups| - 1;
      ListedIsExpected(c, es, groups[..n], range, pattern);
      ListingHoldsGroupMatches(c, es, groups[n], range, pattern);
      ReadingBag(c, Listing(es, groups[n], range), range, pattern);
      ArrivingBag(c, Keep(es, InGroup(groups[n])), range, pattern);
      WithGroupPermutes(Cat(Listing(es, groups[n], range), Reading(c, range, pattern)),
                        Cat(Keep(es, InGroup(groups[n])), Arriving(c, range, pattern)), groups[n]);
    }
  }

  lemma OrderlyTies(c: Codec, e: Entry, range: TimeRange, pattern: Pattern)
    requires Orderly(e.obj, FramesIn(c, e.obj), range)
    ensures SameTies(Reading(c, range, pattern)(e), Arriving(c, range, pattern)(e), RecLe)
  {
    hide Select, Ties, RecLe, ByStart, FramesIn;
    var frames := FramesIn(c, e.obj);
    if Indexed(e.obj) {
      forall y ensures Ties(Select(ByStart(c, frames, range), range, pattern), y, RecLe) == Ties(Select(Flatten(frames), range, pattern), y, RecLe) {
        InOrderTies(c, frames, range, pattern, y);
      }
    }
  }

  lemma {:induction false} OrderlyListing(c: Codec, es: seq<Entry>, groups: seq<string>, range: TimeRange, pattern: Pattern)
    requires AllOrderly(c, es, groups, range)
    ensures SameTies(InListing(es, groups, range, Reading(c, range, pattern)), InListing(es, groups, range, Arriving(c, range, pattern)), PairLe)
  {
    hide Cat, Listing, WithGroup, Reading, Arriving, SameTies, Orderly, RecLe, PairLe, FramesIn;
    var f, g := Reading(c, range, pattern), Arriving(c, range, pattern);
    if groups == [] {
      SameTiesSelf<(LogRecord, string)>([], PairLe);
    } else {
      var n := |groups| - 1;
      OrderlyListing(c, es, groups[..n], range, pattern);
      var locs := Listing(es, groups[n], range);
      forall e | e in locs ensures SameTies(f(e), g(e), RecLe) {
        OrderlyTies(c, e, range, pattern);
      }
      CatSameTies(locs, f, g);
      WithGroupSameTies(Cat(locs, f), Cat(locs, g), groups[n]);
      SameTiesAppend(InListing(es, groups[..n], range, f), InListing(es, groups[..n], range, g),
                     WithGroup(Cat(locs, f), groups[n]), WithGroup(Cat(locs, g), groups[n]), PairLe);
    }
  }
}
