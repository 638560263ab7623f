/**
 * Drains whose attempts see different orders, as sharded ones do: after every
 * window is covered, the scan of the group is due exactly CloudWatch's events if
 * and only if no attempt left an object beyond the completing attempt's.
 */
module DrainScanExact {
  import opened Common
  import opened Bags
  import opened Layout
  import opened Chunk
  import opened Windows
  import opened Drain
  import opened Keys
  import Archive
  import opened ScanObject
  import opened TieOrder
  import opened ScanOrder
  import opened Scan
  import opened Resume
  import opened ResumeOrders
  import opened DrainScan

  // ----- The completing orders as a plan -----

  /** The job with each window's events in the order its completing attempt saw. */
  function Reordered(j: Job, t: State): Job {
    j.(events := (w: Window) => if w in t.completed then t.completed[w].order else j.events(w))
  }

  /** Every window has been completed. */
  ghost predicate Complete(j: Job, s0: Store, t: State)
    requires Bytes(j.o.logGroup)
  {
    Inv(j, s0, t) && forall w :: w in j.windows ==> w in t.completed
  }

  lemma CoveredIsComplete(j: Job, s0: Store, ls: seq<Label>)
    requires j.Legal() && Bytes(j.o.logGroup) && After(j, s0, ls).Some?
    requires forall w :: w in j.windows ==> !Covered(j.o, s0, w) && Covered(j.o, After(j, s0, ls).value.store, w)
    ensures Complete(j, s0, After(j, s0, ls).value)
  {
    hide After, Job.Legal, Covered, Inv, CompletedInv;
    RunKeepsInv(j, s0, ls);
    forall w | w in j.windows ensures w in After(j, s0, ls).value.completed {
      CoveredMeansCompleted(j, s0, ls, w);
    }
  }

  lemma CompletedFacts(j: Job, s0: Store, t: State, w: Window)
    requires Bytes(j.o.logGroup) && Complete(j, s0, t) && w in j.windows
    ensures w in t.completed && WindowInv(j, s0, t, w) && CompletedInv(j, t, w, t.completed[w])
    ensures multiset(Reordered(j, t).events(w)) == multiset(j.events(w)) && Reordered(j, t).events(w) == t.completed[w].order
  {
    hide ObjectsInv, Covered, DataPuts, ManifestOf, ManKey, Pieces, RunningInv;
    assert WindowInv(j, s0, t, w);
  }

  lemma PutsHoldPlan(o: Options, s: Store, w: Window, order: seq<LogRecord>, n: nat)
    requires Bytes(o.logGroup) && Archive.AllPut(s, DataPuts(o, w, order))
    ensures HoldsPlan(o, s, w, order, n)
  {
    hide DataPuts;
  }

  lemma CompletedIsPiece(j: Job, s0: Store, t: State, w: Window, n: nat)
    requires j.Legal() && Bytes(j.o.logGroup) && Complete(j, s0, t) && w in j.windows && n < |Pieces(j.o, Reordered(j, t).events(w))|
    ensures IsPiece(j.o, t.store, w, Reordered(j, t).events(w), n)
  {
    LegalJob(j);
    CompletedFacts(j, s0, t, w);
    hide Complete, WindowInv, DataPuts, ManifestOf, ManKey, Pieces, Job.Legal, Options.Legal, IsPiece, HoldsPlan, ObjKey;
    PutsHoldPlan(j.o, t.store, w, t.completed[w].order, n);
    ReachedIsStored(j, s0, t, w, n);
    HoldsIsPiece(j.o, t.store, w, t.completed[w].order, n);
  }

  lemma CompleteIsStored(j: Job, s0: Store, t: State)
    requires j.Legal() && Bytes(j.o.logGroup) && Complete(j, s0, t)
    ensures AllStored(Reordered(j, t), t.store)
  {
    hide Job.Legal, Complete, Pieces, IsPiece;
    forall w, n: nat | w in j.windows && n < |Pieces(j.o, Reordered(j, t).events(w))| ensures IsPiece(j.o, t.store, w, Reordered(j, t).events(w), n) {
      CompletedIsPiece(j, s0, t, w, n);
    }
  }

  lemma NoLeftoversPlanned(j: Job, s0: Store, t: State)
    requires j.Legal() && Bytes(j.o.logGroup) && Complete(j, s0, t) && Untouched(j, s0) && NoLeftovers(j, t)
    ensures Planned(Reordered(j, t), t.store)
  {
    hide Job.Legal, Complete, Pieces, IsPiece, HasObject, Untouched, WindowInv, CompletedInv;
    forall w, n: nat | w in j.windows && HasObject(j.o, t.store, w, n) ensures IsPiece(j.o, t.store, w, Reordered(j, t).events(w), n) {
      CompletedFacts(j, s0, t, w);
      StoredIsReached(j, s0, t, w, n);
      CompletedIsPiece(j, s0, t, w, n);
    }
  }

  lemma ReorderedJob(j: Job, s0: Store, t: State, es: seq<Entry>)
    requires j.Legal() && Bytes(j.o.logGroup) && Complete(j, s0, t) && InTheirWindows(j) && Objects(j, t.store, es)
    ensures Reordered(j, t).Legal() && InTheirWindows(Reordered(j, t)) && Objects(Reordered(j, t), t.store, es)
  {
    hide Complete, HasObject, EntryFor, DistinctKeys, Options.Legal, JobWindow, CompletedInv, WindowInv;
    var k := Reordered(j, t);
    forall w, r | w in k.windows && r in k.events(w) ensures w.startMs <= r.timestamp < w.endMs {
      CompletedFacts(j, s0, t, w);
      assert r in multiset(k.events(w));
      assert r in j.events(w);
    }
    forall w, n: nat, e ensures IsObject(j, t.store, w, n, e) <==> IsObject(k, t.store, w, n, e) {
    }
  }

  // ----- Order does not matter to what the scan is due -----

  ghost function KeptBag(range: TimeRange, pattern: Pattern): LogRecord -> multiset<LogRecord> {
    (r: LogRecord) => multiset(Kept(r, range, pattern))
  }

  lemma {:induction false} SelectIsSum(rs: seq<LogRecord>, range: TimeRange, pattern: Pattern)
    ensures multiset(Select(rs, range, pattern)) == SumOver(rs, KeptBag(range, pattern))
  {
    hide Kept;
    if rs != [] {
      SelectIsSum(rs[1..], range, pattern);
    }
  }

  lemma SelectPermutes(a: seq<LogRecord>, b: seq<LogRecord>, range: TimeRange, pattern: Pattern)
    requires multiset(a) == multiset(b)
    ensures multiset(Select(a, range, pattern)) == multiset(Select(b, range, pattern))
  {
    hide Select, KeptBag;
    SelectIsSum(a, range, pattern);
    SelectIsSum(b, range, pattern);
    SumOverPermutes(a, b, KeptBag(range, pattern));
  }

  lemma {:induction false} CatPermutes<T, R>(s: seq<T>, f: T -> seq<R>, g: T -> seq<R>)
    requires forall x :: x in s ==> multiset(f(x)) == multiset(g(x))
    ensures multiset(Cat(s, f)) == multiset(Cat(s, g))
  {
    if s != [] {
      assert s[0] in s;
      CatPermutes(s[1..], f, g);
    }
  }

  lemma DuePermutes(j: Job, s0: Store, t: State, ws: seq<Window>, range: TimeRange, pattern: Pattern)
    requires Bytes(j.o.logGroup) && Complete(j, s0, t) && forall w :: w in ws ==> w in j.windows
    ensures multiset(Select(Cat(ws, Reordered(j, t).events), range, pattern)) == multiset(Select(Cat(ws, j.events), range, pattern))
  {
    hide Complete, Cat, Select, WindowInv, CompletedInv, Reordered;
    forall w | w in ws ensures multiset(Reordered(j, t).events(w)) == multiset(j.events(w)) {
      CompletedFacts(j, s0, t, w);
    }
    CatPermutes(ws, Reordered(j, t).events, j.events);
    SelectPermutes(Cat(ws, Reordered(j, t).events), Cat(ws, j.events), range, pattern);
  }

  lemma NoLeftoversScan(j: Job, s0: Store, t: State, es: seq<Entry>, ws: seq<Window>)
    requires j.Legal() && Bytes(j.o.logGroup) && Complete(j, s0, t) && Untouched(j, s0) && InTheirWindows(j) && NoLeftovers(j, t)
    requires Objects(j, t.store, es) && NoRepeats(ws) && forall w :: w in ws <==> w in j.windows
    ensures ScansTo(j, es, ws)
  {
    var k, g := Reordered(j, t), j.o.logGroup;
    hide Job.Legal, Complete, Untouched, InTheirWindows, NoLeftovers, Objects, NoRepeats, SoundArchive, Expected, WithGroup, Select, Cat, AllStored, Planned;
    ReorderedJob(j, s0, t, es);
    CompleteIsStored(j, s0, t);
    NoLeftoversPlanned(j, s0, t);
    PlannedScan(k, t.store, es, ws);
    forall range, pattern ensures Expected(j.o.codec, es, [g], range, pattern) == multiset(WithGroup(Select(Cat(ws, j.events), range, pattern), g)) {
      DuePermutes(j, s0, t, ws, range, pattern);
      WithGroupPermutes(Select(Cat(ws, k.events), range, pattern), Select(Cat(ws, j.events), range, pattern), g);
    }
  }

  // ----- A left over object is scanned too -----

  /** Data written by any attempt is the body of a non-empty piece. */
  ghost predicate Bodies(o: Options, s0: Store, s: Store) {
    forall key :: DataSlot(key) in s && !Same(s, s0, DataSlot(key)) ==> exists piece :: BodyOf(o, s[DataSlot(key)], piece)
  }

  ghost predicate BodyOf(o: Options, body: seq<byte>, piece: seq<LogRecord>) {
    piece != [] && ChunkFor(o, piece).Some? && body == ChunkFor(o, piece).value.body
  }

  lemma PutIsBody(o: Options, w: Window, order: seq<LogRecord>, i: nat) returns (piece: seq<LogRecord>)
    requires Bytes(o.logGroup) && i < |DataPuts(o, w, order)|
    ensures DataPuts(o, w, order)[i].slot.DataSlot? ==> BodyOf(o, DataPuts(o, w, order)[i].value, piece)
    ensures !DataPuts(o, w, order)[i].slot.ManifestSlot?
  {
    PiecesPartition(o, order);
    hide ObjKey, PiecePuts, ChunkFor, Pieces;
    PutsCount(o, w, Pieces(o, order));
    PutAt(o, w, Pieces(o, order), i);
    piece := Pieces(o, order)[i / 3];
    assert piece in Pieces(o, order);
  }

  lemma {:induction false} RunKeepsBodies(j: Job, s0: Store, ls: seq<Label>)
    requires Bytes(j.o.logGroup) && After(j, s0, ls).Some?
    ensures Bodies(j.o, s0, After(j, s0, ls).value.store)
  {
    hide DataPuts, ManifestOf, ManKey, BodyOf, Covered;
    if ls != [] {
      var s, l := After(j, s0, ls[..|ls| - 1]).value, ls[|ls| - 1];
      RunKeepsBodies(j, s0, ls[..|ls| - 1]);
      if l.PutNext? && s.running[l.w].pos < |DataPuts(j.o, l.w, s.running[l.w].order)| {
        var piece := PutIsBody(j.o, l.w, s.running[l.w].order, s.running[l.w].pos);
      }
    }
  }

  /** Whatever its sidecars, a sound object with such a body holds the piece. */
  lemma BodyHolds(o: Options, obj: StoredObject, piece: seq<LogRecord>)
    requires o.Legal() && BodyOf(o, obj.body, piece) && Sound(o.codec, obj)
    ensures RecordsIn(o.codec, obj) == piece
  {
    var bare := obj.(sidecars := None);
    var frames := FramesOf(o.codec, o.frameTarget, piece);
    Archive.CodecOf(o);
    EncodeShape(o.codec, o.frameTarget, piece);
    hide Options.Legal, PushAll, Encode, FramesOf, Codec.Lawful, RecordsIn;
    assert Stores(o.codec, bare, frames);
    RecordsUnique(o.codec, bare, frames);
    var own := FramesIn(o.codec, obj);
    assert Stores(o.codec, obj, own) && Stores(o.codec, bare, own);
    RecordsUnique(o.codec, bare, own);
    RecordsUnique(o.codec, obj, own);
  }

  lemma {:induction false} SumOverBelow<T, R>(a: seq<T>, b: seq<T>, f: T -> multiset<R>)
    requires multiset(a) <= multiset(b)
    ensures SumOver(a, f) <= SumOver(b, f)
    decreases |a|
  {
    if a != [] {
      assert a[0] in multiset(a);
      var k :| 0 <= k < |b| && b[k] == a[0];
      RemoveAt(b, k);
      assert a == [a[0]] + a[1..];
      SumOverBelow(a[1..], b[..k] + b[k + 1..], f);
      SumOverRemove(b, k, f);
    }
  }

  lemma SubsetBag<T>(a: seq<T>, b: seq<T>)
    requires NoRepeats(a) && forall x :: x in a ==> x in b
    ensures multiset(a) <= multiset(b)
  {
    forall x ensures multiset(a)[x] <= multiset(b)[x] {
      CountOnce(a, x);
      assert x in b <==> x in multiset(b);
    }
  }

  /** The listing holds the planned objects and, beside them, any further stored one. */
  lemma ListingHasMore(j: Job, s: Store, es: seq<Entry>, ws: seq<Window>, w: Window, n: nat, f: Entry -> multiset<LogRecord>)
    requires j.Legal() && Bytes(j.o.logGroup) && AllStored(j, s) && Objects(j, s, es) && NoRepeats(ws) && forall w :: w in ws <==> w in j.windows
    requires w in j.windows && HasObject(j.o, s, w, n) && n >= |Pieces(j.o, j.events(w))|
    ensures EntryFor(j.o, s, w, n) in es
    ensures SumOver(Cat(ws, EntriesOf(j, s)), f) + f(EntryFor(j.o, s, w, n)) <= SumOver(es, f)
  {
    hide Job.Legal, Pieces, Cat, HasObject, AllStored, EntriesOf, DistinctKeys, NoRepeats, EntryFor, SumOver;
    var g, e := EntriesOf(j, s), EntryFor(j.o, s, w, n);
    ListingHasNoRepeats(j, s, ws);
    assert IsObject(j, s, w, n, e);
    forall x | x in Cat(ws, g) ensures x in es && x != e {
      InCat(ws, g, x);
      var v :| v in ws && x in g(v);
      var m := ListedIsEntry(j, s, v, x);
      if x == e {
        EntriesDiffer(j, s, v, m, w, n);
      }
    }
    OneNoRepeats(e);
    JoinNoRepeats(Cat(ws, g), [e]);
    SubsetBag(Cat(ws, g) + [e], es);
    SumOverBelow(Cat(ws, g) + [e], es, f);
    SumOverAppend(Cat(ws, g), [e], f);
    SumOverOne(e, f);
  }

  lemma OneNoRepeats<T>(x: T)
    ensures NoRepeats([x])
  {
  }

  lemma MatchingFirst(piece: seq<LogRecord>)
    requires piece != []
    ensures Select(piece, TimeRange(piece[0].timestamp, piece[0].timestamp + 1), None) != []
  {
  }

  lemma LeftoverScans(j: Job, s0: Store, ls: seq<Label>, es: seq<Entry>, ws: seq<Window>, w: Window)
    requires j.Legal() && Bytes(j.o.logGroup) && After(j, s0, ls).Some? && Untouched(j, s0) && InTheirWindows(j)
    requires var t := After(j, s0, ls).value;
             && Complete(j, s0, t) && Objects(j, t.store, es) && w in j.windows && w in t.completed && Reach(t, w) > |Pieces(j.o, t.completed[w].order)|
    requires NoRepeats(ws) && forall w :: w in ws <==> w in j.windows
    ensures !ScansTo(j, es, ws)
  {
    var t := After(j, s0, ls).value;
    var n := |Pieces(j.o, t.completed[w].order)|;
    hide After, Job.Legal, Complete, Untouched, InTheirWindows, NoRepeats, Expected, WithGroup, Select, Cat, Objects, Pieces, EntryFor, HasObject, BodyOf, SoundArchive, ScansTo;
    var e, piece := Leftover(j, s0, ls, w, n);
    BodyNotEmpty(j.o, e.obj.body, piece);
    if ScansTo(j, es, ws) {
      ScansToAt(j, es, ws, TimeRange(piece[0].timestamp, piece[0].timestamp + 1), None);
      LeftoverIsDue(j, s0, t, es, ws, w, n, piece);
    }
  }

  lemma ScansToAt(j: Job, es: seq<Entry>, ws: seq<Window>, range: TimeRange, pattern: Pattern)
    requires ScansTo(j, es, ws)
    ensures SoundArchive(j.o.codec, es)
    ensures Expected(j.o.codec, es, [j.o.logGroup], range, pattern) == multiset(WithGroup(Select(Cat(ws, j.events), range, pattern), j.o.logGroup))
  {
    hide Expected, WithGroup, Select, Cat, SoundArchive;
  }

  lemma LeftoverIsDue(j: Job, s0: Store, t: State, es: seq<Entry>, ws: seq<Window>, w: Window, n: nat, piece: seq<LogRecord>)
    requires j.Legal() && Bytes(j.o.logGroup) && Complete(j, s0, t) && InTheirWindows(j) && Objects(j, t.store, es) && SoundArchive(j.o.codec, es)
    requires w in j.windows && w in t.completed && n == |Pieces(j.o, t.completed[w].order)| && HasObject(j.o, t.store, w, n)
    requires piece != [] && BodyOf(j.o, EntryFor(j.o, t.store, w, n).obj.body, piece)
    requires NoRepeats(ws) && forall w :: w in ws <==> w in j.windows
    ensures var range := TimeRange(piece[0].timestamp, piece[0].timestamp + 1);
            Expected(j.o.codec, es, [j.o.logGroup], range, None) != multiset(WithGroup(Select(Cat(ws, j.events), range, None), j.o.logGroup))
  {
    ReorderedJob(j, s0, t, es);
    CompleteIsStored(j, s0, t);
    LegalJob(j);
    hide Job.Legal, Complete, InTheirWindows, NoRepeats, Expected, WithGroup, Select, Cat, AllStored, Objects, Pieces, SumOver, EntriesOf, EntryFor, HasObject,
      RecordsIn, Options.Legal, BodyOf, Sound;
    var e, range := EntryFor(j.o, t.store, w, n), TimeRange(piece[0].timestamp, piece[0].timestamp + 1);
    ListingHasMore(Reordered(j, t), t.store, es, ws, w, n, MatchesIn(j.o.codec, range, None));
    BodyHolds(j.o, e.obj, piece);
    MatchingFirst(piece);
    MoreIsDue(j, s0, t, es, ws, e, range);
  }

  lemma BodyNotEmpty(o: Options, body: seq<byte>, piece: seq<LogRecord>)
    requires BodyOf(o, body, piece)
    ensures piece != []
  {
  }

  lemma Leftover(j: Job, s0: Store, ls: seq<Label>, w: Window, n: nat) returns (e: Entry, piece: seq<LogRecord>)
    requires j.Legal() && Bytes(j.o.logGroup) && After(j, s0, ls).Some? && Untouched(j, s0) && w in j.windows
    requires Complete(j, s0, After(j, s0, ls).value) && n < Reach(After(j, s0, ls).value, w)
    ensures HasObject(j.o, After(j, s0, ls).value.store, w, n) && e == EntryFor(j.o, After(j, s0, ls).value.store, w, n)
    ensures BodyOf(j.o, e.obj.body, piece)
  {
    var t := After(j, s0, ls).value;
    CompletedFacts(j, s0, t, w);
    RunKeepsBodies(j, s0, ls);
    hide After, Job.Legal, Complete, ObjKey, WindowInv, CompletedInv, LoadSidecars, BodyOf, ObjectName, Bodies, Untouched;
    ReachedIsStored(j, s0, t, w, n);
    NotThereBefore(j, s0, w, n);
    e := EntryFor(j.o, t.store, w, n);
    piece := NewBody(j.o, s0, t.store, ObjKey(j.o, w, Base, n));
  }

  lemma NotThereBefore(j: Job, s0: Store, w: Window, n: nat)
    requires Bytes(j.o.logGroup) && Untouched(j, s0) && w in j.windows
    ensures DataSlot(ObjKey(j.o, w, Base, n)) !in s0
  {
    hide ObjKey;
    assert ObjectSlot(j.o, w, Base, n, DataSlot(ObjKey(j.o, w, Base, n)));
  }

  lemma NewBody(o: Options, s0: Store, s: Store, key: string) returns (piece: seq<LogRecord>)
    requires Bodies(o, s0, s) && DataSlot(key) in s && DataSlot(key) !in s0
    ensures BodyOf(o, s[DataSlot(key)], piece)
  {
    hide BodyOf;
    piece :| BodyOf(o, s[DataSlot(key)], piece);
  }

  /** More is due than CloudWatch has: the bags differ in size. */
  lemma MoreIsDue(j: Job, s0: Store, t: State, es: seq<Entry>, ws: seq<Window>, e: Entry, range: TimeRange)
    requires j.Legal() && Bytes(j.o.logGroup) && Complete(j, s0, t) && InTheirWindows(j) && Objects(j, t.store, es) && forall w :: w in ws <==> w in j.windows
    requires Reordered(j, t).Legal() && InTheirWindows(Reordered(j, t)) && AllStored(Reordered(j, t), t.store)
    requires var f := MatchesIn(j.o.codec, range, None);
             f(e) != multiset{} && SumOver(Cat(ws, EntriesOf(Reordered(j, t), t.store)), f) + f(e) <= SumOver(es, f)
    ensures Expected(j.o.codec, es, [j.o.logGroup], range, None) != multiset(WithGroup(Select(Cat(ws, j.events), range, None), j.o.logGroup))
  {
    hide Job.Legal, Complete, InTheirWindows, AllStored, SumOver, EntriesOf, Cat, Select, Objects, MatchesIn, Arriving, WithGroup, Expected;
    var c, g, f := j.o.codec, j.o.logGroup, MatchesIn(j.o.codec, range, None);
    var a, b := Cat(es, Arriving(c, range, None)), Select(Cat(ws, j.events), range, None);
    AllMatches(Reordered(j, t), t.store, ws, range, None);
    DuePermutes(j, s0, t, ws, range, None);
    OneGroupExpected(j, t.store, es, range, None);
    ArrivingBag(c, es, range, None);
    assert multiset(b) + f(e) <= multiset(a);
    BagSizes(multiset(b), f(e), multiset(a));
    WithGroupSize(a, g);
    WithGroupSize(b, g);
    assert |multiset(WithGroup(a, g))| == |a| && |multiset(WithGroup(b, g))| == |b|;
  }

  lemma BagSizes<T>(a: multiset<T>, b: multiset<T>, c: multiset<T>)
    requires a + b <= c && b != multiset{}
    ensures |a| < |c|
  {
    assert c == a + b + (c - (a + b));
    assert |c| == |a| + |b| + |c - (a + b)|;
    assert |b| != 0;
  }

  lemma WithGroupSize(rs: seq<LogRecord>, group: string)
    ensures |WithGroup(rs, group)| == |rs|
  {
  }

  // ----- The exact condition -----

  /**
   * Interrupted drains in any orders, then scan. Once every window is covered, the
   * archive is sound and the scan is due exactly the matching events CloudWatch
   * holds, each once, if and only if no attempt had begun an object at or beyond
   * the completing attempt's object count.
   */
  lemma ScansExactly(j: Job, s0: Store, ls: seq<Label>, es: seq<Entry>, ws: seq<Window>)
    requires j.Legal() && Bytes(j.o.logGroup) && After(j, s0, ls).Some? && Untouched(j, s0) && InTheirWindows(j)
    requires forall w :: w in j.windows ==> !Covered(j.o, s0, w) && Covered(j.o, After(j, s0, ls).value.store, w)
    requires DatesTell(j.o) && Lists(j.o, After(j, s0, ls).value.store, es) && NoRepeats(ws) && forall w :: w in ws <==> w in j.windows
    ensures ScansTo(j, es, ws) <==> NoLeftovers(j, After(j, s0, ls).value)
  {
    CoveredIsComplete(j, s0, ls);
    hide After, Job.Legal, Untouched, InTheirWindows, Covered, Objects, Lists, DatesTell, NoRepeats, ScansTo, Pieces, WindowInv;
    var t := After(j, s0, ls).value;
    ListingIsObjects(j, s0, t, es);
    if NoLeftovers(j, t) {
      NoLeftoversScan(j, s0, t, es, ws);
    } else {
      var w :| w in t.completed && Reach(t, w) > |Pieces(j.o, t.completed[w].order)|;
      LeftoverScans(j, s0, ls, es, ws, w);
    }
  }

  /** With one order per window nothing is left over, so drain and scan always agree. */
  lemma DrainThenScan(j: Job, s0: Store, ls: seq<Label>, es: seq<Entry>, ws: seq<Window>)
    requires j.Legal() && Bytes(j.o.logGroup) && After(j, s0, ls).Some? && InOneOrder(j, ls) && Untouched(j, s0) && InTheirWindows(j)
    requires forall w :: w in j.windows ==> !Covered(j.o, s0, w) && Covered(j.o, After(j, s0, ls).value.store, w)
    requires DatesTell(j.o) && Lists(j.o, After(j, s0, ls).value.store, es) && NoRepeats(ws) && forall w :: w in ws <==> w in j.windows
    ensures ScansTo(j, es, ws)
  {
    hide After, Job.Legal, Untouched, InTheirWindows, Covered, Lists, DatesTell, NoRepeats, ScansTo, Pieces, WindowInv, InOneOrder, SlotsOwn;
    ScansExactly(j, s0, ls, es, ws);
    RunKeepsInv(j, s0, ls);
    forall w | w in After(j, s0, ls).value.completed
      ensures Reach(After(j, s0, ls).value, w) <= |Pieces(j.o, After(j, s0, ls).value.completed[w].order)|
    {
      OneOrderRuns(j, s0, ls, w);
    }
  }
}
