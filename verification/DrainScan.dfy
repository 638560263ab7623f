/**
 * From the drain to the scan: an archive written by any run of drains that see
 * each window in one order is sound for scanning, and a store that holds exactly
 * the planned objects scans to the planned events.
 */
module DrainScan {
  import opened Common
  import opened Bags
  import opened Layout
  import opened Chunk
  import opened Windows
  import opened TsIndexFormat
  import opened Drain
  import opened Keys
  import Archive
  import opened ScanObject
  import ObjectReader
  import opened TieOrder
  import opened ScanOrder
  import opened Scan
  import opened Resume
  import opened ResumeOrders

  // ----- What the scan sees of a store -----

  /** Both sidecars of an object as the reader loads them, None when one is missing or does not decode. */
  ghost function LoadSidecars(o: Options, s: Store, key: string): Option<(seq<FrameEntry>, seq<TsEntry>)> {
    if IndexSlot(key) in s && TsSlot(key) in s && o.decIndex(s[IndexSlot(key)]).Some? && exists ts :: Encodes(s[TsSlot(key)], ts) then
      var ts :| Encodes(s[TsSlot(key)], ts);
      Some((o.decIndex(s[IndexSlot(key)]).value, ts))
    else None
  }

  ghost function ObjectAt(o: Options, s: Store, key: string): StoredObject
    requires DataSlot(key) in s
  {
    StoredObject(s[DataSlot(key)], LoadSidecars(o, s, key))
  }

  ghost predicate HasObject(o: Options, s: Store, w: Window, n: nat)
    requires Bytes(o.logGroup)
  {
    DataSlot(ObjKey(o, w, Base, n)) in s
  }

  ghost function EntryFor(o: Options, s: Store, w: Window, n: nat): Entry
    requires Bytes(o.logGroup) && HasObject(o, s, w, n)
  {
    Entry(o.logGroup, Day(w.startMs), ObjectName(w.startMs, Base, n), ObjectAt(o, s, ObjKey(o, w, Base, n)))
  }

  ghost predicate IsObject(j: Job, s: Store, w: Window, n: nat, e: Entry)
    requires Bytes(j.o.logGroup)
  {
    w in j.windows && HasObject(j.o, s, w, n) && e == EntryFor(j.o, s, w, n)
  }

  /** es holds exactly the stored data objects of the job's windows. */
  ghost predicate Objects(j: Job, s: Store, es: seq<Entry>)
    requires Bytes(j.o.logGroup)
  {
    DistinctKeys(es) && forall e :: e in es <==> exists w, n: nat :: IsObject(j, s, w, n, e)
  }

  /** What a listing of the group makes of a stored data key: group, date and name are read off the key. */
  ghost predicate ListedAt(o: Options, s: Store, key: string, e: Entry) {
    && DataSlot(key) in s && e.group == o.logGroup && e.obj == ObjectAt(o, s, key)
    && ParseDataKey(o.prefix, key, o.utf8) == Some(ChunkLocation(o.account, e.group, o.dateLabel(e.day), e.name))
  }

  /** es lists exactly the data objects of the group. */
  ghost predicate Lists(o: Options, s: Store, es: seq<Entry>) {
    DistinctKeys(es) && forall e :: e in es <==> exists key :: ListedAt(o, s, key, e)
  }

  /** A date label names one day. */
  ghost predicate DatesTell(o: Options) {
    forall c, d :: o.dateLabel(c) == o.dateLabel(d) ==> c == d
  }

  /** The key parses to this account and group. */
  ghost predicate OfGroup(o: Options, key: string) {
    match ParseDataKey(o.prefix, key, o.utf8)
    case Some(loc) => loc.account == o.account && loc.logGroup == o.logGroup
    case None => false
  }

  lemma ObjectIsListed(o: Options, s: Store, w: Window, n: nat, e: Entry)
    requires o.Legal() && Bytes(o.logGroup) && DatesTell(o) && HasObject(o, s, w, n)
    ensures ListedAt(o, s, ObjKey(o, w, Base, n), e) <==> e == EntryFor(o, s, w, n)
  {
    ObjKeyParses(o, w, Base, n);
    hide Options.Legal, ObjKey, ObjectName, LoadSidecars, ParseDataKey;
  }

  /** A data object of the group that was not there before belongs to one of the job's windows. */
  lemma StoredIsOwned(j: Job, s0: Store, t: State, key: string) returns (w: Window, n: nat)
    requires Bytes(j.o.logGroup) && Inv(j, s0, t) && DataSlot(key) in t.store && DataSlot(key) !in s0
    ensures w in j.windows && key == ObjKey(j.o, w, Base, n)
  {
    hide ObjKey, ManKey, WindowInv;
    var x := DataSlot(key);
    assert !Same(t.store, s0, x);
    w :| w in j.windows && Owns(j.o, w, x);
    n :| ObjectSlot(j.o, w, Base, n, x);
  }

  /** In every state of a run the listing of the group is that of the job's objects. */
  lemma ListingIsObjects(j: Job, s0: Store, t: State, es: seq<Entry>)
    requires j.Legal() && Bytes(j.o.logGroup) && DatesTell(j.o) && Inv(j, s0, t) && Untouched(j, s0) && Lists(j.o, t.store, es)
    ensures Objects(j, t.store, es)
  {
    LegalJob(j);
    hide Job.Legal, Options.Legal, ObjKey, ParseDataKey, Inv, DatesTell, EntryFor, DistinctKeys, ObjectAt;
    forall e ensures e in es <==> exists w, n: nat :: IsObject(j, t.store, w, n, e) {
      if e in es {
        var key :| ListedAt(j.o, t.store, key, e);
        NewToGroup(j, s0, t.store, key, e);
        var w, n := StoredIsOwned(j, s0, t, key);
        ObjectIsListed(j.o, t.store, w, n, e);
        assert IsObject(j, t.store, w, n, e);
      }
      if w, n: nat :| IsObject(j, t.store, w, n, e) {
        ObjectIsListed(j.o, t.store, w, n, e);
      }
    }
  }

  lemma NewToGroup(j: Job, s0: Store, s: Store, key: string, e: Entry)
    requires Bytes(j.o.logGroup) && Untouched(j, s0) && ListedAt(j.o, s, key, e)
    ensures DataSlot(key) !in s0
  {
    hide ParseDataKey, ObjectAt;
    assert OfGroup(j.o, key);
  }

  // ----- Objects with their own sidecars, or without -----

  lemma DecodesToOwn(o: Options, ch: EncodedChunk, ts: seq<TsEntry>)
    requires Encodes(EncodeTsIndex(ch.tsEntries), ts)
    ensures ts == ch.tsEntries
  {
    EncodeInjective(ts, ch.tsEntries);
  }

  /** A stored chunk whose sidecars are missing or its own stores its frames. */
  lemma OwnSidecarsStore(o: Options, s: Store, key: string, piece: seq<LogRecord>, ch: EncodedChunk)
    requires o.Legal() && piece != [] && ChunkFor(o, piece) == Some(ch)
    requires DataSlot(key) in s && s[DataSlot(key)] == ch.body
    requires IndexSlot(key) in s ==> s[IndexSlot(key)] == o.indexBytes(ch)
    requires TsSlot(key) in s ==> s[TsSlot(key)] == EncodeTsIndex(ch.tsEntries)
    ensures Stores(o.codec, ObjectAt(o, s, key), FramesOf(o.codec, o.frameTarget, piece))
  {
    assert o.decIndex(o.indexBytes(ch)) == Some(ch.entries);
    EncodeShape(o.codec, o.frameTarget, piece);
    hide Options.Legal, PushAll, Encode, FramesOf, FrameEntries, TsEntries, EncodeTsIndex, Encodes;
    var obj := ObjectAt(o, s, key);
    if Indexed(obj) {
      assert Encodes(EncodeTsIndex(ch.tsEntries), obj.sidecars.value.1);
      DecodesToOwn(o, ch, obj.sidecars.value.1);
    }
  }

  /** What an object's body holds does not depend on how its frames are told apart. */
  lemma RecordsUnique(c: Codec, obj: StoredObject, frames: seq<seq<LogRecord>>)
    requires c.Lawful() && Stores(c, obj, frames)
    ensures RecordsIn(c, obj) == Flatten(frames)
  {
    assert Sound(c, obj);
    BodyIsRecords(c, obj, frames);
    BodyIsRecords(c, obj, FramesIn(c, obj));
  }

  // ----- Drained objects are sound -----

  /** The store held no data object of the group, and no sidecar at the places of the job's objects. */
  ghost predicate Untouched(j: Job, s0: Store)
    requires Bytes(j.o.logGroup)
  {
    && (forall key :: DataSlot(key) in s0 ==> !OfGroup(j.o, key))
    && (forall w, n: nat, x :: w in j.windows && ObjectSlot(j.o, w, Base, n, x) ==> x !in s0)
  }

  /** CloudWatch returns events of the window it was asked for. */
  ghost predicate InTheirWindows(j: Job) {
    forall w, r :: w in j.windows && r in j.events(w) ==> w.startMs <= r.timestamp < w.endMs
  }

  /** Object n of the window holds piece n of the order, its sidecars missing or its own. */
  ghost predicate IsPiece(o: Options, s: Store, w: Window, order: seq<LogRecord>, n: nat)
    requires Bytes(o.logGroup)
  {
    && HasObject(o, s, w, n) && n < |Pieces(o, order)| && Pieces(o, order)[n] != []
    && Stores(o.codec, ObjectAt(o, s, ObjKey(o, w, Base, n)), FramesOf(o.codec, o.frameTarget, Pieces(o, order)[n]))
  }

  /** The job's stored objects are pieces of its events. */
  ghost predicate Planned(j: Job, s: Store)
    requires Bytes(j.o.logGroup)
  {
    forall w, n: nat :: w in j.windows && HasObject(j.o, s, w, n) ==> IsPiece(j.o, s, w, j.events(w), n)
  }

  /** What the plan writes for object n is in place or absent. */
  ghost predicate HoldsPlan(o: Options, s: Store, w: Window, order: seq<LogRecord>, n: nat)
    requires Bytes(o.logGroup)
  {
    forall i :: 0 <= i < |DataPuts(o, w, order)| && i / 3 == n ==> InPlace(s, DataPuts(o, w, order)[i])
  }

  ghost predicate InPlace(s: Store, p: Put) {
    p.slot in s ==> s[p.slot] == p.value
  }

  lemma SlotValue(o: Options, s: Store, w: Window, order: seq<LogRecord>, n: nat, k: nat)
    requires Bytes(o.logGroup) && n < |Pieces(o, order)| && k < 3 && HoldsPlan(o, s, w, order, n)
    ensures ChunkFor(o, Pieces(o, order)[n]).Some?
    ensures InPlace(s, ObjectPuts(o, ObjKey(o, w, Base, n), ChunkFor(o, Pieces(o, order)[n]).value)[k])
  {
    PiecesPartition(o, order);
    hide ObjKey, PiecePuts, ChunkFor, Pieces, InPlace;
    var i, pieces := 3 * n + k, Pieces(o, order);
    assert i / 3 == n && i % 3 == k;
    PutsCount(o, w, pieces);
    PutAt(o, w, pieces, i);
    assert InPlace(s, DataPuts(o, w, order)[i]);
  }

  lemma HoldsIsPiece(o: Options, s: Store, w: Window, order: seq<LogRecord>, n: nat)
    requires o.Legal() && Bytes(o.logGroup) && HasObject(o, s, w, n) && n < |Pieces(o, order)| && HoldsPlan(o, s, w, order, n)
    ensures IsPiece(o, s, w, order, n)
  {
    hide ObjKey, ChunkFor, Pieces, Options.Legal, Stores, ObjectAt, FramesOf, HoldsPlan, EncodeTsIndex;
    PiecesPartition(o, order);
    var piece := Pieces(o, order)[n];
    assert piece in Pieces(o, order);
    SlotValue(o, s, w, order, n, 0);
    SlotValue(o, s, w, order, n, 1);
    SlotValue(o, s, w, order, n, 2);
    OwnSidecarsStore(o, s, ObjKey(o, w, Base, n), piece, ChunkFor(o, piece).value);
  }

  /** A stored object was reached by some attempt. */
  lemma StoredIsReached(j: Job, s0: Store, t: State, w: Window, n: nat)
    requires Bytes(j.o.logGroup) && w in j.windows && WindowInv(j, s0, t, w) && Untouched(j, s0) && HasObject(j.o, t.store, w, n)
    ensures n < Reach(t, w)
  {
    hide ObjKey, Covered, CompletedInv, RunningInv;
    var x := DataSlot(ObjKey(j.o, w, Base, n));
    assert ObjectSlot(j.o, w, Base, n, x) && x !in s0;
  }

  lemma OwnSlotsHoldPlan(j: Job, s0: Store, s: Store, w: Window, n: nat)
    requires Bytes(j.o.logGroup) && w in j.windows && Untouched(j, s0) && SlotsOwn(j, s0, s, w)
    ensures HoldsPlan(j.o, s, w, j.events(w), n)
  {
    hide DataPuts;
    var ps := DataPuts(j.o, w, j.events(w));
    forall i | 0 <= i < |ps| && i / 3 == n ensures InPlace(s, ps[i]) {
      assert OwnOrSame(s0, s, ps[i]);
      SlotAt(j.o, w, j.events(w), i);
    }
  }

  /** Every stored object of a one-order run is one of the planned pieces with its sidecars missing or its own. */
  lemma StoredObjectIsPiece(j: Job, s0: Store, ls: seq<Label>, w: Window, n: nat)
    requires j.Legal() && Bytes(j.o.logGroup) && After(j, s0, ls).Some? && InOneOrder(j, ls) && Untouched(j, s0)
    requires w in j.windows && HasObject(j.o, After(j, s0, ls).value.store, w, n)
    ensures IsPiece(j.o, After(j, s0, ls).value.store, w, j.events(w), n)
  {
    hide After, Pieces, Job.Legal, InOneOrder, HasObject, WindowInv, SlotsOwn, IsPiece, HoldsPlan;
    var t := After(j, s0, ls).value;
    RunKeepsInv(j, s0, ls);
    assert WindowInv(j, s0, t, w);
    OneOrderRuns(j, s0, ls, w);
    StoredIsReached(j, s0, t, w, n);
    LegalJob(j);
    OwnSlotsHoldPlan(j, s0, t.store, w, n);
    HoldsIsPiece(j.o, t.store, w, j.events(w), n);
  }

  lemma PieceWithinWindow(j: Job, w: Window, n: nat, r: LogRecord)
    requires j.Legal() && w in j.windows && InTheirWindows(j) && n < |Pieces(j.o, j.events(w))| && r in Pieces(j.o, j.events(w))[n]
    ensures Day(r.timestamp) == Day(w.startMs)
  {
    JobWindowOf(j, w);
    hide Pieces, Job.Legal;
    PiecesPartition(j.o, j.events(w));
    FlattenMember(Pieces(j.o, j.events(w)), r);
    assert r in j.events(w);
    WindowWithinDay(w, j.o.windowMs, r.timestamp);
  }

  lemma EntryIsSound(j: Job, s: Store, w: Window, n: nat)
    requires j.Legal() && Bytes(j.o.logGroup) && InTheirWindows(j) && w in j.windows && IsPiece(j.o, s, w, j.events(w), n)
    ensures var e := EntryFor(j.o, s, w, n);
            && Sound(j.o.codec, e.obj) && RecordsIn(j.o.codec, e.obj) == Pieces(j.o, j.events(w))[n]
            && forall r :: r in RecordsIn(j.o.codec, e.obj) ==> Day(r.timestamp) == e.day
  {
    LegalJob(j);
    Archive.CodecOf(j.o);
    hide ObjKey, Pieces, Job.Legal, Stores, InTheirWindows, ObjectAt, Codec.Lawful, Options.Legal, ObjectName, RecordsIn;
    var piece, frames := Pieces(j.o, j.events(w))[n], FramesOf(j.o.codec, j.o.frameTarget, Pieces(j.o, j.events(w))[n]);
    EncodeShape(j.o.codec, j.o.frameTarget, piece);
    var obj := EntryFor(j.o, s, w, n).obj;
    RecordsUnique(j.o.codec, obj, frames);
    forall r | r in piece ensures Day(r.timestamp) == Day(w.startMs) {
      PieceWithinWindow(j, w, n, r);
    }
  }

  lemma PlannedIsSound(j: Job, s: Store, es: seq<Entry>)
    requires j.Legal() && Bytes(j.o.logGroup) && Planned(j, s) && InTheirWindows(j) && Objects(j, s, es)
    ensures SoundArchive(j.o.codec, es)
  {
    hide Job.Legal, InTheirWindows, DistinctKeys, RecordsIn, HasObject, IsPiece, EntryFor, Sound;
    forall e | e in es ensures Sound(j.o.codec, e.obj) && forall r :: r in RecordsIn(j.o.codec, e.obj) ==> Day(r.timestamp) == e.day {
      var w, n: nat :| IsObject(j, s, w, n, e);
      EntryIsSound(j, s, w, n);
    }
  }

  /**
   * The archive of any run, interrupted anywhere, in which every attempt at a
   * window saw one order: whatever the scan lists of it is a sound archive, so the
   * scan theorem applies.
   */
  lemma DrainedArchiveIsSound(j: Job, s0: Store, ls: seq<Label>, es: seq<Entry>)
    requires j.Legal() && Bytes(j.o.logGroup) && After(j, s0, ls).Some? && InOneOrder(j, ls) && Untouched(j, s0) && InTheirWindows(j)
    requires DatesTell(j.o) && Lists(j.o, After(j, s0, ls).value.store, es)
    ensures SoundArchive(j.o.codec, es)
  {
    hide After, Job.Legal, InOneOrder, Untouched, InTheirWindows, HasObject, IsPiece, Objects, SoundArchive, Inv, Lists;
    var s := After(j, s0, ls).value.store;
    RunKeepsInv(j, s0, ls);
    ListingIsObjects(j, s0, After(j, s0, ls).value, es);
    forall w, n: nat | w in j.windows && HasObject(j.o, s, w, n) ensures IsPiece(j.o, s, w, j.events(w), n) {
      StoredObjectIsPiece(j, s0, ls, w, n);
    }
    PlannedIsSound(j, s, es);
  }

  // ----- The scan of a completed drain -----

  ghost predicate NoRepeats<T>(s: seq<T>) {
    forall i, k :: 0 <= i < k < |s| ==> s[i] != s[k]
  }

  lemma {:induction false} CountOnce<T>(s: seq<T>, x: T)
    requires NoRepeats(s)
    ensures multiset(s)[x] == if x in s then 1 else 0
  {
    if s != [] {
      var n := |s| - 1;
      CountOnce(s[..n], x);
      TakeSnoc(s, n);
      TakeAll(s);
      assert s[n] !in s[..n];
    }
  }

  lemma SameMembersSameBag<T>(a: seq<T>, b: seq<T>)
    requires NoRepeats(a) && NoRepeats(b) && forall x :: x in a <==> x in b
    ensures multiset(a) == multiset(b)
  {
    forall x ensures multiset(a)[x] == multiset(b)[x] {
      CountOnce(a, x);
      CountOnce(b, x);
    }
  }

  /** The entry of a window's object, once it is stored. */
  ghost function EntryOf(o: Options, s: Store, w: Window, n: nat): Entry
    requires Bytes(o.logGroup)
  {
    if HasObject(o, s, w, n) then EntryFor(o, s, w, n) else Entry([], 0, [], StoredObject([], None))
  }

  ghost function EntriesOf(j: Job, s: Store): Window -> seq<Entry>
    requires Bytes(j.o.logGroup)
  {
    (w: Window) => seq(|Pieces(j.o, j.events(w))|, (n: nat) => EntryOf(j.o, s, w, n))
  }

  /** Every window is completely stored. */
  ghost predicate AllStored(j: Job, s: Store)
    requires Bytes(j.o.logGroup)
  {
    forall w, n: nat :: w in j.windows && n < |Pieces(j.o, j.events(w))| ==> IsPiece(j.o, s, w, j.events(w), n)
  }

  lemma {:induction false} InCat<T, R>(s: seq<T>, f: T -> seq<R>, x: R)
    ensures x in Cat(s, f) <==> exists w :: w in s && x in f(w)
  {
    if s != [] {
      InCat(s[1..], f, x);
      assert s[0] in s;
    }
  }

  lemma EntriesDiffer(j: Job, s: Store, v: Window, m: nat, w: Window, n: nat)
    requires j.Legal() && Bytes(j.o.logGroup) && v in j.windows && w in j.windows && HasObject(j.o, s, v, m) && HasObject(j.o, s, w, n)
    requires EntryFor(j.o, s, v, m) == EntryFor(j.o, s, w, n)
    ensures v == w && m == n
  {
    JobWindowOf(j, v);
    JobWindowOf(j, w);
    hide ObjKey, ObjectAt, Job.Legal, ObjectName;
    StartBounds(j.o, v);
    StartBounds(j.o, w);
    ObjectNameInjective(v.startMs, Base, m, w.startMs, Base, n);
    GridOrder(v, w, j.o.windowMs);
  }

  lemma StoredEntry(j: Job, s: Store, w: Window, n: nat)
    requires Bytes(j.o.logGroup) && AllStored(j, s) && w in j.windows && n < |Pieces(j.o, j.events(w))|
    ensures HasObject(j.o, s, w, n) && EntryOf(j.o, s, w, n) == EntryFor(j.o, s, w, n)
  {
    hide HasObject, EntryFor, Pieces;
    assert IsPiece(j.o, s, w, j.events(w), n);
  }

  lemma WindowHasNoRepeats(j: Job, s: Store, w: Window)
    requires j.Legal() && Bytes(j.o.logGroup) && AllStored(j, s) && w in j.windows
    ensures NoRepeats(EntriesOf(j, s)(w))
  {
    hide EntryOf, EntriesOf, EntryFor, HasObject, Job.Legal, Pieces, AllStored;
    EntriesShape(j, s, w);
    var a := EntriesOf(j, s)(w);
    forall i, k | 0 <= i < k < |a| ensures a[i] != a[k] {
      if a[i] == a[k] {
        StoredEntry(j, s, w, i);
        StoredEntry(j, s, w, k);
        EntriesDiffer(j, s, w, i, w, k);
      }
    }
  }

  lemma WindowsApart(j: Job, s: Store, v: Window, w: Window, x: Entry)
    requires j.Legal() && Bytes(j.o.logGroup) && AllStored(j, s) && v in j.windows && w in j.windows
    requires x in EntriesOf(j, s)(v) && x in EntriesOf(j, s)(w)
    ensures v == w
  {
    hide EntryOf, EntriesOf, EntryFor, HasObject, Job.Legal, Pieces, AllStored;
    EntriesShape(j, s, v);
    EntriesShape(j, s, w);
    var i :| 0 <= i < |EntriesOf(j, s)(v)| && EntriesOf(j, s)(v)[i] == x;
    var k :| 0 <= k < |EntriesOf(j, s)(w)| && EntriesOf(j, s)(w)[k] == x;
    StoredEntry(j, s, v, i);
    StoredEntry(j, s, w, k);
    EntriesDiffer(j, s, v, i, w, k);
  }

  lemma {:induction false} ListingHasNoRepeats(j: Job, s: Store, ws: seq<Window>)
    requires j.Legal() && Bytes(j.o.logGroup) && AllStored(j, s) && NoRepeats(ws) && forall w :: w in ws ==> w in j.windows
    ensures NoRepeats(Cat(ws, EntriesOf(j, s)))
  {
    if ws != [] {
      hide EntriesOf, Job.Legal, AllStored, Cat;
      var f := EntriesOf(j, s);
      assert ws[0] in ws && ws[0] !in ws[1..];
      ListingHasNoRepeats(j, s, ws[1..]);
      WindowHasNoRepeats(j, s, ws[0]);
      forall x ensures !(x in f(ws[0]) && x in Cat(ws[1..], f)) {
        InCat(ws[1..], f, x);
        if x in f(ws[0]) && x in Cat(ws[1..], f) {
          var w :| w in ws[1..] && x in f(w);
          WindowsApart(j, s, ws[0], w, x);
        }
      }
      JoinNoRepeats(f(ws[0]), Cat(ws[1..], f));
      CatFirst(ws, f);
    }
  }

  lemma CatFirst<T, R>(s: seq<T>, f: T -> seq<R>)
    requires s != []
    ensures Cat(s, f) == f(s[0]) + Cat(s[1..], f)
  {
  }

  lemma JoinNoRepeats<T>(a: seq<T>, b: seq<T>)
    requires NoRepeats(a) && NoRepeats(b) && forall x :: !(x in a && x in b)
    ensures NoRepeats(a + b)
  {
    var s := a + b;
    forall i, k | 0 <= i < k < |s| ensures s[i] != s[k] {
      if i < |a| <= k {
        assert s[i] in a && s[k] in b;
      }
    }
  }

  /** Any listing of a completely stored job is a rearrangement of its objects, window by window. */
  lemma ListingIsAllObjects(j: Job, s: Store, es: seq<Entry>, ws: seq<Window>)
    requires j.Legal() && Bytes(j.o.logGroup) && Planned(j, s) && AllStored(j, s) && Objects(j, s, es)
    requires NoRepeats(ws) && forall w :: w in ws <==> w in j.windows
    ensures multiset(es) == multiset(Cat(ws, EntriesOf(j, s)))
  {
    hide Job.Legal, Pieces, Cat, HasObject, AllStored, EntriesOf, DistinctKeys, NoRepeats, EntryFor;
    var f := EntriesOf(j, s);
    ListingHasNoRepeats(j, s, ws);
    forall e ensures e in es <==> e in Cat(ws, f) {
      InCat(ws, f, e);
      if e in es {
        var w, n: nat :| IsObject(j, s, w, n, e);
        assert IsPiece(j.o, s, w, j.events(w), n);
        EntryIsListed(j, s, w, n, e);
      }
      if w :| w in ws && e in f(w) {
        var n := ListedIsEntry(j, s, w, e);
      }
    }
    KeysAreNoRepeats(es);
    SameMembersSameBag(es, Cat(ws, f));
  }

  lemma KeysAreNoRepeats(es: seq<Entry>)
    requires DistinctKeys(es)
    ensures NoRepeats(es)
  {
  }

  lemma EntryIsListed(j: Job, s: Store, w: Window, n: nat, e: Entry)
    requires Bytes(j.o.logGroup) && IsObject(j, s, w, n, e) && n < |Pieces(j.o, j.events(w))|
    ensures e in EntriesOf(j, s)(w)
  {
    hide Pieces, HasObject, ObjectAt, ObjectName;
    EntriesShape(j, s, w);
    assert EntriesOf(j, s)(w)[n] == e;
  }

  lemma ListedIsEntry(j: Job, s: Store, w: Window, e: Entry) returns (n: nat)
    requires Bytes(j.o.logGroup) && w in j.windows && e in EntriesOf(j, s)(w) && AllStored(j, s)
    ensures n < |Pieces(j.o, j.events(w))| && IsObject(j, s, w, n, e)
  {
    hide Pieces, HasObject, EntryFor, EntriesOf, AllStored;
    EntriesShape(j, s, w);
    var es := EntriesOf(j, s)(w);
    n :| 0 <= n < |es| && es[n] == e;
    StoredEntry(j, s, w, n);
  }

  // ----- Adding up -----

  lemma PieceMatches(j: Job, s: Store, w: Window, n: nat, range: TimeRange, pattern: Pattern)
    requires j.Legal() && Bytes(j.o.logGroup) && InTheirWindows(j) && AllStored(j, s) && w in j.windows && n < |Pieces(j.o, j.events(w))|
    ensures MatchesIn(j.o.codec, range, pattern)(EntryOf(j.o, s, w, n)) == multiset(Select(Pieces(j.o, j.events(w))[n], range, pattern))
  {
    hide Job.Legal, InTheirWindows, Pieces, HasObject, Select, RecordsIn, ObjectAt, ObjectName;
    assert IsPiece(j.o, s, w, j.events(w), n);
    EntryIsSound(j, s, w, n);
  }

  lemma EntriesShape(j: Job, s: Store, w: Window)
    requires Bytes(j.o.logGroup)
    ensures var es := EntriesOf(j, s)(w);
            |es| == |Pieces(j.o, j.events(w))| && forall n :: 0 <= n < |es| ==> es[n] == EntryOf(j.o, s, w, n)
  {
    hide EntryOf, Pieces;
  }

  lemma {:induction false} PiecesAddUp(es: seq<Entry>, pieces: seq<seq<LogRecord>>, f: Entry -> multiset<LogRecord>, range: TimeRange, pattern: Pattern)
    requires |es| == |pieces| && forall n :: 0 <= n < |es| ==> f(es[n]) == multiset(Select(pieces[n], range, pattern))
    ensures SumOver(es, f) == multiset(Select(Flatten(pieces), range, pattern))
  {
    if es == [] {
      SelectNothing(range, pattern);
    } else {
      hide Select;
      PiecesAddUp(es[1..], pieces[1..], f, range, pattern);
      SelectAppend(pieces[0], Flatten(pieces[1..]), range, pattern);
    }
  }

  lemma WindowMatches(j: Job, s: Store, w: Window, range: TimeRange, pattern: Pattern)
    requires j.Legal() && Bytes(j.o.logGroup) && InTheirWindows(j) && AllStored(j, s) && w in j.windows
    ensures SumOver(EntriesOf(j, s)(w), MatchesIn(j.o.codec, range, pattern)) == multiset(Select(j.events(w), range, pattern))
  {
    hide Job.Legal, InTheirWindows, Pieces, AllStored, Select, SumOver, MatchesIn, EntryOf, EntriesOf;
    var es, pieces := EntriesOf(j, s)(w), Pieces(j.o, j.events(w));
    EntriesShape(j, s, w);
    var f := MatchesIn(j.o.codec, range, pattern);
    forall n | 0 <= n < |es| ensures f(es[n]) == multiset(Select(pieces[n], range, pattern)) {
      PieceMatches(j, s, w, n, range, pattern);
    }
    PiecesAddUp(es, pieces, f, range, pattern);
    PiecesPartition(j.o, j.events(w));
  }

  lemma {:induction false} AllMatches(j: Job, s: Store, ws: seq<Window>, range: TimeRange, pattern: Pattern)
    requires j.Legal() && Bytes(j.o.logGroup) && InTheirWindows(j) && AllStored(j, s) && forall w :: w in ws ==> w in j.windows
    ensures SumOver(Cat(ws, EntriesOf(j, s)), MatchesIn(j.o.codec, range, pattern)) == multiset(Select(Cat(ws, j.events), range, pattern))
  {
    if ws == [] {
      SelectNothing(range, pattern);
    } else {
      hide Job.Legal, InTheirWindows, AllStored, Select, SumOver, MatchesIn, EntriesOf, Cat;
      var f := EntriesOf(j, s);
      AllMatches(j, s, ws[1..], range, pattern);
      WindowMatches(j, s, ws[0], range, pattern);
      CatFirst(ws, f);
      CatFirst(ws, j.events);
      SumOverAppend(f(ws[0]), Cat(ws[1..], f), MatchesIn(j.o.codec, range, pattern));
      SelectAppend(j.events(ws[0]), Cat(ws[1..], j.events), range, pattern);
    }
  }

  lemma {:induction false} KeepAll(es: seq<Entry>, p: Entry -> bool)
    requires forall e :: e in es ==> p(e)
    ensures Keep(es, p) == es
  {
    if es != [] {
      assert es[0] in es;
      KeepAll(es[1..], p);
      assert es == [es[0]] + es[1..];
    }
  }

  /** The scan of the group is due exactly the matching events of the windows, each once, for any range and pattern. */
  ghost predicate ScansTo(j: Job, es: seq<Entry>, ws: seq<Window>) {
    && SoundArchive(j.o.codec, es)
    && forall range, pattern ::
         Expected(j.o.codec, es, [j.o.logGroup], range, pattern) == multiset(WithGroup(Select(Cat(ws, j.events), range, pattern), j.o.logGroup))
  }

  lemma PlannedScan(j: Job, s: Store, es: seq<Entry>, ws: seq<Window>)
    requires j.Legal() && Bytes(j.o.logGroup) && Planned(j, s) && AllStored(j, s) && InTheirWindows(j)
    requires Objects(j, s, es) && NoRepeats(ws) && forall w :: w in ws <==> w in j.windows
    ensures ScansTo(j, es, ws)
  {
    PlannedIsSound(j, s, es);
    ListingIsAllObjects(j, s, es, ws);
    hide Job.Legal, InTheirWindows, Planned, AllStored, Select, SumOver, MatchesIn, EntriesOf, SoundArchive, WithGroup, Arriving, Cat, NoRepeats, Keep, Expected;
    forall range, pattern
      ensures Expected(j.o.codec, es, [j.o.logGroup], range, pattern) == multiset(WithGroup(Select(Cat(ws, j.events), range, pattern), j.o.logGroup))
    {
      AllMatches(j, s, ws, range, pattern);
      var c := j.o.codec;
      SumOverPermutes(es, Cat(ws, EntriesOf(j, s)), MatchesIn(c, range, pattern));
      OneGroupExpected(j, s, es, range, pattern);
      ArrivingBag(c, es, range, pattern);
      WithGroupPermutes(Cat(es, Arriving(c, range, pattern)), Select(Cat(ws, j.events), range, pattern), j.o.logGroup);
    }
  }

  lemma OneGroupExpected(j: Job, s: Store, es: seq<Entry>, range: TimeRange, pattern: Pattern)
    requires Bytes(j.o.logGroup) && Objects(j, s, es)
    ensures Expected(j.o.codec, es, [j.o.logGroup], range, pattern) == multiset(WithGroup(Cat(es, Arriving(j.o.codec, range, pattern)), j.o.logGroup))
  {
    hide ObjKey, ObjectAt, ObjectName, HasObject, WithGroup, Arriving, Cat, DistinctKeys;
    forall e | e in es ensures InGroup(j.o.logGroup)(e) {
      var w, n: nat :| IsObject(j, s, w, n, e);
    }
    KeepAll(es, InGroup(j.o.logGroup));
    var none: seq<string> := [];
    assert [j.o.logGroup][..0] == none;
    assert Expected(j.o.codec, es, none, range, pattern) == multiset{};
  }

  // ----- Where it fails -----

  lemma {:induction false} FlattenAtLeast<T>(ss: seq<seq<T>>)
    requires [] !in ss
    ensures |Flatten(ss)| >= |ss|
  {
    if ss != [] {
      assert ss[0] in ss;
      FlattenAtLeast(ss[1..]);
    }
  }

  lemma OneFrame(frames: seq<seq<LogRecord>>, r: LogRecord)
    requires Flatten(frames) == [r] && [] !in frames
    ensures frames == [[r]]
  {
    FlattenAtLeast(frames);
    assert frames != [];
    assert frames[1..] == [] && frames[0] + [] == frames[0];
  }

  /**
   * Attempts in two orders can leave an object whose loaded sidecars are not its
   * own: the scan of [3, 4) prunes it without an error although its body holds the
   * event at 3.
   */
  lemma StaleSidecarsLose(j: Job, w: Window, three: LogRecord, five: LogRecord) returns (ls: seq<Label>)
    requires j.Legal() && Bytes(j.o.logGroup) && w in j.windows && three.timestamp == 3 && five.timestamp == 5
    requires |j.o.codec.Line(three)| < j.o.chunkTarget <= |j.o.codec.Line(five)| && multiset(j.events(w)) == multiset([three, five])
    ensures After(j, map[], ls).Some? && HasObject(j.o, After(j, map[], ls).value.store, w, 0)
    ensures var s, key := After(j, map[], ls).value.store, ObjKey(j.o, w, Base, 0);
            && ObjectReader.AllPruned(ObjectAt(j.o, s, key), TimeRange(3, 4))
            && Archive.ReadObject(j.o, s, key) == Some([three, five])
  {
    ls := StaleSidecars(j, w, three, five);
    LegalJob(j);
    Archive.CodecOf(j.o);
    var s, key := After(j, map[], ls).value.store, ObjKey(j.o, w, Base, 0);
    hide After, Job.Legal, ObjKey, Covered;
    PrunedByStale(j.o, s, key, five);
    Archive.StoredChunkReads(j.o, s, key, [three, five]);
  }

  lemma PrunedByStale(o: Options, s: Store, key: string, five: LogRecord)
    requires o.Legal() && five.timestamp == 5 && ChunkFor(o, [five]).Some? && DataSlot(key) in s
    requires IndexSlot(key) in s && s[IndexSlot(key)] == o.indexBytes(ChunkFor(o, [five]).value)
    requires TsSlot(key) in s && s[TsSlot(key)] == EncodeTsIndex(ChunkFor(o, [five]).value.tsEntries)
    ensures ObjectReader.AllPruned(ObjectAt(o, s, key), TimeRange(3, 4))
  {
    var ch := ChunkFor(o, [five]).value;
    assert o.decIndex(o.indexBytes(ch)) == Some(ch.entries);
    ChunkOfOne(o, five, ch);
    hide Options.Legal, ChunkFor, EncodeTsIndex;
    assert Encodes(EncodeTsIndex(ch.tsEntries), ch.tsEntries);
    var obj, range := ObjectAt(o, s, key), TimeRange(3, 4);
    DecodesToOwn(o, ch, obj.sidecars.value.1);
    assert FramesOverlapping(ch.entries, ch.tsEntries, range, 1) == FramesOverlapping(ch.entries, ch.tsEntries, range, 0) + [];
  }

  lemma ChunkOfOne(o: Options, five: LogRecord, ch: EncodedChunk)
    requires five.timestamp == 5 && ChunkFor(o, [five]) == Some(ch)
    ensures |ch.entries| == 1 && ch.tsEntries == [TsEntry(5, 5)]
  {
    EncodeShape(o.codec, o.frameTarget, [five]);
    var frames := FramesOf(o.codec, o.frameTarget, [five]);
    hide PushAll, Encode, FramesOf;
    OneFrame(frames, five);
    TightBounds([five]);
    EntriesMatch(o.codec, frames);
  }
}
