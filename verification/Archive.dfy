/** Reading archived objects back through the manifests that list them, and which object keys a manifest may list. */
module Archive {
  import opened Common
  import opened Layout
  import opened Chunk
  import opened Windows
  import opened Drain
  import opened Keys
  import Shards
  import Bags

  /** The records of a parse in which every line decoded. */
  function AllDecoded(os: seq<Option<LogRecord>>): Option<seq<LogRecord>> {
    if os == [] then Some([])
    else
      match (os[0], AllDecoded(os[1..]))
      case (Some(r), Some(rs)) => Some([r] + rs)
      case _ => None
  }

  lemma {:induction false} AllDecodedIntact(rs: seq<LogRecord>)
    ensures AllDecoded(Intact(rs)) == Some(rs)
  {
    if rs != [] {
      AllDecodedIntact(rs[1..]);
      assert Intact(rs)[0] == Some(rs[0]) && Intact(rs)[1..] == Intact(rs[1..]);
      assert rs == [rs[0]] + rs[1..];
    }
  }

  /** What any stock zstd and JSONL reader gets from a stored object. */
  function ReadObject(o: Options, s: Store, key: string): Option<seq<LogRecord>> {
    if DataSlot(key) !in s then None
    else
      match o.codec.unzip(s[DataSlot(key)])
      case None => None
      case Some(plain) => AllDecoded(o.codec.ParseLines(plain))
  }

  /** The records of all listed objects, in listing order. */
  function ReadListed(o: Options, s: Store, es: seq<ManifestObject>): Option<seq<LogRecord>> {
    if es == [] then Some([])
    else
      match (ReadListed(o, s, es[..|es| - 1]), ReadObject(o, s, es[|es| - 1].dataKey))
      case (Some(a), Some(b)) => Some(a + b)
      case _ => None
  }

  lemma StoredChunkReads(o: Options, s: Store, key: string, piece: seq<LogRecord>)
    requires o.codec.Lawful() && piece != []
    requires ChunkFor(o, piece).Some? && DataSlot(key) in s && s[DataSlot(key)] == ChunkFor(o, piece).value.body
    ensures ReadObject(o, s, key) == Some(piece)
  {
    hide PushAll, Encode, FramesOf;
    ChunkRoundTrip(o.codec, o.frameTarget, piece);
    AllDecodedIntact(piece);
  }

  lemma {:induction false} ListedUndisturbed(o: Options, s: Store, t: Store, es: seq<ManifestObject>)
    requires forall e :: e in es ==>
               && (DataSlot(e.dataKey) in s <==> DataSlot(e.dataKey) in t)
               && (DataSlot(e.dataKey) in s ==> s[DataSlot(e.dataKey)] == t[DataSlot(e.dataKey)])
    ensures ReadListed(o, s, es) == ReadListed(o, t, es)
  {
    if es != [] {
      ListedUndisturbed(o, s, t, es[..|es| - 1]);
      assert es[|es| - 1] in es;
    }
  }

  lemma {:induction false} ReadListedAppend(o: Options, s: Store, a: seq<ManifestObject>, b: seq<ManifestObject>)
    requires ReadListed(o, s, a).Some? && ReadListed(o, s, b).Some?
    ensures ReadListed(o, s, a + b) == Some(ReadListed(o, s, a).value + ReadListed(o, s, b).value)
    decreases |b|
  {
    hide ReadObject;
    if b == [] {
      assert a + b == a && ReadListed(o, s, a).value + [] == ReadListed(o, s, a).value;
    } else {
      var n := |b| - 1;
      ReadListedAppend(o, s, a, b[..n]);
      assert (a + b)[..|a + b| - 1] == a + b[..n] && (a + b)[|a + b| - 1] == b[n];
      Assoc(ReadListed(o, s, a).value, ReadListed(o, s, b[..n]).value, ReadObject(o, s, b[n].dataKey).value);
    }
  }

  /** Every PUT of the list is in the store. */
  ghost predicate AllPut(s: Store, ps: seq<Put>) {
    forall i :: 0 <= i < |ps| ==> ps[i].slot in s && s[ps[i].slot] == ps[i].value
  }

  /** Once a run's objects are stored, its manifest entries read back as its records. */
  lemma {:induction false} EntriesReadBack(o: Options, s: Store, w: Window, naming: ObjectNaming, pieces: seq<seq<LogRecord>>)
    requires o.Legal() && [] !in pieces && AllPut(s, PiecePuts(o, w, naming, pieces))
    ensures ReadListed(o, s, PieceEntries(o, w, naming, pieces)) == Some(Flatten(pieces))
    ensures |PieceEntries(o, w, naming, pieces)| == |pieces|
    decreases |pieces|
  {
    hide ObjKey, ChunkFor, ReadObject, ReadListed, PiecePuts, PieceEntries, Options.Legal, ObjectEntry;
    BytesOf(o);
    if pieces == [] {
      NoPieces(o, s, w, naming);
    } else {
      var n := |pieces| - 1;
      var front := PiecePuts(o, w, naming, pieces[..n]);
      assert pieces[n] in pieces;
      ChunkPresent(o, pieces[n]);
      var key, ch := ObjKey(o, w, naming, n), ChunkFor(o, pieces[n]).value;
      assert pieces == pieces[..n] + [pieces[n]];
      PieceSnoc(o, w, naming, pieces[..n], pieces[n], ch);
      AllPutSplit(s, front, ObjectPuts(o, key, ch));
      EntriesReadBack(o, s, w, naming, pieces[..n]);
      CodecOf(o);
      ObjectPutReads(o, s, key, pieces[n], ch);
      FlattenSnoc(pieces[..n], pieces[n]);
      EntryKeyIs(key, ch);
      EntrySnocReads(o, s, PieceEntries(o, w, naming, pieces[..n]), ObjectEntry(key, ch));
    }
  }

  /** The entry describes the stored object of the piece: its length, text size, record count and exact time bounds. */
  ghost predicate Describes(o: Options, s: Store, e: ManifestObject, piece: seq<LogRecord>) {
    && DataSlot(e.dataKey) in s && |s[DataSlot(e.dataKey)]| == e.bodyLen
    && o.codec.unzip(s[DataSlot(e.dataKey)]).Some? && e.rawBytes == Some(|o.codec.unzip(s[DataSlot(e.dataKey)]).value|)
    && e.recordCount == |piece|
    && (forall r :: r in piece ==> e.minTs <= r.timestamp <= e.maxTs)
    && (exists r :: r in piece && r.timestamp == e.minTs) && (exists r :: r in piece && r.timestamp == e.maxTs)
  }

  lemma EntryDescribes(o: Options, s: Store, key: string, piece: seq<LogRecord>, ch: EncodedChunk)
    requires o.codec.Lawful() && piece != [] && ChunkFor(o, piece) == Some(ch) && AllPut(s, ObjectPuts(o, key, ch))
    ensures Describes(o, s, ObjectEntry(key, ch), piece)
  {
    assert ObjectPuts(o, key, ch)[0] == Put(DataSlot(key), ch.body);
    ChunkText(o, piece, ch);
    ChunkStats(o, piece, ch);
    hide ChunkFor, Codec.Lines, MinTs, MaxTs, AllDecoded, Codec.Lawful, Codec.ParseLines;
    TightBounds(piece);
  }

  lemma ChunkStats(o: Options, piece: seq<LogRecord>, ch: EncodedChunk)
    requires piece != [] && ChunkFor(o, piece) == Some(ch)
    ensures ch.recordCount == |piece| && ch.minTimestamp == MinTs(piece) && ch.maxTimestamp == MaxTs(piece)
  {
    hide PushAll, Encode, FramesOf, MinTs, MaxTs;
    EncodeShape(o.codec, o.frameTarget, piece);
  }

  lemma ChunkText(o: Options, piece: seq<LogRecord>, ch: EncodedChunk)
    requires o.codec.Lawful() && piece != [] && ChunkFor(o, piece) == Some(ch)
    ensures o.codec.unzip(ch.body) == Some(o.codec.Lines(piece)) && ch.uncompressedBytes == |o.codec.Lines(piece)|
    ensures AllDecoded(o.codec.ParseLines(o.codec.Lines(piece))) == Some(piece)
  {
    hide PushAll, Encode, FramesOf, AllDecoded, Codec.Lawful, Codec.Lines;
    ChunkRoundTrip(o.codec, o.frameTarget, piece);
    AllDecodedIntact(piece);
  }

  /** Once a run's objects are stored, its manifest entries describe them, one for one. */
  lemma {:induction false} EntriesDescribe(o: Options, s: Store, w: Window, naming: ObjectNaming, pieces: seq<seq<LogRecord>>, i: nat)
    requires o.Legal() && [] !in pieces && AllPut(s, PiecePuts(o, w, naming, pieces)) && i < |pieces|
    ensures |PieceEntries(o, w, naming, pieces)| == |pieces| && Describes(o, s, PieceEntries(o, w, naming, pieces)[i], pieces[i])
    decreases |pieces|
  {
    hide ObjKey, ChunkFor, PiecePuts, PieceEntries, Options.Legal, ObjectEntry, Describes, ReadListed;
    BytesOf(o);
    var n := |pieces| - 1;
    assert pieces[n] in pieces;
    ChunkPresent(o, pieces[n]);
    var key, ch := ObjKey(o, w, naming, n), ChunkFor(o, pieces[n]).value;
    assert pieces == pieces[..n] + [pieces[n]];
    EntriesReadBack(o, s, w, naming, pieces);
    PieceSnoc(o, w, naming, pieces[..n], pieces[n], ch);
    AllPutSplit(s, PiecePuts(o, w, naming, pieces[..n]), ObjectPuts(o, key, ch));
    if i < n {
      EntriesDescribe(o, s, w, naming, pieces[..n], i);
    } else {
      CodecOf(o);
      EntryDescribes(o, s, key, pieces[n], ch);
    }
  }

  lemma NoPieces(o: Options, s: Store, w: Window, naming: ObjectNaming)
    requires Bytes(o.logGroup)
    ensures PieceEntries(o, w, naming, []) == [] && ReadListed(o, s, []) == Some([])
  {
  }

  lemma AllPutSplit(s: Store, a: seq<Put>, b: seq<Put>)
    requires AllPut(s, a + b)
    ensures AllPut(s, a) && AllPut(s, b)
  {
    forall i | 0 <= i < |a| ensures a[i].slot in s && s[a[i].slot] == a[i].value {
      assert (a + b)[i] == a[i];
    }
    forall i | 0 <= i < |b| ensures b[i].slot in s && s[b[i].slot] == b[i].value {
      assert (a + b)[|a| + i] == b[i];
    }
  }

  lemma ObjectPutReads(o: Options, s: Store, key: string, piece: seq<LogRecord>, ch: EncodedChunk)
    requires o.codec.Lawful() && piece != [] && ChunkFor(o, piece) == Some(ch) && AllPut(s, ObjectPuts(o, key, ch))
    ensures ReadObject(o, s, key) == Some(piece)
  {
    hide ReadObject, ChunkFor;
    assert ObjectPuts(o, key, ch)[0] == Put(DataSlot(key), ch.body);
    StoredChunkReads(o, s, key, piece);
  }

  lemma EntryKeyIs(key: string, ch: EncodedChunk)
    ensures ObjectEntry(key, ch).dataKey == key
  {
  }

  lemma CodecOf(o: Options)
    requires o.Legal()
    ensures o.codec.Lawful()
  {
  }

  lemma EntrySnocReads(o: Options, s: Store, es: seq<ManifestObject>, e: ManifestObject)
    requires ReadListed(o, s, es).Some? && ReadObject(o, s, e.dataKey).Some?
    ensures ReadListed(o, s, es + [e]) == Some(ReadListed(o, s, es).value + ReadObject(o, s, e.dataKey).value)
  {
    hide ReadObject;
    assert (es + [e])[..|es|] == es && (es + [e])[|es|] == e;
  }

  lemma {:induction false} EntriesCount(o: Options, w: Window, naming: ObjectNaming, pieces: seq<seq<LogRecord>>)
    requires Bytes(o.logGroup) && [] !in pieces
    ensures TotalRecords(PieceEntries(o, w, naming, pieces)) == |Flatten(pieces)|
    decreases |pieces|
  {
    if pieces == [] {
      NoPieces(o, map[], w, naming);
    } else {
      hide ObjKey, ChunkFor, PieceEntries, TotalRecords, ObjectEntry, Flatten;
      var n := |pieces| - 1;
      EntriesCount(o, w, naming, pieces[..n]);
      assert pieces[n] in pieces;
      ChunkCounts(o, pieces[n]);
      var ch := ChunkFor(o, pieces[n]).value;
      TakeSnoc(pieces, n);
      TakeAll(pieces);
      var e := ObjectEntry(ObjKey(o, w, naming, n), ch);
      PieceSnoc(o, w, naming, pieces[..n], pieces[n], ch);
      TotalAppend(PieceEntries(o, w, naming, pieces[..n]), [e]);
      SingleTotal(e);
      EntryCount(ObjKey(o, w, naming, n), ch);
      FlattenSnoc(pieces[..n], pieces[n]);
    }
  }

  lemma ChunkCounts(o: Options, piece: seq<LogRecord>)
    requires piece != []
    ensures ChunkFor(o, piece).Some? && ChunkFor(o, piece).value.recordCount == |piece|
  {
    EncodeShape(o.codec, o.frameTarget, piece);
  }

  // ----- Which keys a window's manifest lists -----

  function KeysOf(es: seq<ManifestObject>): seq<string> {
    seq(|es|, i requires 0 <= i < |es| => es[i].dataKey)
  }

  /** The key names an object of this window; a reconcile object comes with the first object of its attempt. */
  ghost predicate OwnKey(o: Options, w: Window, keys: seq<string>, key: string, naming: ObjectNaming, n: nat)
    requires Bytes(o.logGroup)
  {
    && LegalNaming(naming) && key == ObjKey(o, w, naming, n)
    && (naming.Reconcile? ==> ObjKey(o, w, naming, 0) in keys)
  }

  ghost predicate Orderly(o: Options, w: Window, es: seq<ManifestObject>)
    requires Bytes(o.logGroup)
  {
    forall e :: e in es ==> exists naming, n :: OwnKey(o, w, KeysOf(es), e.dataKey, naming, n)
  }

  lemma {:induction false} EntryKeys(o: Options, w: Window, naming: ObjectNaming, pieces: seq<seq<LogRecord>>, e: ManifestObject) returns (n: nat)
    requires Bytes(o.logGroup) && e in PieceEntries(o, w, naming, pieces)
    ensures n < |pieces| && e.dataKey == ObjKey(o, w, naming, n)
    decreases |pieces|
  {
    hide ObjKey, ChunkFor;
    var m := |pieces| - 1;
    if e in PieceEntries(o, w, naming, pieces[..m]) {
      n := EntryKeys(o, w, naming, pieces[..m], e);
    } else {
      n := m;
    }
  }

  lemma {:induction false} FirstEntry(o: Options, w: Window, naming: ObjectNaming, pieces: seq<seq<LogRecord>>)
    requires Bytes(o.logGroup) && pieces != [] && [] !in pieces
    ensures PieceEntries(o, w, naming, pieces) != [] && PieceEntries(o, w, naming, pieces)[0].dataKey == ObjKey(o, w, naming, 0)
    decreases |pieces|
  {
    hide ObjKey, ChunkFor;
    var m := |pieces| - 1;
    assert pieces[m] in pieces;
    ChunkPresent(o, pieces[m]);
    if m > 0 {
      FirstEntry(o, w, naming, pieces[..m]);
    } else {
      assert pieces[..0] == [];
    }
  }

  lemma OrderlyBase(o: Options, w: Window, pieces: seq<seq<LogRecord>>)
    requires Bytes(o.logGroup)
    ensures Orderly(o, w, PieceEntries(o, w, Base, pieces))
  {
    hide ObjKey, PieceEntries;
    var es := PieceEntries(o, w, Base, pieces);
    forall e | e in es ensures exists naming, n :: OwnKey(o, w, KeysOf(es), e.dataKey, naming, n) {
      var n := EntryKeys(o, w, Base, pieces, e);
      assert OwnKey(o, w, KeysOf(es), e.dataKey, Base, n);
    }
  }

  lemma OrderlyAppend(o: Options, w: Window, es: seq<ManifestObject>, attempt: nat, pieces: seq<seq<LogRecord>>)
    requires Bytes(o.logGroup) && Orderly(o, w, es) && 1 <= attempt <= 99 && [] !in pieces
    ensures Orderly(o, w, es + PieceEntries(o, w, Reconcile(attempt), pieces))
  {
    hide ObjKey, PieceEntries;
    var more := PieceEntries(o, w, Reconcile(attempt), pieces);
    var all := es + more;
    KeysOfAppend(es, more);
    forall e | e in all ensures exists naming, n :: OwnKey(o, w, KeysOf(all), e.dataKey, naming, n) {
      if e in es {
        var naming, n :| OwnKey(o, w, KeysOf(es), e.dataKey, naming, n);
        assert OwnKey(o, w, KeysOf(all), e.dataKey, naming, n);
      } else {
        var n := EntryKeys(o, w, Reconcile(attempt), pieces, e);
        FirstEntry(o, w, Reconcile(attempt), pieces);
        assert KeysOf(more)[0] == ObjKey(o, w, Reconcile(attempt), 0);
        assert OwnKey(o, w, KeysOf(all), e.dataKey, Reconcile(attempt), n);
      }
    }
  }

  lemma KeysOfAppend(a: seq<ManifestObject>, b: seq<ManifestObject>)
    ensures KeysOf(a + b) == KeysOf(a) + KeysOf(b)
  {
  }

  /** A legal choice of the next attempt: above every attempt the scan sees. */
  ghost predicate NextFree(keys: seq<string>, attempt: nat) {
    1 <= attempt <= 99 && forall k :: k in keys && AttemptOf(k).Some? ==> AttemptOf(k).value < attempt
  }

  /** No object of the next attempt is one the manifest already lists. */
  lemma AttemptIsFresh(o: Options, w: Window, es: seq<ManifestObject>, attempt: nat, n: nat)
    requires o.Legal() && JobWindow(o, w) && Orderly(o, w, es) && NextFree(KeysOf(es), attempt)
    ensures ObjKey(o, w, Reconcile(attempt), n) !in KeysOf(es)
  {
    hide Options.Legal, JobWindow, AttemptOf, ObjKey;
    BytesOf(o);
    var key := ObjKey(o, w, Reconcile(attempt), n);
    if key in KeysOf(es) {
      var i :| 0 <= i < |es| && es[i].dataKey == key;
      assert es[i] in es;
      var naming, m :| OwnKey(o, w, KeysOf(es), key, naming, m);
      ObjKeyInjective(o, w, Reconcile(attempt), n, w, naming, m);
      FirstOfAttempt(o, w, attempt);
    }
  }

  lemma FirstOfAttempt(o: Options, w: Window, attempt: nat)
    requires Bytes(o.logGroup) && attempt <= 99
    ensures AttemptOf(ObjKey(o, w, Reconcile(attempt), 0)) == Some(attempt)
  {
    hide AttemptOf, DataKey, ObjectName;
    var loc := ChunkLocation(o.account, o.logGroup, o.dateLabel(Day(w.startMs)), ObjectName(w.startMs, Reconcile(attempt), 0));
    AttemptReadBack(o.prefix, loc, w.startMs, attempt, 0);
  }

  /** One more PUT of a list with distinct slots. */
  lemma ExtendPut(s: Store, ps: seq<Put>, i: nat)
    requires DistinctSlots(ps) && i < |ps| && AllPut(s, ps[..i])
    ensures AllPut(s[ps[i].slot := ps[i].value], ps[..i + 1])
  {
    var t, qs := s[ps[i].slot := ps[i].value], ps[..i + 1];
    forall k | 0 <= k < |qs| ensures qs[k].slot in t && t[qs[k].slot] == qs[k].value {
      if k < i {
        assert ps[..i][k] == ps[k] && ps[k].slot != ps[i].slot;
      }
    }
  }

  // ----- What a completed drain archives -----

  /** After objects and then a manifest are written, all of them are in the store. */
  lemma PlanStores(o: Options, w: Window, naming: ObjectNaming, pieces: seq<seq<LogRecord>>, last: Put, s: Store)
    requires o.Legal() && JobWindow(o, w) && Bytes(o.logGroup) && LegalNaming(naming) && last.slot.ManifestSlot?
    ensures var t := ApplyPuts(s, PiecePuts(o, w, naming, pieces) + [last]);
            AllPut(t, PiecePuts(o, w, naming, pieces)) && last.slot in t && t[last.slot] == last.value
  {
    hide PiecePuts, Options.Legal, JobWindow;
    var ps := PiecePuts(o, w, naming, pieces);
    PieceSlotsDistinct(o, w, naming, pieces);
    ApplySnoc(s, ps, last);
    forall i | 0 <= i < |ps| ensures ps[i].slot in ApplyPuts(s, ps + [last]) && ApplyPuts(s, ps + [last])[ps[i].slot] == ps[i].value {
      ApplyAt(s, ps, i);
      var n := PieceSlots(o, w, naming, pieces, i);
    }
  }

  lemma DrainStores(o: Options, w: Window, rs: seq<LogRecord>, now: int, s: Store)
    requires o.Legal() && JobWindow(o, w) && Bytes(o.logGroup)
    ensures var t := ApplyPuts(s, DrainPlan(o, w, rs, now));
            && AllPut(t, PiecePuts(o, w, Base, Pieces(o, rs)))
            && ManifestSlot(ManKey(o, w)) in t
            && t[ManifestSlot(ManKey(o, w))] == o.man.enc(WindowManifest(o, w, rs, now))
  {
    hide PiecePuts, WindowManifest, ManKey, Options.Legal, JobWindow, Pieces;
    var last := Put(ManifestSlot(ManKey(o, w)), o.man.enc(WindowManifest(o, w, rs, now)));
    PlanStores(o, w, Base, Pieces(o, rs), last, s);
  }

  /** The objects a completed drain lists read back as exactly the records it pushed. */
  lemma DrainReadsBack(o: Options, w: Window, rs: seq<LogRecord>, now: int, s: Store)
    requires o.Legal() && JobWindow(o, w) && Bytes(o.logGroup)
    ensures var t := ApplyPuts(s, DrainPlan(o, w, rs, now));
            ReadListed(o, t, WindowManifest(o, w, rs, now).objects) == Some(rs)
  {
    hide Options.Legal, JobWindow, PiecePuts, PieceEntries, Pieces, ReadListed, DrainPlan;
    DrainStores(o, w, rs, now, s);
    PiecesPartition(o, rs);
    EntriesReadBack(o, ApplyPuts(s, DrainPlan(o, w, rs, now)), w, Base, Pieces(o, rs));
  }

  lemma {:induction false} InWindowAppend(a: seq<LogRecord>, b: seq<LogRecord>, w: Window)
    ensures InWindow(a + b, w) == InWindow(a, w) + InWindow(b, w)
    decreases |b|
  {
    if b == [] {
      assert a + b == a && InWindow(a, w) + [] == InWindow(a, w);
    } else {
      var n := |b| - 1;
      InWindowAppend(a, b[..n], w);
      TakeSnoc(b, n);
      TakeAll(b);
      Assoc(a, b[..n], [b[n]]);
      InWindowSnoc(a + b[..n], b[n], w);
      InWindowSnoc(b[..n], b[n], w);
      Assoc(InWindow(a, w), InWindow(b[..n], w), if w.startMs <= b[n].timestamp < w.endMs then [b[n]] else []);
    }
  }

  /** The window filter respects multisets. */
  lemma {:induction false} InWindowPermutes(a: seq<LogRecord>, b: seq<LogRecord>, w: Window)
    requires multiset(a) == multiset(b)
    ensures multiset(InWindow(a, w)) == multiset(InWindow(b, w))
    decreases |a|
  {
    assert |a| == |multiset(a)| == |multiset(b)| == |b|;
    if a == [] {
      assert b == [];
    } else {
      hide InWindow;
      var n := |a| - 1;
      var last := a[n];
      assert last in multiset(b);
      var k :| 0 <= k < |b| && b[k] == last;
      TakeSnoc(a, n);
      TakeAll(a);
      var rest := b[..k] + b[k + 1..];
      Bags.RemoveAt(b, k);
      assert multiset(a[..n]) == multiset(a) - multiset{last} == multiset(rest);
      InWindowPermutes(a[..n], rest, w);
      InWindowAppend(a[..n], [last], w);
      InWindowSplit(b, k, w);
    }
  }

  lemma InWindowSplit(b: seq<LogRecord>, k: nat, w: Window)
    requires k < |b|
    ensures multiset(InWindow(b, w)) == multiset(InWindow(b[..k] + b[k + 1..], w)) + multiset(InWindow([b[k]], w))
  {
    hide InWindow;
    assert b == b[..k] + ([b[k]] + b[k + 1..]);
    InWindowAppend(b[..k], [b[k]] + b[k + 1..], w);
    InWindowAppend([b[k]], b[k + 1..], w);
    InWindowAppend(b[..k], b[k + 1..], w);
  }

  /**
   * However a window's events are paged, unsharded or by stream shards in any
   * interleaving, the completed drain lists objects that read back as the same
   * multiset: the in-window events, given that every stream was listed.
   */
  lemma ShardedDrainArchivesSame(
    o: Options, w: Window, s: Store, events: seq<LogRecord>, streams: seq<string>, n: nat, shards: seq<seq<string>>,
    ps: seq<seq<seq<LogRecord>>>, q: seq<seq<LogRecord>>, pages: seq<seq<LogRecord>>, now: int, later: int)
    requires o.Legal() && JobWindow(o, w) && Bytes(o.logGroup)
    requires n > 0 && Shards.Distinct(streams) && forall e :: e in events ==> e.stream in streams
    requires |shards| == n && forall j :: 0 <= j < n ==> shards[j] == Shards.Shard(streams, j, n)
    requires |ps| == n
    requires forall j :: 0 <= j < n ==> multiset(Flatten(ps[j])) == multiset(Shards.Select(events, Shards.Names(shards[j])))
    requires Shards.Interleaving(q, ps)
    requires multiset(Flatten(pages)) == multiset(events)
    ensures var sharded, plain := InWindow(Flatten(q), w), InWindow(Flatten(pages), w);
            var a := ReadListed(o, ApplyPuts(s, DrainPlan(o, w, sharded, now)), WindowManifest(o, w, sharded, now).objects);
            var b := ReadListed(o, ApplyPuts(s, DrainPlan(o, w, plain, later)), WindowManifest(o, w, plain, later).objects);
            a.Some? && b.Some? && multiset(a.value) == multiset(b.value) == multiset(InWindow(events, w))
  {
    hide Options.Legal, JobWindow, DrainPlan, WindowManifest, ReadListed, ApplyPuts, InWindow;
    Shards.ShardedPagingSeesSameEvents(events, streams, n, shards, ps, q);
    InWindowPermutes(Flatten(q), events, w);
    InWindowPermutes(Flatten(pages), events, w);
    DrainReadsBack(o, w, InWindow(Flatten(q), w), now, s);
    DrainReadsBack(o, w, InWindow(Flatten(pages), w), later, s);
  }
}
