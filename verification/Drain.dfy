/**
 * Draining one window: rotate records into objects, PUT each with its
 * sidecars, then write the manifest. Every run of a window is a prefix of one
 * list of PUTs that depends only on the events, not on how they were paged.
 */
module Drain {
  import opened Common
  import opened Layout
  import opened Chunk
  import opened Windows
  import opened TsIndexFormat

  const MANIFEST_VERSION: nat := 1

  datatype ManifestObject = ManifestObject(dataKey: string, bodyLen: nat, rawBytes: Option<nat>, recordCount: nat, minTs: I64, maxTs: I64)

  datatype Manifest = Manifest(
    version: nat, account: string, logGroup: string, startMs: int, endMs: int,
    objects: seq<ManifestObject>, recordCount: nat, completedAt: int,
    reconciledAt: Option<int>, reconciledAdded: Option<nat>)

  datatype ManifestCodec = ManifestCodec(enc: Manifest -> seq<byte>, dec: seq<byte> -> Option<Manifest>)
  {
    ghost predicate Lawful() {
      forall m :: dec(enc(m)) == Some(m)
    }
  }

  /** What one drain job of one group is configured with. */
  datatype Options = Options(
    codec: Codec, man: ManifestCodec, prefix: string, account: string, logGroup: string,
    dateLabel: int -> string, utf8: string -> bool, frameTarget: nat, chunkTarget: nat, windowMs: int,
    indexBytes: EncodedChunk -> seq<byte>, decIndex: seq<byte> -> Option<seq<FrameEntry>>)
  {
    ghost predicate Legal() {
      && codec.Lawful() && man.Lawful() && (forall ch :: decIndex(indexBytes(ch)) == Some(ch.entries))
      && Bytes(logGroup) && utf8(logGroup) && '/' !in account && (forall d :: '/' !in dateLabel(d))
      && windowMs > 0 && chunkTarget > 0
    }
  }

  // ----- Manifests -----

  /** Decode and version check. */
  function FromJson(o: Options, bytes: seq<byte>): Option<Manifest> {
    match o.man.dec(bytes)
    case None => None
    case Some(m) => if m.version == MANIFEST_VERSION then Some(m) else None
  }

  /** The bytes are a manifest of exactly this account, group and window. */
  predicate CoversWindow(o: Options, bytes: seq<byte>, w: Window) {
    match FromJson(o, bytes)
    case None => false
    case Some(m) => m.account == o.account && m.logGroup == o.logGroup && m.startMs == w.startMs && m.endMs == w.endMs
  }

  // ----- The store -----

  /** An object's place: the four kinds live under different key segments or suffixes. */
  datatype Slot = DataSlot(key: string) | IndexSlot(key: string) | TsSlot(key: string) | ManifestSlot(key: string)

  type Store = map<Slot, seq<byte>>

  datatype Put = Put(slot: Slot, value: seq<byte>)

  function ApplyPuts(s: Store, ps: seq<Put>): Store {
    if ps == [] then s else ApplyPuts(s, ps[..|ps| - 1])[ps[|ps| - 1].slot := ps[|ps| - 1].value]
  }

  lemma ApplySnoc(s: Store, ps: seq<Put>, p: Put)
    ensures ApplyPuts(s, ps + [p]) == ApplyPuts(s, ps)[p.slot := p.value]
  {
    assert (ps + [p])[..|ps|] == ps;
  }

  // ----- Rotation into objects -----

  datatype Rotation = Rotation(done: seq<seq<LogRecord>>, open: seq<LogRecord>)
  {
    function All(): seq<seq<LogRecord>> {
      if open == [] then done else done + [open]
    }
  }

  function Rotate(o: Options, r: Rotation, rec: LogRecord): Rotation {
    var open := r.open + [rec];
    if |o.codec.Lines(open)| >= o.chunkTarget then Rotation(r.done + [open], []) else Rotation(r.done, open)
  }

  function RotateAll(o: Options, rs: seq<LogRecord>): Rotation {
    if rs == [] then Rotation([], []) else Rotate(o, RotateAll(o, rs[..|rs| - 1]), rs[|rs| - 1])
  }

  /** The record lists of a window's objects, in order. */
  function Pieces(o: Options, rs: seq<LogRecord>): seq<seq<LogRecord>> {
    RotateAll(o, rs).All()
  }

  lemma {:induction false} PiecesCover(o: Options, rs: seq<LogRecord>)
    ensures Flatten(RotateAll(o, rs).done) + RotateAll(o, rs).open == rs
    ensures [] !in RotateAll(o, rs).done
  {
    if rs != [] {
      var init, rec := rs[..|rs| - 1], rs[|rs| - 1];
      PiecesCover(o, init);
      var r := RotateAll(o, init);
      FlattenSnoc(r.done, r.open + [rec]);
      Assoc(Flatten(r.done), r.open, [rec]);
      assert rs == init + [rec];
    }
  }

  /** The objects hold the window's records, in order, each object non-empty. */
  lemma PiecesPartition(o: Options, rs: seq<LogRecord>)
    ensures Flatten(Pieces(o, rs)) == rs && [] !in Pieces(o, rs)
  {
    PiecesCover(o, rs);
    var r := RotateAll(o, rs);
    FlattenSnoc(r.done, r.open);
    assert Flatten(r.done) + [] == Flatten(r.done);
  }

  /**
   * Where objects end: every object but the last has reached the chunk target,
   * and none had before its last record.
   */
  lemma PiecesAreTight(o: Options, rs: seq<LogRecord>)
    ensures var ps := Pieces(o, rs);
            && (forall i :: 0 <= i < |ps| - 1 ==> |o.codec.Lines(ps[i])| >= o.chunkTarget)
            && (forall i :: 0 <= i < |ps| && |ps[i]| >= 2 ==> |o.codec.Lines(ps[i][..|ps[i]| - 1])| < o.chunkTarget)
  {
    hide Codec.Lines, RotateAll;
    RotationIsTight(o, rs);
    var r := RotateAll(o, rs);
    assert forall i :: 0 <= i < |r.All()| ==> NotBefore(o.codec, o.chunkTarget, r.All()[i]);
  }

  lemma {:induction false} RotationIsTight(o: Options, rs: seq<LogRecord>)
    ensures Tight(o.codec, o.chunkTarget, RotateAll(o, rs).done, RotateAll(o, rs).open)
  {
    if rs != [] {
      hide Codec.Lines, Tight;
      RotationIsTight(o, rs[..|rs| - 1]);
      var r := RotateAll(o, rs[..|rs| - 1]);
      TightStep(o.codec, o.chunkTarget, r.done, r.open, rs[|rs| - 1]);
    }
  }

  // ----- Objects and their PUTs -----

  function ObjKey(o: Options, w: Window, naming: ObjectNaming, n: nat): string
    requires Bytes(o.logGroup)
  {
    DataKey(o.prefix, ChunkLocation(o.account, o.logGroup, o.dateLabel(Day(w.startMs)), ObjectName(w.startMs, naming, n)))
  }

  function ManKey(o: Options, w: Window): string
    requires Bytes(o.logGroup)
  {
    ManifestKey(o.prefix, o.account, o.logGroup, w.startMs, w.endMs)
  }

  function ChunkFor(o: Options, piece: seq<LogRecord>): Option<EncodedChunk> {
    Encode(o.codec, PushAll(o.codec, NewWriter(o.frameTarget), piece))
  }

  /** Data first, then the two sidecars. */
  function ObjectPuts(o: Options, key: string, ch: EncodedChunk): seq<Put> {
    [Put(DataSlot(key), ch.body), Put(IndexSlot(key), o.indexBytes(ch)), Put(TsSlot(key), EncodeTsIndex(ch.tsEntries))]
  }

  function ObjectEntry(key: string, ch: EncodedChunk): ManifestObject {
    ManifestObject(key, |ch.body|, Some(ch.uncompressedBytes), ch.recordCount, ch.minTimestamp, ch.maxTimestamp)
  }

  function PiecePuts(o: Options, w: Window, naming: ObjectNaming, pieces: seq<seq<LogRecord>>): seq<Put>
    requires Bytes(o.logGroup)
  {
    if pieces == [] then []
    else
      var n := |pieces| - 1;
      PiecePuts(o, w, naming, pieces[..n]) +
      (match ChunkFor(o, pieces[n]) case None => [] case Some(ch) => ObjectPuts(o, ObjKey(o, w, naming, n), ch))
  }

  function PieceEntries(o: Options, w: Window, naming: ObjectNaming, pieces: seq<seq<LogRecord>>): seq<ManifestObject>
    requires Bytes(o.logGroup)
  {
    if pieces == [] then []
    else
      var n := |pieces| - 1;
      PieceEntries(o, w, naming, pieces[..n]) +
      (match ChunkFor(o, pieces[n]) case None => [] case Some(ch) => [ObjectEntry(ObjKey(o, w, naming, n), ch)])
  }

  function TotalRecords(es: seq<ManifestObject>): nat {
    if es == [] then 0 else TotalRecords(es[..|es| - 1]) + es[|es| - 1].recordCount
  }

  lemma {:induction false} TotalAppend(a: seq<ManifestObject>, b: seq<ManifestObject>)
    ensures TotalRecords(a + b) == TotalRecords(a) + TotalRecords(b)
    decreases |b|
  {
    if b == [] {
      assert a + b == a;
    } else {
      TotalAppend(a, b[..|b| - 1]);
      assert (a + b)[..|a + b| - 1] == a + b[..|b| - 1];
    }
  }

  function WindowManifest(o: Options, w: Window, rs: seq<LogRecord>, completedAt: int): Manifest
    requires Bytes(o.logGroup)
  {
    var es := PieceEntries(o, w, Base, Pieces(o, rs));
    Manifest(MANIFEST_VERSION, o.account, o.logGroup, w.startMs, w.endMs, es, TotalRecords(es), completedAt, None, None)
  }

  /** The PUTs of a complete drain of a window, in order; the manifest is last. */
  function DrainPlan(o: Options, w: Window, rs: seq<LogRecord>, completedAt: int): seq<Put>
    requires Bytes(o.logGroup)
  {
    PiecePuts(o, w, Base, Pieces(o, rs)) + [Put(ManifestSlot(ManKey(o, w)), o.man.enc(WindowManifest(o, w, rs, completedAt)))]
  }

  predicate Covered(o: Options, s: Store, w: Window)
    requires Bytes(o.logGroup)
  {
    ManifestSlot(ManKey(o, w)) in s && CoversWindow(o, s[ManifestSlot(ManKey(o, w))], w)
  }

  function InWindow(es: seq<LogRecord>, w: Window): seq<LogRecord> {
    if es == [] then []
    else InWindow(es[..|es| - 1], w) + (if w.startMs <= es[|es| - 1].timestamp < w.endMs then [es[|es| - 1]] else [])
  }

  /** Exactly the events of the half-open window, each as often as it was returned. */
  lemma {:induction false} InWindowCounts(es: seq<LogRecord>, w: Window, r: LogRecord)
    ensures multiset(InWindow(es, w))[r] == if w.startMs <= r.timestamp < w.endMs then multiset(es)[r] else 0
  {
    if es != [] {
      var n := |es| - 1;
      InWindowCounts(es[..n], w, r);
      TakeSnoc(es, n);
      TakeAll(es);
    }
  }

  // ----- The window writer -----

  /** Chunk pipeline of one window: one open chunk, finished objects and their manifest entries, PUTs to the store. */
  class WindowWriter {
    const o: Options
    const w: Window
    const naming: ObjectNaming
    var open: seq<LogRecord>
    var seqNo: nat
    var objects: seq<ManifestObject>
    var records: nat
    var store: Store
    /** How many more PUTs will succeed. */
    var budget: nat
    ghost var pushed: seq<LogRecord>
    ghost const base: Store
    ghost const allowed: nat

    /** PUTs issued for the finished pieces. */
    ghost function Issued(): seq<Put>
      reads this
      requires Bytes(o.logGroup)
    {
      PiecePuts(o, w, naming, RotateAll(o, pushed).done)
    }

    ghost predicate Valid()
      reads this
    {
      && Bytes(o.logGroup)
      && open == RotateAll(o, pushed).open && seqNo == |RotateAll(o, pushed).done|
      && objects == PieceEntries(o, w, naming, RotateAll(o, pushed).done)
      && records == TotalRecords(objects)
      && store == ApplyPuts(base, Issued())
      && budget + |Issued()| == allowed
    }

    /** The store after a prefix of the PUTs of some extension of the pieces: the window's run has stopped. */
    ghost predicate Stopped(pieces: seq<seq<LogRecord>>)
      reads this
    {
      && Bytes(o.logGroup)
      && allowed < |PiecePuts(o, w, naming, pieces)|
      && store == ApplyPuts(base, PiecePuts(o, w, naming, pieces)[..allowed])
    }

    constructor (opts: Options, win: Window, name: ObjectNaming, s: Store, puts: nat)
      requires Bytes(opts.logGroup)
      ensures o == opts && w == win && naming == name && pushed == [] && base == s && allowed == puts && Valid()
    {
      o, w, naming := opts, win, name;
      open, seqNo, objects, records := [], 0, [], 0;
      store, budget := s, puts;
      pushed, base, allowed := [], s, puts;
    }

    /** Issue PUTs in order until one fails. */
    method PutAll(puts: seq<Put>, ghost before: seq<Put>) returns (ok: bool)
      requires store == ApplyPuts(base, before) && budget + |before| == allowed
      modifies this`store, this`budget
      ensures ok ==> store == ApplyPuts(base, before + puts) && budget + |before + puts| == allowed
      ensures !ok ==> allowed < |before + puts| && store == ApplyPuts(base, (before + puts)[..allowed])
    {
      var i := 0;
      TakeAll(puts);
      assert before + [] == before;
      while i < |puts|
        invariant 0 <= i <= |puts| && budget + |before| + i == allowed
        invariant store == ApplyPuts(base, before + puts[..i])
      {
        if budget == 0 {
          PrefixOfMore(before, puts, i);
          return false;
        }
        TakeSnoc(puts, i);
        ApplySnoc(base, before + puts[..i], puts[i]);
        Assoc(before, puts[..i], [puts[i]]);
        store := store[puts[i].slot := puts[i].value];
        budget := budget - 1;
        i := i + 1;
      }
      return true;
    }

    /** PUT one finished chunk: data, index, timestamp index; stops at the first failure. */
    method Flush(piece: seq<LogRecord>, ghost done: seq<seq<LogRecord>>) returns (ok: bool)
      requires Bytes(o.logGroup) && piece != [] && seqNo == |done|
      requires objects == PieceEntries(o, w, naming, done) && records == TotalRecords(objects)
      requires store == ApplyPuts(base, PiecePuts(o, w, naming, done)) && budget + |PiecePuts(o, w, naming, done)| == allowed
      modifies this`seqNo, this`objects, this`records, this`store, this`budget
      ensures ok ==> seqNo == |done + [piece]| && objects == PieceEntries(o, w, naming, done + [piece])
      ensures ok ==> records == TotalRecords(objects)
      ensures ok ==> store == ApplyPuts(base, PiecePuts(o, w, naming, done + [piece]))
      ensures ok ==> budget + |PiecePuts(o, w, naming, done + [piece])| == allowed
      ensures !ok ==> Stopped(done + [piece])
    {
      hide ChunkFor, ObjKey, PiecePuts, PieceEntries, ObjectPuts, ObjectEntry, TotalRecords, ApplyPuts;
      ChunkPresent(o, piece);
      var chunk := ChunkFor(o, piece);
      var key := ObjKey(o, w, naming, seqNo);
      var puts := ObjectPuts(o, key, chunk.value);
      ghost var before := PiecePuts(o, w, naming, done);
      PieceSnoc(o, w, naming, done, piece, chunk.value);
      var stored := PutAll(puts, before);
      if !stored {
        return false;
      }
      TotalAppend(objects, [ObjectEntry(key, chunk.value)]);
      SingleTotal(ObjectEntry(key, chunk.value));
      EntryCount(key, chunk.value);
      objects := objects + [ObjectEntry(key, chunk.value)];
      records := records + chunk.value.recordCount;
      seqNo := seqNo + 1;
      return true;
    }

    /** Push one record; rotate when the open chunk reaches its target. */
    method PushRecord(rec: LogRecord) returns (ok: bool)
      requires Valid()
      modifies this`open, this`seqNo, this`objects, this`records, this`store, this`budget, this`pushed
      ensures pushed == old(pushed) + [rec]
      ensures ok ==> Valid()
      ensures !ok ==> Stopped(RotateAll(o, pushed).done)
    {
      hide PiecePuts, PieceEntries;
      RotateSnoc(o, pushed, rec);
      ghost var done := RotateAll(o, pushed).done;
      pushed := pushed + [rec];
      open := open + [rec];
      if |o.codec.Lines(open)| >= o.chunkTarget {
        var full := open;
        open := [];
        ok := Flush(full, done);
        return ok;
      }
      return true;
    }

    /** Flush the pending partial chunk. */
    method Finish() returns (ok: bool)
      requires Valid()
      modifies this`open, this`seqNo, this`objects, this`records, this`store, this`budget
      ensures ok ==> objects == PieceEntries(o, w, naming, Pieces(o, pushed))
      ensures ok ==> records == TotalRecords(objects)
      ensures ok ==> store == ApplyPuts(base, PiecePuts(o, w, naming, Pieces(o, pushed)))
      ensures ok ==> budget + |PiecePuts(o, w, naming, Pieces(o, pushed))| == allowed
      ensures !ok ==> Stopped(Pieces(o, pushed))
    {
      hide PiecePuts, PieceEntries;
      if open == [] {
        return true;
      }
      var last := open;
      open := [];
      ok := Flush(last, RotateAll(o, pushed).done);
    }
  }

  lemma ChunkPresent(o: Options, piece: seq<LogRecord>)
    requires piece != []
    ensures ChunkFor(o, piece).Some?
  {
    EncodeShape(o.codec, o.frameTarget, piece);
  }

  lemma PieceSnoc(o: Options, w: Window, naming: ObjectNaming, done: seq<seq<LogRecord>>, piece: seq<LogRecord>, ch: EncodedChunk)
    requires Bytes(o.logGroup) && ChunkFor(o, piece) == Some(ch)
    ensures var key := ObjKey(o, w, naming, |done|);
            && PiecePuts(o, w, naming, done + [piece]) == PiecePuts(o, w, naming, done) + ObjectPuts(o, key, ch)
            && PieceEntries(o, w, naming, done + [piece]) == PieceEntries(o, w, naming, done) + [ObjectEntry(key, ch)]
  {
    hide ChunkFor, ObjKey;
    assert (done + [piece])[..|done|] == done && (done + [piece])[|done|] == piece;
  }

  lemma EntryCount(key: string, ch: EncodedChunk)
    ensures ObjectEntry(key, ch).recordCount == ch.recordCount
  {
  }

  lemma SingleTotal(e: ManifestObject)
    ensures TotalRecords([e]) == e.recordCount
  {
    assert [e][..0] == [];
  }

  lemma PrefixOfMore(before: seq<Put>, puts: seq<Put>, i: nat)
    requires i < |puts|
    ensures (before + puts)[..|before| + i] == before + puts[..i]
  {
  }

  lemma RotateSnoc(o: Options, rs: seq<LogRecord>, rec: LogRecord)
    ensures RotateAll(o, rs + [rec]) == Rotate(o, RotateAll(o, rs), rec)
  {
    assert (rs + [rec])[..|rs|] == rs;
  }

  lemma InWindowSnoc(es: seq<LogRecord>, e: LogRecord, w: Window)
    ensures InWindow(es + [e], w) == InWindow(es, w) + (if w.startMs <= e.timestamp < w.endMs then [e] else [])
  {
    assert (es + [e])[..|es|] == es;
  }

  /** PUTs of finished pieces only grow as records are added. */
  lemma {:induction false} DoneGrows(o: Options, w: Window, naming: ObjectNaming, rs: seq<LogRecord>, more: seq<LogRecord>)
    requires Bytes(o.logGroup)
    ensures RotateAll(o, rs).done <= RotateAll(o, rs + more).done
    decreases |more|
  {
    if more == [] {
      assert rs + more == rs;
    } else {
      var init, rec := more[..|more| - 1], more[|more| - 1];
      DoneGrows(o, w, naming, rs, init);
      assert more == init + [rec];
      Assoc(rs, init, [rec]);
      RotateSnoc(o, rs + init, rec);
    }
  }

  lemma {:induction false} PutsGrow(o: Options, w: Window, naming: ObjectNaming, a: seq<seq<LogRecord>>, b: seq<seq<LogRecord>>)
    requires Bytes(o.logGroup) && a <= b
    ensures PiecePuts(o, w, naming, a) <= PiecePuts(o, w, naming, b)
    decreases |b|
  {
    hide ChunkFor, ObjKey;
    if |a| == |b| {
      assert a == b;
    } else {
      PutsGrow(o, w, naming, a, b[..|b| - 1]);
    }
  }

  /** Push the in-window events of one page; j tells the event at which a PUT failed. */
  method PushPage(ww: WindowWriter, page: seq<LogRecord>, ghost before: seq<LogRecord>) returns (ok: bool, ghost j: nat)
    requires ww.Valid() && ww.pushed == InWindow(before, ww.w)
    modifies ww
    ensures ok ==> ww.Valid() && ww.pushed == InWindow(before + page, ww.w)
    ensures !ok ==> j < |page| && ww.Stopped(RotateAll(ww.o, InWindow(before + page[..j + 1], ww.w)).done)
  {
    hide PiecePuts, PieceEntries, RotateAll;
    var k := 0;
    TakeAll(page);
    assert before + [] == before;
    while k < |page|
      invariant 0 <= k <= |page| && ww.Valid() && ww.pushed == InWindow(before + page[..k], ww.w)
    {
      var ev := page[k];
      TakeSnoc(page, k);
      Assoc(before, page[..k], [ev]);
      InWindowSnoc(before + page[..k], ev, ww.w);
      if ww.w.startMs <= ev.timestamp < ww.w.endMs {
        ok := ww.PushRecord(ev);
        if !ok {
          return false, k;
        }
      }
      k := k + 1;
    }
    return true, 0;
  }

  datatype Outcome = Skipped | Completed | Interrupted

  /**
   * Drain one window over whatever pages CloudWatch cuts, with only the first
   * allowed PUTs succeeding; fetched is false when paging fails after these
   * pages, before the rest. A covered window is left alone; otherwise the store
   * receives exactly a prefix of the window's plan, the whole of it precisely
   * when the run completes. The pages matter only through their concatenation.
   */
  method ProcessWindow(o: Options, w: Window, pages: seq<seq<LogRecord>>, fetched: bool, ghost rest: seq<seq<LogRecord>>, s: Store, allowed: nat, now: int)
    returns (t: Store, out: Outcome, ghost done: nat)
    requires Bytes(o.logGroup) && (fetched ==> rest == [])
    ensures out.Skipped? <==> Covered(o, s, w)
    ensures out.Skipped? ==> t == s
    ensures var plan := DrainPlan(o, w, InWindow(Flatten(pages) + Flatten(rest), w), now);
            && (out.Completed? ==> fetched && allowed >= |plan| && t == ApplyPuts(s, plan))
            && (out.Interrupted? ==> done < |plan| && done <= allowed && t == ApplyPuts(s, plan[..done]) && (fetched ==> done == allowed))
  {
    hide PiecePuts, PieceEntries, ManKey, RotateAll, DrainPlan, InWindow;
    done := 0;
    if Covered(o, s, w) {
      return s, Skipped, 0;
    }
    var ww := new WindowWriter(o, w, Base, s, allowed);
    var i := 0;
    NothingInWindow(w);
    assert pages[..0] == [];
    while i < |pages|
      invariant 0 <= i <= |pages| && fresh(ww) && ww.o == o && ww.w == w && ww.naming == Base && ww.base == s && ww.allowed == allowed
      invariant ww.Valid() && ww.pushed == InWindow(Flatten(pages[..i]), w)
    {
      TakeSnoc(pages, i);
      FlattenSnoc(pages[..i], pages[i]);
      var ok, j := PushPage(ww, pages[i], Flatten(pages[..i]));
      if !ok {
        StoppedEarly(o, w, pages, i, j, Flatten(rest), now, allowed);
        return ww.store, Interrupted, allowed;
      }
      i := i + 1;
    }
    TakeAll(pages);
    if !fetched {
      IssuedIsPrefix(o, w, Flatten(pages), Flatten(rest), now);
      return ww.store, Interrupted, |ww.Issued()|;
    }
    assert Flatten(pages) + [] == Flatten(pages);
    t, out := FinishDrain(ww, Flatten(pages), now);
    done := allowed;
  }

  /** Store what is still open, then the manifest. */
  method FinishDrain(ww: WindowWriter, ghost events: seq<LogRecord>, now: int) returns (t: Store, out: Outcome)
    requires ww.Valid() && ww.pushed == InWindow(events, ww.w) && ww.naming == Base
    modifies ww
    ensures var plan := DrainPlan(ww.o, ww.w, InWindow(events, ww.w), now);
            && (out.Completed? ==> ww.allowed >= |plan| && t == ApplyPuts(ww.base, plan))
            && (out.Interrupted? ==> ww.allowed < |plan| && t == ApplyPuts(ww.base, plan[..ww.allowed]))
    ensures !out.Skipped?
  {
    hide PiecePuts, PieceEntries, ManKey, RotateAll, InWindow;
    var o, w := ww.o, ww.w;
    ghost var all := InWindow(events, w);
    ghost var puts := PiecePuts(o, w, Base, Pieces(o, all));
    var ok := ww.Finish();
    if !ok {
      PrefixOfPlan(o, w, all, now, puts, ww.allowed);
      return ww.store, Interrupted;
    }
    var manifest := Manifest(MANIFEST_VERSION, o.account, o.logGroup, w.startMs, w.endMs, ww.objects, ww.records, now, None, None);
    if ww.budget == 0 {
      assert DrainPlan(o, w, all, now)[..|puts|] == puts;
      return ww.store, Interrupted;
    }
    assert manifest == WindowManifest(o, w, all, now);
    ApplySnoc(ww.base, puts, Put(ManifestSlot(ManKey(o, w)), o.man.enc(manifest)));
    return ww.store[ManifestSlot(ManKey(o, w)) := o.man.enc(manifest)], Completed;
  }

  /** The PUTs issued for a first part of the events are a proper prefix of the plan for all of them. */
  lemma IssuedIsPrefix(o: Options, w: Window, a: seq<LogRecord>, b: seq<LogRecord>, now: int)
    requires Bytes(o.logGroup)
    ensures var puts, plan := PiecePuts(o, w, Base, RotateAll(o, InWindow(a, w)).done), DrainPlan(o, w, InWindow(a + b, w), now);
            |puts| < |plan| && puts == plan[..|puts|]
  {
    hide PiecePuts, InWindow, RotateAll, WindowManifest;
    var more := InWindowPrefix(a, b, w);
    var all := InWindow(a + b, w);
    DoneGrows(o, w, Base, InWindow(a, w), more);
    var done := RotateAll(o, InWindow(a, w)).done;
    assert RotateAll(o, all).done <= Pieces(o, all);
    PutsGrow(o, w, Base, done, Pieces(o, all));
  }

  lemma NothingInWindow(w: Window)
    ensures InWindow([], w) == [] && Flatten<LogRecord>([]) == []
  {
  }

  lemma PrefixOfPlan(o: Options, w: Window, rs: seq<LogRecord>, now: int, puts: seq<Put>, n: nat)
    requires Bytes(o.logGroup) && puts <= PiecePuts(o, w, Base, Pieces(o, rs)) && n < |puts|
    ensures var plan := DrainPlan(o, w, rs, now);
            n < |plan| && plan[..n] == puts[..n]
  {
    hide PiecePuts, Pieces, WindowManifest;
  }

  lemma {:induction false} InWindowPrefix(a: seq<LogRecord>, b: seq<LogRecord>, w: Window) returns (more: seq<LogRecord>)
    ensures InWindow(a + b, w) == InWindow(a, w) + more
    decreases |b|
  {
    if b == [] {
      assert a + b == a;
      more := [];
      assert InWindow(a, w) + [] == InWindow(a, w);
    } else {
      var init, e := b[..|b| - 1], b[|b| - 1];
      var m := InWindowPrefix(a, init, w);
      assert b == init + [e];
      Assoc(a, init, [e]);
      InWindowSnoc(a + init, e, w);
      more := m + (if w.startMs <= e.timestamp < w.endMs then [e] else []);
      Assoc(InWindow(a, w), m, if w.startMs <= e.timestamp < w.endMs then [e] else []);
    }
  }

  lemma StoppedEarly(o: Options, w: Window, pages: seq<seq<LogRecord>>, i: nat, j: nat, rest: seq<LogRecord>, now: int, allowed: nat)
    requires Bytes(o.logGroup) && i < |pages| && j < |pages[i]|
    requires allowed < |PiecePuts(o, w, Base, RotateAll(o, InWindow(Flatten(pages[..i]) + pages[i][..j + 1], w)).done)|
    ensures var plan := DrainPlan(o, w, InWindow(Flatten(pages) + rest, w), now);
            var puts := PiecePuts(o, w, Base, RotateAll(o, InWindow(Flatten(pages[..i]) + pages[i][..j + 1], w)).done);
            allowed < |plan| && plan[..allowed] == puts[..allowed]
  {
    hide PiecePuts, InWindow, RotateAll, DrainPlan;
    var seen, unseen := Flatten(pages[..i]) + pages[i][..j + 1], pages[i][j + 1..] + Flatten(pages[i + 1..]);
    PagesSplit(pages, i, j);
    Assoc(seen, unseen, rest);
    IssuedIsPrefix(o, w, seen, unseen + rest, now);
  }

  lemma PagesSplit(pages: seq<seq<LogRecord>>, i: nat, j: nat)
    requires i < |pages| && j < |pages[i]|
    ensures Flatten(pages) == Flatten(pages[..i]) + pages[i][..j + 1] + (pages[i][j + 1..] + Flatten(pages[i + 1..]))
  {
    assert pages == pages[..i] + ([pages[i]] + pages[i + 1..]);
    FlattenAppend(pages[..i], [pages[i]] + pages[i + 1..]);
    assert ([pages[i]] + pages[i + 1..])[1..] == pages[i + 1..];
    assert pages[i] == pages[i][..j + 1] + pages[i][j + 1..];
    Assoc(Flatten(pages[..i]), pages[i][..j + 1], pages[i][j + 1..] + Flatten(pages[i + 1..]));
    Assoc(pages[i][..j + 1], pages[i][j + 1..], Flatten(pages[i + 1..]));
  }
}
