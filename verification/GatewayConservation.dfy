/**
 * Write-ahead log off: no record is created or destroyed by flushing, failing,
 * reinserting and merging; only a merge of a buffer above the decompression
 * ceiling drops anything, and that is counted.
 */
module GatewayConservation {
  import opened Common
  import opened Chunk
  import opened Bags
  import opened Gateway

  /** A buffer's own chunk decodes to the buffer's records, up to the decompression ceiling. */
  lemma ReadBackExact(cfg: Config, b: Buf)
    requires cfg.codec.Lawful() && b.records != []
    ensures ChunkOf(cfg, b).Some?
    ensures ReadBack(cfg.codec, ChunkOf(cfg, b).value) ==
            if BufLen(cfg, b) <= MAX_DECOMPRESSED_BYTES then Some(b.records) else None
  {
    hide PushAll, Encode, FramesOf;
    var c := cfg.codec;
    ChunkRoundTrip(c, cfg.frameTarget, b.records);
    EncodeShape(c, cfg.frameTarget, b.records);
    var ch := ChunkOf(cfg, b).value;
    DecompressExact(c, ch.body, ch.uncompressedBytes);
    DecodedIntact(b.records);
  }

  /**
   * Reinserting a failed flush keeps every record exactly when it does not
   * have to merge a buffer that was not encoded or is larger than the
   * decompression ceiling; otherwise exactly that buffer is lost.
   */
  lemma ReinsertConserves(cfg: Config, m: Mem, key: BufKey, b: Buf, encoded: bool)
    requires cfg.codec.Lawful() && b.records != [] && b.seg.None?
    ensures Live(Reinsert(cfg, m, key, b, encoded).buffers) ==
            Live(m.buffers) + (if MergeLoses(cfg, m, key, b, encoded) then multiset{} else BufBag(key, b))
  {
    ReinsertAt(cfg, m, key, b, encoded);
    hide Reinsert, MergeLoses, BufBag;
    var n := Reinsert(cfg, m, key, b, encoded);
    SumSet(m.buffers, BufBag, key, n.buffers[key]);
  }

  /** Only the buffer of that key changes, by the records that come back. */
  lemma ReinsertAt(cfg: Config, m: Mem, key: BufKey, b: Buf, encoded: bool)
    requires cfg.codec.Lawful() && b.records != [] && b.seg.None?
    ensures var n := Reinsert(cfg, m, key, b, encoded);
            && key in n.buffers && n.buffers == m.buffers[key := n.buffers[key]]
            && BufBag(key, n.buffers[key]) ==
               (if key in m.buffers then BufBag(key, m.buffers[key]) else multiset{})
               + (if MergeLoses(cfg, m, key, b, encoded) then multiset{} else BufBag(key, b))
  {
    ReadBackExact(cfg, b);
    hide ChunkOf, BufLen, ReadBack, EntriesOf, Codec.Lawful;
    if key in m.buffers {
      EntriesAppend(key.group, m.buffers[key].records, b.records);
    }
  }

  // ----- No segments exist -----

  ghost predicate Segmentless(b: map<BufKey, Buf>) {
    forall k :: k in b ==> b[k].seg.None?
  }

  ghost predicate NoSegments(s: State) {
    && s.mem.disk == map[] && Segmentless(s.mem.buffers)
    && TasksSegmentless(s.inflight)
  }

  lemma PushOneSegmentless(cfg: Config, m: Mem, group: string, r: LogRecord, now: int, io: Io)
    requires !cfg.wal && Segmentless(m.buffers)
    ensures var p := PushOne(cfg, m, group, r, now, io);
            Segmentless(p.mem.buffers) && p.mem.disk == m.disk
  {
  }

  lemma {:induction false} PushBatchSegmentless(cfg: Config, m: Mem, group: string, rs: seq<LogRecord>, now: int, ios: seq<Io>)
    requires !cfg.wal && Segmentless(m.buffers)
    ensures var p := PushBatch(cfg, m, group, rs, now, ios);
            Segmentless(p.mem.buffers) && p.mem.disk == m.disk
    decreases |rs|
  {
    hide PushOne;
    if rs != [] {
      var io := if ios == [] then Fine else ios[0];
      PushOneSegmentless(cfg, m, group, rs[0], now, io);
      PushBatchSegmentless(cfg, PushOne(cfg, m, group, rs[0], now, io).mem, group, rs[1..], now,
                           if ios == [] then [] else ios[1..]);
    }
  }

  lemma {:induction false} TakeSegmentless(b: map<BufKey, Buf>, keys: seq<BufKey>)
    requires Segmentless(b)
    ensures var t := TakeKeys(b, keys);
            Segmentless(t.0) && TasksSegmentless(t.1)
    decreases |keys|
  {
    if keys != [] {
      if keys[0] in b {
        TakeSegmentless(b - {keys[0]}, keys[1..]);
      } else {
        TakeSegmentless(b, keys[1..]);
      }
    }
  }

  // ----- The account -----

  /** Everything ever appended is stored, live, in flight, or counted as dropped. */
  ghost predicate Conserved(s: State) {
    s.appended == s.put + Live(s.mem.buffers) + Unstored(s.inflight) + s.dropped
  }

  ghost predicate Inv(s: State) {
    NoSegments(s) && Conserved(s) && (s.mode.Replaying? ==> s.mode.todo == [])
  }

  lemma TakeKeepsAccount(s: State, due: seq<BufKey>)
    requires NoSegments(s) && Conserved(s)
    ensures var t := TakeKeys(s.mem.buffers, due);
            var n := s.(mem := s.mem.(buffers := t.0), inflight := s.inflight + t.1);
            NoSegments(n) && Conserved(n)
  {
    hide TakeKeys, Live, Unstored;
    TakeConserves(s.mem.buffers, due);
    TakeSegmentless(s.mem.buffers, due);
    TasksAppend(s.inflight, TakeKeys(s.mem.buffers, due).1);
  }

  lemma SyncNothing(m: Mem, ids: set<nat>)
    requires m.disk == map[] && Segmentless(m.buffers)
    ensures SyncSegments(m, ids) == m && AllSynced(m)
  {
    assert SyncSegments(m, ids).disk == map[];
  }

  lemma PushKeepsAccount(cfg: Config, s: State, l: Label)
    requires !cfg.wal && Inv(s) && l.Push? && Enabled(cfg, s, l)
    ensures Inv(Apply(cfg, s, l))
  {
    hide PushBatch, Live, Unstored, TakeKeys, Prefix, SyncSegments, AllSynced, EntriesOf;
    var p := PushBatch(cfg, s.mem, l.group, l.recs, l.now, l.ios);
    PushBatchSegmentless(cfg, s.mem, l.group, l.recs, l.now, l.ios);
    PushBatchLive(cfg, s.mem, l.group, l.recs, l.now, l.ios);
    PrefixWhole(l.group, l.recs);
    SyncNothing(p.mem, l.synced);
    if p.ok {
      var batch := multiset(EntriesOf(l.group, l.recs));
      TakeKeepsAccount(s.(mem := p.mem, appended := s.appended + batch, acked := s.acked + batch), l.due);
    }
  }

  ghost predicate TasksSegmentless(ts: seq<Task>) {
    forall i :: 0 <= i < |ts| ==> ts[i].buf.seg.None?
  }

  lemma WithoutSegmentless(ts: seq<Task>, i: nat)
    requires TasksSegmentless(ts) && i < |ts|
    ensures TasksSegmentless(Without(ts, i)) && TasksSegmentless(ts[i := ts[i].(stored := true)])
  {
  }

  lemma PutOkKeepsAccount(cfg: Config, s: State, l: Label)
    requires !cfg.wal && Inv(s) && Enabled(cfg, s, l) && l.PutOk?
    ensures Inv(Apply(cfg, s, l))
  {
    hide Live, Unstored, TaskBag, TasksSegmentless;
    StoreTask(s.inflight, l.task);
    WithoutSegmentless(s.inflight, l.task);
  }

  lemma FlushFailedKeepsAccount(cfg: Config, s: State, l: Label)
    requires !cfg.wal && cfg.codec.Lawful() && Inv(s) && Enabled(cfg, s, l) && l.FlushFailed?
    ensures Inv(Apply(cfg, s, l))
  {
    hide Live, Unstored, BufBag, Reinsert, MergeLoses, TasksSegmentless, Segmentless, Without;
    var t := s.inflight[l.task];
    TaskSegmentless(s.inflight, l.task);
    RemoveTask(s.inflight, l.task);
    WithoutSegmentless(s.inflight, l.task);
    ReinsertConserves(cfg, s.mem, t.key, t.buf, l.encoded);
    ReinsertSegmentless(cfg, s.mem, t.key, t.buf, l.encoded);
  }

  lemma TaskSegmentless(ts: seq<Task>, i: nat)
    requires TasksSegmentless(ts) && i < |ts|
    ensures ts[i].buf.seg.None?
  {
  }

  lemma ReinsertSegmentless(cfg: Config, m: Mem, key: BufKey, b: Buf, encoded: bool)
    requires Segmentless(m.buffers) && b.seg.None?
    ensures Segmentless(Reinsert(cfg, m, key, b, encoded).buffers) && Reinsert(cfg, m, key, b, encoded).disk == m.disk
  {
    hide ChunkOf, ReadBack;
  }

  lemma RetireKeepsAccount(cfg: Config, s: State, l: Label)
    requires !cfg.wal && Inv(s) && l.Retire? && Enabled(cfg, s, l)
    ensures Inv(Apply(cfg, s, l))
  {
    hide Live, Unstored, TasksSegmentless, Segmentless, Without;
    RemoveTask(s.inflight, l.task);
    WithoutSegmentless(s.inflight, l.task);
    TaskSegmentless(s.inflight, l.task);
    assert s.inflight[l.task].buf.records == [] ==> Pending(s.inflight[l.task]) == multiset{};
  }

  /** Every step but a crash keeps the account. */
  lemma StepKeepsAccount(cfg: Config, s: State, l: Label)
    requires !cfg.wal && cfg.codec.Lawful() && Inv(s) && Enabled(cfg, s, l) && !l.Crash?
    ensures Inv(Apply(cfg, s, l))
  {
    if l.Push? {
      PushKeepsAccount(cfg, s, l);
    } else if l.PutOk? {
      PutOkKeepsAccount(cfg, s, l);
    } else if l.FlushFailed? {
      FlushFailedKeepsAccount(cfg, s, l);
    } else if l.Retire? {
      RetireKeepsAccount(cfg, s, l);
    } else {
      QuietStepKeepsAccount(cfg, s, l);
    }
  }

  lemma QuietStepKeepsAccount(cfg: Config, s: State, l: Label)
    requires !cfg.wal && Inv(s) && Enabled(cfg, s, l)
    requires !l.Crash? && !l.Push? && !l.PutOk? && !l.FlushFailed? && !l.Retire?
    ensures Inv(Apply(cfg, s, l))
  {
    hide Live, Unstored, TakeKeys;
    match l {
      case Take(due) => TakeKeepsAccount(s, due);
      case ReplayDone(due) => TakeKeepsAccount(s, due);
      case Boot(todo) => assert |multiset(todo)| == 0;
      case ReplaySync(ids) => SyncNothing(s.mem, ids);
      case ReplayDelete(_) =>
      case ReplayOne(_, _) =>
    }
  }

  lemma {:induction false} RunKeepsAccount(cfg: Config, ls: seq<Label>)
    requires !cfg.wal && cfg.codec.Lawful() && After(cfg, ls).Some?
    requires forall i :: 0 <= i < |ls| ==> !ls[i].Crash?
    ensures Inv(After(cfg, ls).value)
  {
    hide Inv, Enabled, Apply;
    if ls == [] {
      InitAccount();
    } else {
      RunKeepsAccount(cfg, ls[..|ls| - 1]);
      StepKeepsAccount(cfg, After(cfg, ls[..|ls| - 1]).value, ls[|ls| - 1]);
    }
  }

  lemma InitAccount()
    ensures Inv(Init())
  {
  }

  /** No merge of the run met a buffer that was not encoded or is above the decompression ceiling. */
  ghost predicate NoLosingMerge(cfg: Config, ls: seq<Label>) {
    forall i :: 0 <= i < |ls| && ls[i].FlushFailed? && After(cfg, ls[..i]).Some? && Enabled(cfg, After(cfg, ls[..i]).value, ls[i]) ==>
      var s := After(cfg, ls[..i]).value;
      !MergeLoses(cfg, s.mem, s.inflight[ls[i].task].key, s.inflight[ls[i].task].buf, ls[i].encoded)
  }

  lemma {:induction false} NothingDropped(cfg: Config, ls: seq<Label>)
    requires After(cfg, ls).Some? && NoLosingMerge(cfg, ls)
    ensures After(cfg, ls).value.dropped == multiset{}
  {
    if ls != [] {
      var n := |ls| - 1;
      var init := ls[..n];
      assert forall i :: 0 <= i < n ==> ls[..i] == init[..i] && ls[i] == init[i];
      NothingDropped(cfg, init);
      DropsOnlyByMerge(cfg, After(cfg, init).value, ls[n]);
    }
  }

  lemma DropsOnlyByMerge(cfg: Config, s: State, l: Label)
    requires Enabled(cfg, s, l)
    requires l.FlushFailed? ==> !MergeLoses(cfg, s.mem, s.inflight[l.task].key, s.inflight[l.task].buf, l.encoded)
    ensures Apply(cfg, s, l).dropped == s.dropped
  {
    hide PushBatch, TakeKeys, Reinsert, SyncSegments, AllSynced;
  }

  /**
   * Conservation over every crash-free run; and once shutdown has flushed
   * everything, each appended record is in the stored chunks exactly once.
   */
  lemma RecordsConserved(cfg: Config, ls: seq<Label>)
    requires !cfg.wal && cfg.codec.Lawful() && After(cfg, ls).Some?
    requires forall i :: 0 <= i < |ls| ==> !ls[i].Crash?
    ensures var s := After(cfg, ls).value;
            && s.appended == s.put + Live(s.mem.buffers) + Unstored(s.inflight) + s.dropped
            && (NoLosingMerge(cfg, ls) && s.mem.buffers == map[] && s.inflight == [] ==> s.put == s.appended)
  {
    hide After;
    RunKeepsAccount(cfg, ls);
    if NoLosingMerge(cfg, ls) {
      NothingDropped(cfg, ls);
    }
  }
}
