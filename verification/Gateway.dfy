/**
 * The gateway's buffer and write-ahead-log protocol as a state machine: one
 * step per critical section or completed await, with a crash possible between
 * any two. What every step keeps is proved here; whole runs follow.
 */
module Gateway {
  import opened Common
  import opened Chunk
  import opened Wal
  import opened Bags

  datatype Config = Config(codec: Codec, frameTarget: nat, flushBytes: nat, maxBuffered: nat, wal: bool)

  datatype BufKey = BufKey(group: string, day: int)

  /** One buffer: its push history, name timestamp, age clock and segment. */
  datatype Buf = Buf(records: seq<LogRecord>, firstTs: int, openedAt: int, seg: Option<nat>)

  /** A segment file: appended entries, of which the first synced are durable. */
  datatype Segment = Segment(entries: seq<WalEntry>, synced: nat)

  datatype Mem = Mem(buffers: map<BufKey, Buf>, disk: map<nat, Segment>, nextSeg: nat)

  /** Outcome of one push: of its file operations, and of cutting a frame once the record is in the writer. */
  datatype Io = Fine | CreateFails | AppendFails | CutFails

  function KeyOf(group: string, r: LogRecord): BufKey {
    BufKey(group, Day(r.timestamp))
  }

  function EntriesOf(group: string, rs: seq<LogRecord>): seq<WalEntry> {
    seq(|rs|, i requires 0 <= i < |rs| => EntryOf(group, rs[i]))
  }

  /** Find or create the buffer of a key; None when its segment cannot be created. */
  function OpenBuffer(cfg: Config, m: Mem, key: BufKey, ts: int, now: int, io: Io): Option<Mem> {
    if key in m.buffers then Some(m)
    else if !cfg.wal then Some(m.(buffers := m.buffers[key := Buf([], ts, now, None)]))
    else if io.CreateFails? then None
    else Some(Mem(m.buffers[key := Buf([], ts, now, Some(m.nextSeg))],
                  m.disk[m.nextSeg := Segment([], 0)], m.nextSeg + 1))
  }

  /** Append one record: the log line first, then the buffer. */
  function AppendRecord(m: Mem, key: BufKey, r: LogRecord): Mem
    requires key in m.buffers
  {
    var b := m.buffers[key];
    var disk :=
      if b.seg.Some? && b.seg.value in m.disk then
        var s := m.disk[b.seg.value];
        m.disk[b.seg.value := s.(entries := s.entries + [EntryOf(key.group, r)])]
      else m.disk;
    m.(buffers := m.buffers[key := b.(records := b.records + [r])], disk := disk)
  }

  datatype Pushed = Pushed(mem: Mem, count: nat, ok: bool)

  function PushOne(cfg: Config, m: Mem, group: string, r: LogRecord, now: int, io: Io): Pushed {
    var key := KeyOf(group, r);
    match OpenBuffer(cfg, m, key, r.timestamp, now, io)
    case None => Pushed(m, 0, false)
    case Some(m1) =>
      if m1.buffers[key].seg.Some? && io.AppendFails? then Pushed(m1, 0, false)
      else Pushed(AppendRecord(m1, key, r), 1, !io.CutFails?)
  }

  /** Push a batch in order, stopping at the first failure; ios gives each event's outcome. */
  function PushBatch(cfg: Config, m: Mem, group: string, rs: seq<LogRecord>, now: int, ios: seq<Io>): Pushed
    decreases |rs|
  {
    if rs == [] then Pushed(m, 0, true)
    else
      var p := PushOne(cfg, m, group, rs[0], now, if ios == [] then Fine else ios[0]);
      if !p.ok then p
      else
        var q := PushBatch(cfg, p.mem, group, rs[1..], now, if ios == [] then [] else ios[1..]);
        Pushed(q.mem, 1 + q.count, q.ok)
  }

  function Flushed(s: Segment): Segment {
    s.(synced := |s.entries|)
  }

  /** fsync of a set of segments. */
  function SyncSegments(m: Mem, ids: set<nat>): Mem {
    m.(disk := map id | id in m.disk :: if id in ids then Flushed(m.disk[id]) else m.disk[id])
  }

  /** Every live buffer's segment is fully durable. */
  predicate AllSynced(m: Mem) {
    forall k :: k in m.buffers ==> SegmentClean(m, m.buffers[k])
  }

  predicate SegmentClean(m: Mem, b: Buf) {
    b.seg.Some? && b.seg.value in m.disk ==> m.disk[b.seg.value].synced == |m.disk[b.seg.value].entries|
  }

  /** How a flush of a non-empty buffer ends: stored, refused by the store, or not even encoded. */
  datatype Answer = Done | Refused | NotEncoded

  /** A buffer taken out for flushing; stored once its PUT has returned Ok. */
  datatype Task = Task(key: BufKey, buf: Buf, stored: bool)

  function TakeKeys(b: map<BufKey, Buf>, keys: seq<BufKey>): (map<BufKey, Buf>, seq<Task>) {
    if keys == [] then (b, [])
    else if keys[0] !in b then TakeKeys(b, keys[1..])
    else
      var r := TakeKeys(b - {keys[0]}, keys[1..]);
      (r.0, [Task(keys[0], b[keys[0]], false)] + r.1)
  }

  /** The object a buffer encodes to. */
  function ChunkOf(cfg: Config, b: Buf): Option<EncodedChunk> {
    Encode(cfg.codec, PushAll(cfg.codec, NewWriter(cfg.frameTarget), b.records))
  }

  function BufLen(cfg: Config, b: Buf): nat {
    PushAll(cfg.codec, NewWriter(cfg.frameTarget), b.records).UncompressedLen()
  }

  /** Records recovered from an already-encoded chunk. */
  function ReadBack(c: Codec, ch: EncodedChunk): Option<seq<LogRecord>> {
    match DecompressFrames(c, ch.body, ch.uncompressedBytes)
    case Ok(plain) => Some(Decoded(c.ParseLines(plain)))
    case Err(_) => None
  }

  /** A failed flush comes back: reinserted, left to its segment, or merged into the recreated buffer. */
  function Reinsert(cfg: Config, m: Mem, key: BufKey, b: Buf, encoded: bool): Mem {
    if key !in m.buffers then m.(buffers := m.buffers[key := b])
    else if b.seg.Some? then m
    else
      var dst := m.buffers[key];
      var older := dst.(openedAt := Min(dst.openedAt, b.openedAt), firstTs := Min(dst.firstTs, b.firstTs));
      var merged := match ChunkOf(cfg, b) case None => None case Some(ch) => if encoded then ReadBack(cfg.codec, ch) else None;
      match merged
      case Some(rs) => m.(buffers := m.buffers[key := older.(records := dst.records + rs)])
      case None => m.(buffers := m.buffers[key := older])
  }

  // ----- Bags -----

  function BufBag(k: BufKey, b: Buf): multiset<WalEntry> {
    multiset(EntriesOf(k.group, b.records))
  }

  ghost function Live(b: map<BufKey, Buf>): multiset<WalEntry> {
    Sum(b, BufBag)
  }

  function SyncedBag(id: nat, s: Segment): multiset<WalEntry> {
    if s.synced <= |s.entries| then multiset(s.entries[..s.synced]) else multiset(s.entries)
  }

  function EntryBag(id: nat, s: Segment): multiset<WalEntry> {
    multiset(s.entries)
  }

  /** Everything fsynced in segments still on disk. */
  ghost function OnDisk(disk: map<nat, Segment>): multiset<WalEntry> {
    Sum(disk, SyncedBag)
  }

  function TaskBag(t: Task): multiset<WalEntry> {
    BufBag(t.key, t.buf)
  }

  function Pending(t: Task): multiset<WalEntry> {
    if t.stored then multiset{} else TaskBag(t)
  }

  function Finished(t: Task): multiset<WalEntry> {
    if t.stored then TaskBag(t) else multiset{}
  }

  function Unstored(ts: seq<Task>): multiset<WalEntry> {
    if ts == [] then multiset{} else Pending(ts[0]) + Unstored(ts[1..])
  }

  function Stored(ts: seq<Task>): multiset<WalEntry> {
    if ts == [] then multiset{} else Finished(ts[0]) + Stored(ts[1..])
  }

  // ----- The machine -----

  datatype Mode = Down | Serving | Replaying(prior: set<nat>, todo: seq<WalEntry>, deleting: bool)

  /** chunks lists the buffers stored so far, put their records. */
  datatype State = State(
    mem: Mem,
    inflight: seq<Task>,
    graveyard: map<nat, Segment>,
    mode: Mode,
    chunks: seq<Task>,
    put: multiset<WalEntry>,
    acked: multiset<WalEntry>,
    retired: multiset<WalEntry>,
    appended: multiset<WalEntry>,
    dropped: multiset<WalEntry>)

  datatype Label =
    | Push(group: string, recs: seq<LogRecord>, now: int, ios: seq<Io>, synced: set<nat>, due: seq<BufKey>)
    | Take(due: seq<BufKey>)
    | PutOk(task: nat)
    | FlushFailed(task: nat, encoded: bool)
    | Retire(task: nat, deleted: bool)
    | Crash(keep: map<nat, nat>, revived: set<nat>)
    | Boot(todo: seq<WalEntry>)
    | ReplayOne(now: int, io: Io)
    | ReplaySync(synced: set<nat>)
    | ReplayDelete(id: nat)
    | ReplayDone(due: seq<BufKey>)

  function Init(): State {
    State(Mem(map[], map[], 0), [], map[], Down, [], multiset{}, multiset{}, multiset{}, multiset{}, multiset{})
  }

  function Without<T>(s: seq<T>, i: nat): seq<T>
    requires i < |s|
  {
    s[..i] + s[i + 1..]
  }

  /** What a crash may leave of a segment: at least the fsynced entries, at most the appended ones. */
  predicate LegalCrash(disk: map<nat, Segment>, graveyard: map<nat, Segment>, keep: map<nat, nat>, revived: set<nat>) {
    && keep.Keys == disk.Keys
    && (forall id :: id in disk ==> disk[id].synced <= keep[id] <= |disk[id].entries|)
    && (forall id :: id in revived ==> id in graveyard && id !in disk)
  }

  function AfterCrash(disk: map<nat, Segment>, graveyard: map<nat, Segment>, keep: map<nat, nat>, revived: set<nat>): map<nat, Segment>
    requires LegalCrash(disk, graveyard, keep, revived)
  {
    map id | id in disk.Keys + revived ::
      if id in disk then Segment(disk[id].entries[..keep[id]], keep[id]) else Flushed(graveyard[id])
  }

  ghost predicate Enabled(cfg: Config, s: State, l: Label) {
    match l
    case Push(_, recs, _, _, _, _) => s.mode.Serving? && forall r :: r in recs ==> r.eventId == None
    case Take(_) => s.mode.Serving?
    case PutOk(i) => s.mode.Serving? && i < |s.inflight| && !s.inflight[i].stored && s.inflight[i].buf.records != []
    case FlushFailed(i, _) => s.mode.Serving? && i < |s.inflight| && !s.inflight[i].stored && s.inflight[i].buf.records != []
    case Retire(i, _) => s.mode.Serving? && i < |s.inflight| && (s.inflight[i].stored || s.inflight[i].buf.records == [])
    case Crash(keep, revived) => LegalCrash(s.mem.disk, s.graveyard, keep, revived)
    case Boot(todo) => s.mode.Down? && Lists(s.mem.disk, todo)
    case ReplayOne(_, _) => s.mode.Replaying? && s.mode.todo != []
    case ReplaySync(_) => s.mode.Replaying? && s.mode.todo == [] && !s.mode.deleting
    case ReplayDelete(id) => s.mode.Replaying? && s.mode.deleting && id in s.mode.prior && id in s.mem.disk
    case ReplayDone(_) => s.mode.Replaying? && s.mode.deleting
  }

  /** todo lists every entry of every segment on disk. */
  ghost predicate Lists(disk: map<nat, Segment>, todo: seq<WalEntry>) {
    Listing(disk) == multiset(todo)
  }

  ghost function Listing(disk: map<nat, Segment>): multiset<WalEntry> {
    Sum(disk, EntryBag)
  }

  function ApplyPush(cfg: Config, s: State, l: Label): State
    requires l.Push?
  {
    var p := PushBatch(cfg, s.mem, l.group, l.recs, l.now, l.ios);
    var batch := multiset(EntriesOf(l.group, l.recs));
    if !p.ok then
      s.(mem := p.mem, appended := s.appended + Prefix(l.group, l.recs, p.count))
    else
      var m := SyncSegments(p.mem, l.synced);
      if !AllSynced(m) then s.(mem := m, appended := s.appended + batch)
      else
        var t := TakeKeys(m.buffers, l.due);
        s.(mem := m.(buffers := t.0), inflight := s.inflight + t.1,
           appended := s.appended + batch, acked := s.acked + batch)
  }

  function Prefix(group: string, rs: seq<LogRecord>, n: nat): multiset<WalEntry> {
    if n <= |rs| then multiset(EntriesOf(group, rs[..n])) else multiset{}
  }

  /** Lost by a merge that has no chunk, or cannot decode its own. */
  predicate MergeLoses(cfg: Config, m: Mem, key: BufKey, b: Buf, encoded: bool) {
    key in m.buffers && b.seg.None? && (!encoded || BufLen(cfg, b) > MAX_DECOMPRESSED_BYTES)
  }

  function DropSegment(disk: map<nat, Segment>, seg: Option<nat>): map<nat, Segment> {
    if seg.Some? then disk - {seg.value} else disk
  }

  function Bury(graveyard: map<nat, Segment>, disk: map<nat, Segment>, seg: Option<nat>): map<nat, Segment> {
    if seg.Some? && seg.value in disk then graveyard[seg.value := disk[seg.value]] else graveyard
  }

  function Apply(cfg: Config, s: State, l: Label): State
    requires Enabled(cfg, s, l)
  {
    match l
    case Push(_, _, _, _, _, _) => ApplyPush(cfg, s, l)
    case Take(due) =>
      var t := TakeKeys(s.mem.buffers, due);
      s.(mem := s.mem.(buffers := t.0), inflight := s.inflight + t.1)
    case PutOk(i) =>
      s.(inflight := s.inflight[i := s.inflight[i].(stored := true)], chunks := s.chunks + [s.inflight[i]], put := s.put + TaskBag(s.inflight[i]))
    case FlushFailed(i, encoded) =>
      var t := s.inflight[i];
      s.(mem := Reinsert(cfg, s.mem, t.key, t.buf, encoded), inflight := Without(s.inflight, i),
         dropped := if MergeLoses(cfg, s.mem, t.key, t.buf, encoded) then s.dropped + TaskBag(t) else s.dropped)
    case Retire(i, deleted) =>
      var t := s.inflight[i];
      s.(mem := s.mem.(disk := if deleted then DropSegment(s.mem.disk, t.buf.seg) else s.mem.disk),
         graveyard := if deleted then Bury(s.graveyard, s.mem.disk, t.buf.seg) else s.graveyard,
         inflight := Without(s.inflight, i), retired := s.retired + TaskBag(t))
    case Crash(keep, revived) =>
      s.(mem := Mem(map[], AfterCrash(s.mem.disk, s.graveyard, keep, revived), s.mem.nextSeg), inflight := [], mode := Down)
    case Boot(todo) => s.(mode := Replaying(s.mem.disk.Keys, todo, false))
    case ReplayOne(now, io) =>
      var e := s.mode.todo[0];
      var p := PushOne(cfg, s.mem, e.logGroup, RecordOf(e), now, io);
      if p.ok then s.(mem := p.mem, appended := s.appended + multiset{e}, mode := s.mode.(todo := s.mode.todo[1..]))
      else s.(mem := p.mem, appended := s.appended + (if p.count == 1 then multiset{e} else multiset{}))
    case ReplaySync(ids) =>
      var m := SyncSegments(s.mem, ids);
      s.(mem := m, mode := s.mode.(deleting := AllSynced(m)))
    case ReplayDelete(id) =>
      s.(mem := s.mem.(disk := s.mem.disk - {id}), graveyard := s.graveyard[id := s.mem.disk[id]])
    case ReplayDone(due) =>
      var t := TakeKeys(s.mem.buffers, due);
      s.(mem := s.mem.(buffers := t.0), inflight := s.inflight + t.1, mode := Serving)
  }

  /** The state a run of labels reaches, when each is enabled in turn. */
  ghost function After(cfg: Config, ls: seq<Label>): Option<State> {
    if ls == [] then Some(Init())
    else
      match After(cfg, ls[..|ls| - 1])
      case None => None
      case Some(s) =>
        var l := ls[|ls| - 1];
        if Enabled(cfg, s, l) then Some(Apply(cfg, s, l)) else None
  }

  // ----- Facts both accounts share -----

  lemma EntriesSnoc(group: string, rs: seq<LogRecord>, r: LogRecord)
    ensures EntriesOf(group, rs + [r]) == EntriesOf(group, rs) + [EntryOf(group, r)]
  {
  }

  lemma EntriesAppend(group: string, a: seq<LogRecord>, b: seq<LogRecord>)
    ensures EntriesOf(group, a + b) == EntriesOf(group, a) + EntriesOf(group, b)
  {
  }

  lemma PrefixCons(group: string, rs: seq<LogRecord>, n: nat)
    requires rs != [] && n <= |rs| - 1
    ensures Prefix(group, rs, n + 1) == multiset{EntryOf(group, rs[0])} + Prefix(group, rs[1..], n)
  {
    assert rs[..n + 1] == [rs[0]] + rs[1..][..n];
    EntriesAppend(group, [rs[0]], rs[1..][..n]);
    assert EntriesOf(group, [rs[0]]) == [EntryOf(group, rs[0])];
  }

  lemma OpenLive(cfg: Config, m: Mem, key: BufKey, ts: int, now: int, io: Io)
    ensures var o := OpenBuffer(cfg, m, key, ts, now, io);
            o.Some? ==> key in o.value.buffers && Live(o.value.buffers) == Live(m.buffers)
  {
    var o := OpenBuffer(cfg, m, key, ts, now, io);
    if o.Some? && key !in m.buffers {
      SumSet(m.buffers, BufBag, key, o.value.buffers[key]);
    }
  }

  lemma AppendLive(m: Mem, key: BufKey, r: LogRecord)
    requires key in m.buffers
    ensures Live(AppendRecord(m, key, r).buffers) == Live(m.buffers) + multiset{EntryOf(key.group, r)}
  {
    var b := m.buffers[key];
    EntriesSnoc(key.group, b.records, r);
    SumSet(m.buffers, BufBag, key, b.(records := b.records + [r]));
  }

  lemma PushOneLive(cfg: Config, m: Mem, group: string, r: LogRecord, now: int, io: Io)
    ensures var p := PushOne(cfg, m, group, r, now, io);
            && p.count <= 1 && (p.ok ==> p.count == 1)
            && Live(p.mem.buffers) == Live(m.buffers) + (if p.count == 1 then multiset{EntryOf(group, r)} else multiset{})
  {
    hide OpenBuffer, AppendRecord, Live;
    var key := KeyOf(group, r);
    OpenLive(cfg, m, key, r.timestamp, now, io);
    var o := OpenBuffer(cfg, m, key, r.timestamp, now, io);
    if o.Some? {
      AppendLive(o.value, key, r);
    }
  }

  /** A batch adds to the buffers exactly the records it got through. */
  lemma {:induction false} PushBatchLive(cfg: Config, m: Mem, group: string, rs: seq<LogRecord>, now: int, ios: seq<Io>)
    ensures var p := PushBatch(cfg, m, group, rs, now, ios);
            && p.count <= |rs| && (p.ok ==> p.count == |rs|)
            && Live(p.mem.buffers) == Live(m.buffers) + Prefix(group, rs, p.count)
    decreases |rs|
  {
    hide PushOne, Live, Prefix;
    if rs == [] {
      PrefixNone(group, rs);
    } else {
      var io := if ios == [] then Fine else ios[0];
      PushOneLive(cfg, m, group, rs[0], now, io);
      var p := PushOne(cfg, m, group, rs[0], now, io);
      if p.ok {
        var rest := if ios == [] then [] else ios[1..];
        PushBatchLive(cfg, p.mem, group, rs[1..], now, rest);
        PrefixCons(group, rs, PushBatch(cfg, p.mem, group, rs[1..], now, rest).count);
      } else {
        PrefixNone(group, rs);
        PrefixNone(group, rs[1..]);
        PrefixCons(group, rs, 0);
      }
    }
  }

  lemma PrefixNone(group: string, rs: seq<LogRecord>)
    ensures Prefix(group, rs, 0) == multiset{}
  {
    assert rs[..0] == [];
  }

  lemma PrefixWhole(group: string, rs: seq<LogRecord>)
    ensures Prefix(group, rs, |rs|) == multiset(EntriesOf(group, rs))
  {
    assert rs[..|rs|] == rs;
  }

  lemma {:induction false} UnstoredAppend(a: seq<Task>, b: seq<Task>)
    ensures Unstored(a + b) == Unstored(a) + Unstored(b)
  {
    hide Pending;
    if a == [] {
      assert a + b == b;
    } else {
      UnstoredAppend(a[1..], b);
      assert (a + b)[0] == a[0] && (a + b)[1..] == a[1..] + b;
    }
  }

  lemma {:induction false} StoredAppend(a: seq<Task>, b: seq<Task>)
    ensures Stored(a + b) == Stored(a) + Stored(b)
  {
    hide Finished;
    if a == [] {
      assert a + b == b;
    } else {
      StoredAppend(a[1..], b);
      assert (a + b)[0] == a[0] && (a + b)[1..] == a[1..] + b;
    }
  }

  lemma TasksAppend(a: seq<Task>, b: seq<Task>)
    ensures Unstored(a + b) == Unstored(a) + Unstored(b) && Stored(a + b) == Stored(a) + Stored(b)
  {
    UnstoredAppend(a, b);
    StoredAppend(a, b);
  }

  /** Taking buffers out moves their records, all of them and nothing else. */
  lemma {:induction false} TakeConserves(b: map<BufKey, Buf>, keys: seq<BufKey>)
    ensures var t := TakeKeys(b, keys);
            Live(b) == Live(t.0) + Unstored(t.1) && Stored(t.1) == multiset{}
  {
    if keys != [] {
      if keys[0] !in b {
        TakeConserves(b, keys[1..]);
      } else {
        TakeConserves(b - {keys[0]}, keys[1..]);
        SumAt(b, BufBag, keys[0]);
        var r, t := TakeKeys(b - {keys[0]}, keys[1..]), TakeKeys(b, keys);
        assert t.1[0] == Task(keys[0], b[keys[0]], false) && t.1[1..] == r.1;
      }
    }
  }

  lemma RemoveTask(ts: seq<Task>, i: nat)
    requires i < |ts|
    ensures Unstored(ts) == Unstored(Without(ts, i)) + Pending(ts[i])
    ensures Stored(ts) == Stored(Without(ts, i)) + Finished(ts[i])
  {
    hide *;
    RemoveUnstored(ts, i);
    RemoveStored(ts, i);
  }

  lemma {:induction false} RemoveUnstored(ts: seq<Task>, i: nat)
    requires i < |ts|
    ensures Unstored(ts) == Unstored(Without(ts, i)) + Pending(ts[i])
  {
    hide Pending;
    if i == 0 {
      assert Without(ts, 0) == ts[1..];
    } else {
      RemoveUnstored(ts[1..], i - 1);
      WithoutTail(ts, i);
      hide Without;
      BagAssoc(Pending(ts[0]), Unstored(Without(ts[1..], i - 1)), Pending(ts[i]));
    }
  }

  lemma {:induction false} RemoveStored(ts: seq<Task>, i: nat)
    requires i < |ts|
    ensures Stored(ts) == Stored(Without(ts, i)) + Finished(ts[i])
  {
    hide Finished;
    if i == 0 {
      assert Without(ts, 0) == ts[1..];
    } else {
      RemoveStored(ts[1..], i - 1);
      WithoutTail(ts, i);
      hide Without;
      BagAssoc(Finished(ts[0]), Stored(Without(ts[1..], i - 1)), Finished(ts[i]));
    }
  }

  lemma WithoutTail<T>(ts: seq<T>, i: nat)
    requires 0 < i < |ts|
    ensures var us := Without(ts, i);
            us != [] && us[0] == ts[0] && us[1..] == Without(ts[1..], i - 1)
  {
  }

  lemma StoreTask(ts: seq<Task>, i: nat)
    requires i < |ts| && !ts[i].stored
    ensures var us := ts[i := ts[i].(stored := true)];
            Unstored(ts) == Unstored(us) + TaskBag(ts[i]) && Stored(us) == Stored(ts) + TaskBag(ts[i])
  {
    var us := ts[i := ts[i].(stored := true)];
    RemoveTask(ts, i);
    RemoveTask(us, i);
    assert Without(us, i) == Without(ts, i);
  }
}
