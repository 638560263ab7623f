/**
 * Where the gateway keeps a record: in every reachable state every buffer, task
 * and stored chunk holds records of one group and one UTC day only, so that no
 * chunk spans a date partition and the archive it writes is sound for scanning.
 */
module GatewayPlaces {
  import opened Common
  import opened Chunk
  import opened Wal
  import opened Bags
  import opened Gateway
  import GatewayConservation
  import opened ScanObject
  import opened Scan

  // ----- One UTC day per buffer -----

  /** The timestamp falls on the key's UTC day. */
  ghost predicate OnDay(k: BufKey, ts: int) {
    k.day * 86_400_000 <= ts < (k.day + 1) * 86_400_000
  }

  /** Every record, and the timestamp that names the object, fall on the key's day. */
  ghost predicate OneDay(k: BufKey, b: Buf) {
    OnDay(k, b.firstTs) && forall r :: r in b.records ==> OnDay(k, r.timestamp)
  }

  ghost predicate TableByDay(b: map<BufKey, Buf>) {
    forall k :: k in b ==> OneDay(k, b[k])
  }

  ghost predicate TasksByDay(ts: seq<Task>) {
    forall i :: 0 <= i < |ts| ==> OneDay(ts[i].key, ts[i].buf)
  }

  ghost predicate ByDay(s: State) {
    TableByDay(s.mem.buffers) && TasksByDay(s.inflight) && TasksByDay(s.chunks)
  }

  lemma KeyIsOnDay(group: string, r: LogRecord)
    ensures KeyOf(group, r).group == group && OnDay(KeyOf(group, r), r.timestamp)
  {
  }

  lemma PushOneByDay(cfg: Config, m: Mem, group: string, r: LogRecord, now: int, io: Io)
    requires TableByDay(m.buffers)
    ensures TableByDay(PushOne(cfg, m, group, r, now, io).mem.buffers)
  {
    hide OnDay;
    KeyIsOnDay(group, r);
  }

  lemma {:induction false} PushBatchByDay(cfg: Config, m: Mem, group: string, rs: seq<LogRecord>, now: int, ios: seq<Io>)
    requires TableByDay(m.buffers)
    ensures TableByDay(PushBatch(cfg, m, group, rs, now, ios).mem.buffers)
    decreases |rs|
  {
    hide PushOne, TableByDay;
    if rs != [] {
      var io := if ios == [] then Fine else ios[0];
      PushOneByDay(cfg, m, group, rs[0], now, io);
      PushBatchByDay(cfg, PushOne(cfg, m, group, rs[0], now, io).mem, group, rs[1..], now, if ios == [] then [] else ios[1..]);
    }
  }

  lemma {:induction false} TakeByDay(b: map<BufKey, Buf>, keys: seq<BufKey>)
    requires TableByDay(b)
    ensures TableByDay(TakeKeys(b, keys).0) && TasksByDay(TakeKeys(b, keys).1)
    decreases |keys|
  {
    hide OneDay;
    if keys != [] {
      TakeByDay(if keys[0] in b then b - {keys[0]} else b, keys[1..]);
    }
  }

  lemma ReinsertByDay(cfg: Config, m: Mem, k: BufKey, b: Buf, encoded: bool)
    requires cfg.codec.Lawful() && b.records != [] && TableByDay(m.buffers) && OneDay(k, b)
    ensures TableByDay(Reinsert(cfg, m, k, b, encoded).buffers)
  {
    GatewayConservation.ReadBackExact(cfg, b);
    hide ChunkOf, ReadBack, BufLen, Codec.Lawful, OnDay;
    var n := Reinsert(cfg, m, k, b, encoded);
    assert k in m.buffers ==> OneDay(k, m.buffers[k]);
    assert OneDay(k, n.buffers[k]);
  }

  lemma TasksWithout(ts: seq<Task>, i: nat)
    requires TasksByDay(ts) && i < |ts|
    ensures TasksByDay(Without(ts, i))
  {
    hide OneDay;
    var us := Without(ts, i);
    forall k | 0 <= k < |us| ensures OneDay(us[k].key, us[k].buf) {
      assert us[k] == ts[if k < i then k else k + 1];
    }
  }

  lemma TasksJoin(a: seq<Task>, b: seq<Task>)
    requires TasksByDay(a) && TasksByDay(b)
    ensures TasksByDay(a + b)
  {
    hide OneDay;
  }

  lemma PushKeepsDays(cfg: Config, s: State, l: Label)
    requires ByDay(s) && l.Push? && Enabled(cfg, s, l)
    ensures ByDay(Apply(cfg, s, l))
  {
    hide PushBatch, SyncSegments, TakeKeys, Prefix, AllSynced, EntriesOf, TableByDay, TasksByDay;
    var p := PushBatch(cfg, s.mem, l.group, l.recs, l.now, l.ios);
    PushBatchByDay(cfg, s.mem, l.group, l.recs, l.now, l.ios);
    SyncKeepsBuffers(p.mem, l.synced);
    TakeByDay(p.mem.buffers, l.due);
    TasksJoin(s.inflight, TakeKeys(p.mem.buffers, l.due).1);
  }

  lemma SyncKeepsBuffers(m: Mem, ids: set<nat>)
    ensures SyncSegments(m, ids).buffers == m.buffers
  {
  }

  lemma FlushKeepsDays(cfg: Config, s: State, l: Label)
    requires cfg.codec.Lawful() && ByDay(s) && (l.PutOk? || l.FlushFailed? || l.Retire?) && Enabled(cfg, s, l)
    ensures ByDay(Apply(cfg, s, l))
  {
    hide Codec.Lawful, Reinsert, MergeLoses, TaskBag, TableByDay, OneDay, Without, DropSegment, Bury;
    var t := s.inflight[l.task];
    assert OneDay(t.key, t.buf);
    if l.PutOk? {
      TasksJoin(s.chunks, [t]);
    } else {
      TasksWithout(s.inflight, l.task);
      if l.FlushFailed? {
        ReinsertByDay(cfg, s.mem, t.key, t.buf, l.encoded);
      }
    }
  }

  lemma ReplayKeepsDays(cfg: Config, s: State, l: Label)
    requires ByDay(s) && (l.ReplayOne? || l.ReplaySync? || l.ReplayDone?) && Enabled(cfg, s, l)
    ensures ByDay(Apply(cfg, s, l))
  {
    hide PushOne, SyncSegments, TakeKeys, AllSynced, TableByDay, TasksByDay;
    match l {
      case ReplayOne(now, io) =>
        var e := s.mode.todo[0];
        PushOneByDay(cfg, s.mem, e.logGroup, RecordOf(e), now, io);
      case ReplaySync(ids) => SyncKeepsBuffers(s.mem, ids);
      case ReplayDone(due) =>
        TakeByDay(s.mem.buffers, due);
        TasksJoin(s.inflight, TakeKeys(s.mem.buffers, due).1);
    }
  }

  lemma StepKeepsDays(cfg: Config, s: State, l: Label)
    requires cfg.codec.Lawful() && ByDay(s) && Enabled(cfg, s, l)
    ensures ByDay(Apply(cfg, s, l))
  {
    hide Codec.Lawful, TakeKeys, OneDay, Lists;
    match l {
      case Push(_, _, _, _, _, _) => PushKeepsDays(cfg, s, l);
      case Take(due) =>
        TakeByDay(s.mem.buffers, due);
        TasksJoin(s.inflight, TakeKeys(s.mem.buffers, due).1);
      case PutOk(_) => FlushKeepsDays(cfg, s, l);
      case FlushFailed(_, _) => FlushKeepsDays(cfg, s, l);
      case Retire(_, _) => FlushKeepsDays(cfg, s, l);
      case ReplayOne(_, _) => ReplayKeepsDays(cfg, s, l);
      case ReplaySync(_) => ReplayKeepsDays(cfg, s, l);
      case ReplayDone(_) => ReplayKeepsDays(cfg, s, l);
      case Crash(_, _) =>
      case Boot(_) =>
      case ReplayDelete(_) =>
    }
  }

  /** In every reachable state no buffer, task or stored chunk spans a UTC day. */
  lemma {:induction false} RunsKeepDays(cfg: Config, ls: seq<Label>)
    requires cfg.codec.Lawful() && After(cfg, ls).Some?
    ensures var s := After(cfg, ls).value;
            && (forall k, r :: k in s.mem.buffers && r in s.mem.buffers[k].records ==> k.day * 86_400_000 <= r.timestamp < (k.day + 1) * 86_400_000)
            && (forall t, r :: t in s.inflight + s.chunks && r in t.buf.records ==> t.key.day * 86_400_000 <= r.timestamp < (t.key.day + 1) * 86_400_000)
            && ByDay(s)
  {
    if ls != [] {
      hide Codec.Lawful, Enabled, Apply, ByDay;
      RunsKeepDays(cfg, ls[..|ls| - 1]);
      StepKeepsDays(cfg, After(cfg, ls[..|ls| - 1]).value, ls[|ls| - 1]);
    }
    ByDayMeans(After(cfg, ls).value) by {
      if ls == [] {
        assert ByDay(Init());
      }
    }
  }

  lemma ByDayMeans(s: State)
    requires ByDay(s)
    ensures forall k, r :: k in s.mem.buffers && r in s.mem.buffers[k].records ==> k.day * 86_400_000 <= r.timestamp < (k.day + 1) * 86_400_000
    ensures forall t, r :: t in s.inflight + s.chunks && r in t.buf.records ==> t.key.day * 86_400_000 <= r.timestamp < (t.key.day + 1) * 86_400_000
  {
    forall k, r | k in s.mem.buffers && r in s.mem.buffers[k].records ensures k.day * 86_400_000 <= r.timestamp < (k.day + 1) * 86_400_000 {
      assert OneDay(k, s.mem.buffers[k]);
    }
  }

  // ----- Where an accepted record is -----

  /** The buffer holds the record, under its group and its UTC day. */
  ghost predicate Holds(k: BufKey, b: Buf, group: string, r: LogRecord) {
    k.group == group && OnDay(k, r.timestamp) && r in b.records
  }

  ghost predicate InTasks(ts: seq<Task>, group: string, r: LogRecord) {
    exists i :: 0 <= i < |ts| && Holds(ts[i].key, ts[i].buf, group, r)
  }

  ghost predicate InTable(b: map<BufKey, Buf>, group: string, r: LogRecord) {
    exists k :: k in b && Holds(k, b[k], group, r)
  }

  /** The record is in a buffer, a task or a stored chunk of its group and day. */
  ghost predicate HasPlace(s: State, group: string, r: LogRecord) {
    InTable(s.mem.buffers, group, r) || InTasks(s.inflight, group, r) || InTasks(s.chunks, group, r)
  }

  /** Buffers only grow at the end. */
  ghost predicate Grows(a: map<BufKey, Buf>, b: map<BufKey, Buf>) {
    forall k :: k in a ==> k in b && a[k].records <= b[k].records
  }

  lemma GrowsKeeps(a: map<BufKey, Buf>, b: map<BufKey, Buf>, group: string, r: LogRecord)
    requires Grows(a, b) && InTable(a, group, r)
    ensures InTable(b, group, r)
  {
    hide OnDay;
    var k :| k in a && Holds(k, a[k], group, r);
    assert Holds(k, b[k], group, r);
  }

  lemma PushOnePlaces(cfg: Config, m: Mem, group: string, r: LogRecord, now: int, io: Io)
    ensures var p := PushOne(cfg, m, group, r, now, io);
            Grows(m.buffers, p.mem.buffers) && (p.ok ==> InTable(p.mem.buffers, group, r))
  {
    KeyIsOnDay(group, r);
    var p, k := PushOne(cfg, m, group, r, now, io), KeyOf(group, r);
    hide KeyOf, OnDay;
    if p.ok {
      assert Holds(k, p.mem.buffers[k], group, r);
    }
  }

  lemma {:induction false} PushBatchPlaces(cfg: Config, m: Mem, group: string, rs: seq<LogRecord>, now: int, ios: seq<Io>)
    ensures var p := PushBatch(cfg, m, group, rs, now, ios);
            Grows(m.buffers, p.mem.buffers) && (p.ok ==> forall r :: r in rs ==> InTable(p.mem.buffers, group, r))
    decreases |rs|
  {
    hide PushOne, InTable;
    if rs != [] {
      var io := if ios == [] then Fine else ios[0];
      PushOnePlaces(cfg, m, group, rs[0], now, io);
      var p := PushOne(cfg, m, group, rs[0], now, io);
      if p.ok {
        var rest := if ios == [] then [] else ios[1..];
        PushBatchPlaces(cfg, p.mem, group, rs[1..], now, rest);
        var q := PushBatch(cfg, p.mem, group, rs[1..], now, rest);
        GrowsKeeps(p.mem.buffers, q.mem.buffers, group, rs[0]);
      }
    }
  }

  /** Taking moves a buffer out of the table; what is taken is of different keys and no longer there. */
  lemma {:induction false} TakePlaces(b: map<BufKey, Buf>, keys: seq<BufKey>)
    ensures var t := TakeKeys(b, keys);
            && (forall k :: k in t.0 ==> k in b && t.0[k] == b[k])
            && (forall k :: k in b ==> k in t.0 || exists i :: 0 <= i < |t.1| && t.1[i].key == k && t.1[i].buf == b[k])
            && (forall i :: 0 <= i < |t.1| ==> t.1[i].key !in t.0 && t.1[i].key in b)
            && (forall i, j :: 0 <= i < j < |t.1| ==> t.1[i].key != t.1[j].key)
    decreases |keys|
  {
    if keys != [] {
      if keys[0] in b {
        var c := b - {keys[0]};
        TakePlaces(c, keys[1..]);
        var r, t := TakeKeys(c, keys[1..]), TakeKeys(b, keys);
        forall k | k in b ensures k in t.0 || exists i :: 0 <= i < |t.1| && t.1[i].key == k && t.1[i].buf == b[k] {
          if k == keys[0] {
            assert t.1[0].key == k;
          } else if k !in r.0 {
            var i :| 0 <= i < |r.1| && r.1[i].key == k && r.1[i].buf == c[k];
            assert t.1[i + 1] == r.1[i];
          }
        }
      } else {
        TakePlaces(b, keys[1..]);
      }
    }
  }

  lemma TakenHasPlace(b: map<BufKey, Buf>, keys: seq<BufKey>, group: string, r: LogRecord)
    requires InTable(b, group, r)
    ensures InTable(TakeKeys(b, keys).0, group, r) || InTasks(TakeKeys(b, keys).1, group, r)
  {
    hide TakeKeys, OnDay;
    TakePlaces(b, keys);
    var t := TakeKeys(b, keys);
    var k :| k in b && Holds(k, b[k], group, r);
    if k !in t.0 {
      var i :| 0 <= i < |t.1| && t.1[i].key == k && t.1[i].buf == b[k];
      assert Holds(t.1[i].key, t.1[i].buf, group, r);
    }
  }

  lemma JoinKeepsTasks(a: seq<Task>, b: seq<Task>, group: string, r: LogRecord)
    requires InTasks(a, group, r) || InTasks(b, group, r)
    ensures InTasks(a + b, group, r)
  {
    hide Holds;
    if InTasks(a, group, r) {
      var i :| 0 <= i < |a| && Holds(a[i].key, a[i].buf, group, r);
      assert (a + b)[i] == a[i];
    } else {
      var i :| 0 <= i < |b| && Holds(b[i].key, b[i].buf, group, r);
      assert (a + b)[|a| + i] == b[i];
    }
  }

  /** A batch that is acknowledged has every record in a place of its group and day. */
  lemma AcceptedHasPlace(cfg: Config, s: State, l: Label, r: LogRecord)
    requires l.Push? && Enabled(cfg, s, l) && r in l.recs
    requires var p := PushBatch(cfg, s.mem, l.group, l.recs, l.now, l.ios); p.ok && AllSynced(SyncSegments(p.mem, l.synced))
    ensures HasPlace(Apply(cfg, s, l), l.group, r)
  {
    hide PushBatch, SyncSegments, TakeKeys, Prefix, AllSynced, EntriesOf, InTable, InTasks;
    var p := PushBatch(cfg, s.mem, l.group, l.recs, l.now, l.ios);
    PushBatchPlaces(cfg, s.mem, l.group, l.recs, l.now, l.ios);
    SyncKeepsBuffers(p.mem, l.synced);
    TakenHasPlace(p.mem.buffers, l.due, l.group, r);
    if InTasks(TakeKeys(p.mem.buffers, l.due).1, l.group, r) {
      JoinKeepsTasks(s.inflight, TakeKeys(p.mem.buffers, l.due).1, l.group, r);
    }
  }

  ghost predicate KeepsPlaces(s: State, t: State) {
    forall group, r :: HasPlace(s, group, r) ==> HasPlace(t, group, r)
  }

  lemma KeepsPlacesTrans(s: State, t: State, u: State)
    requires KeepsPlaces(s, t) && KeepsPlaces(t, u)
    ensures KeepsPlaces(s, u)
  {
    hide HasPlace;
  }

  lemma LeftWithout(ts: seq<Task>, i: nat, group: string, r: LogRecord)
    requires i < |ts| && InTasks(ts, group, r)
    ensures InTasks(Without(ts, i), group, r) || Holds(ts[i].key, ts[i].buf, group, r)
  {
    hide Holds;
    var k :| 0 <= k < |ts| && Holds(ts[k].key, ts[k].buf, group, r);
    if k != i {
      var j := if k < i then k else k - 1;
      assert Without(ts, i)[j] == ts[k];
    }
  }

  /** A flush that ends with its key vacant loses no place: the buffer is stored, or back in the table. */
  lemma FlushKeepsPlaces(cfg: Config, s: State, i: nat, deleted: bool, encoded: bool)
    requires s.mode.Serving? && i < |s.inflight| && !s.inflight[i].stored && s.inflight[i].buf.records != []
    requires s.inflight[i].key !in s.mem.buffers
    ensures Enabled(cfg, s, PutOk(i)) && Enabled(cfg, Apply(cfg, s, PutOk(i)), Retire(i, deleted)) && Enabled(cfg, s, FlushFailed(i, encoded))
    ensures KeepsPlaces(s, Apply(cfg, Apply(cfg, s, PutOk(i)), Retire(i, deleted)))
    ensures KeepsPlaces(s, Apply(cfg, s, FlushFailed(i, encoded)))
  {
    var task := s.inflight[i];
    var t, u := Apply(cfg, Apply(cfg, s, PutOk(i)), Retire(i, deleted)), Apply(cfg, s, FlushFailed(i, encoded));
    assert t.mem.buffers == s.mem.buffers && t.chunks == s.chunks + [task];
    assert t.inflight == Without(s.inflight, i) == u.inflight;
    assert u.mem.buffers == s.mem.buffers[task.key := task.buf] && u.chunks == s.chunks;
    hide Apply, Enabled, Without;
    forall group, r | HasPlace(s, group, r) ensures HasPlace(t, group, r) && HasPlace(u, group, r) {
      PlaceAfterFlush(s, t, u, i, group, r);
    }
  }

  /** An empty buffer holds no place. */
  lemma EmptyKeepsPlaces(cfg: Config, s: State, i: nat, deleted: bool)
    requires s.mode.Serving? && i < |s.inflight| && s.inflight[i].buf.records == []
    ensures KeepsPlaces(s, Apply(cfg, s, Retire(i, deleted)))
  {
    var t := Apply(cfg, s, Retire(i, deleted));
    assert t.mem.buffers == s.mem.buffers && t.chunks == s.chunks && t.inflight == Without(s.inflight, i);
    hide Apply, Without;
    forall group, r | HasPlace(s, group, r) ensures HasPlace(t, group, r) {
      if InTasks(s.inflight, group, r) {
        LeftWithout(s.inflight, i, group, r);
      }
    }
  }

  /** However a flush ends, if its key was vacant it loses no place and adds no other key. */
  lemma OutcomeKeepsPlaces(cfg: Config, s: State, i: nat, answer: Answer, deleted: bool, t: State)
    requires s.mode.Serving? && i < |s.inflight| && !s.inflight[i].stored && s.inflight[i].key !in s.mem.buffers
    requires s.inflight[i].buf.records == [] ==> t == Apply(cfg, s, Retire(i, deleted))
    requires s.inflight[i].buf.records != [] && !answer.Done? ==> t == Apply(cfg, s, FlushFailed(i, answer.Refused?))
    requires s.inflight[i].buf.records != [] && answer.Done? ==> t == Apply(cfg, Apply(cfg, s, PutOk(i)), Retire(i, deleted))
    ensures KeepsPlaces(s, t) && t.mem.buffers.Keys <= s.mem.buffers.Keys + {s.inflight[i].key}
  {
    if s.inflight[i].buf.records == [] {
      EmptyKeepsPlaces(cfg, s, i, deleted);
    } else {
      FlushKeepsPlaces(cfg, s, i, deleted, answer.Refused?);
    }
    hide KeepsPlaces;
  }

  lemma PlaceAfterFlush(s: State, t: State, u: State, i: nat, group: string, r: LogRecord)
    requires i < |s.inflight| && HasPlace(s, group, r) && s.inflight[i].key !in s.mem.buffers
    requires t.mem.buffers == s.mem.buffers && t.chunks == s.chunks + [s.inflight[i]] && t.inflight == Without(s.inflight, i)
    requires u.mem.buffers == s.mem.buffers[s.inflight[i].key := s.inflight[i].buf] && u.chunks == s.chunks && u.inflight == t.inflight
    ensures HasPlace(t, group, r) && HasPlace(u, group, r)
  {
    hide Holds, Without;
    var task := s.inflight[i];
    if InTable(s.mem.buffers, group, r) {
      var k :| k in s.mem.buffers && Holds(k, s.mem.buffers[k], group, r);
      assert Holds(k, u.mem.buffers[k], group, r);
    } else if InTasks(s.chunks, group, r) {
      JoinKeepsTasks(s.chunks, [task], group, r);
    } else {
      LeftWithout(s.inflight, i, group, r);
      if Holds(task.key, task.buf, group, r) {
        assert Holds([task][0].key, [task][0].buf, group, r);
        JoinKeepsTasks(s.chunks, [task], group, r);
        assert Holds(task.key, u.mem.buffers[task.key], group, r);
      }
    }
  }

  // ----- The archive of the gateway -----

  /** The listed object is a stored chunk, under the chunk's group and day, its sidecars missing or its own. */
  ghost predicate IsChunk(cfg: Config, t: Task, e: Entry) {
    && e.group == t.key.group && e.day == t.key.day && t.buf.records != []
    && match ChunkOf(cfg, t.buf)
       case Some(ch) => e.obj.body == ch.body && (Indexed(e.obj) ==> e.obj.sidecars.value == (ch.entries, ch.tsEntries))
       case None => false
  }

  lemma ChunkIsSound(cfg: Config, t: Task, e: Entry)
    requires cfg.codec.Lawful() && OneDay(t.key, t.buf) && IsChunk(cfg, t, e)
    ensures Sound(cfg.codec, e.obj) && RecordsIn(cfg.codec, e.obj) == t.buf.records
    ensures forall r :: r in RecordsIn(cfg.codec, e.obj) ==> Day(r.timestamp) == e.day
  {
    var frames := FramesOf(cfg.codec, cfg.frameTarget, t.buf.records);
    EncodeShape(cfg.codec, cfg.frameTarget, t.buf.records);
    hide PushAll, Encode, FramesOf, FrameEntries, TsEntries, Codec.Lawful;
    assert Stores(cfg.codec, e.obj, frames);
    BodyIsRecords(cfg.codec, e.obj, frames);
    BodyIsRecords(cfg.codec, e.obj, FramesIn(cfg.codec, e.obj));
  }

  /** Whatever a scan lists of the chunks a gateway stored, over any run, is a sound archive. */
  lemma StoredChunksAreSound(cfg: Config, ls: seq<Label>, es: seq<Entry>)
    requires cfg.codec.Lawful() && After(cfg, ls).Some? && DistinctKeys(es)
    requires forall e :: e in es ==> exists t :: t in After(cfg, ls).value.chunks && IsChunk(cfg, t, e)
    ensures SoundArchive(cfg.codec, es)
  {
    RunsKeepDays(cfg, ls);
    hide After, Codec.Lawful, DistinctKeys, IsChunk, OneDay, RecordsIn, Sound;
    var s := After(cfg, ls).value;
    forall e | e in es ensures Sound(cfg.codec, e.obj) && forall r :: r in RecordsIn(cfg.codec, e.obj) ==> Day(r.timestamp) == e.day {
      var t :| t in s.chunks && IsChunk(cfg, t, e);
      assert OneDay(t.key, t.buf);
      ChunkIsSound(cfg, t, e);
    }
  }

  // ----- What put counts -----

  ghost function ChunkBag(cs: seq<Task>): multiset<WalEntry> {
    if cs == [] then multiset{} else ChunkBag(cs[..|cs| - 1]) + TaskBag(cs[|cs| - 1])
  }

  /** put is exactly what the stored chunks hold. */
  lemma {:induction false} PutIsInChunks(cfg: Config, ls: seq<Label>)
    requires After(cfg, ls).Some?
    ensures After(cfg, ls).value.put == ChunkBag(After(cfg, ls).value.chunks)
  {
    if ls != [] {
      var s, l := After(cfg, ls[..|ls| - 1]).value, ls[|ls| - 1];
      PutIsInChunks(cfg, ls[..|ls| - 1]);
      PutStep(cfg, s, l);
    }
  }

  lemma PutStep(cfg: Config, s: State, l: Label)
    requires Enabled(cfg, s, l) && s.put == ChunkBag(s.chunks)
    ensures var t := Apply(cfg, s, l); t.put == ChunkBag(t.chunks)
  {
    hide TaskBag, PushBatch, SyncSegments, TakeKeys, AllSynced, Reinsert, PushOne;
    if l.PutOk? {
      var t := s.inflight[l.task];
      assert (s.chunks + [t])[..|s.chunks|] == s.chunks;
    }
  }
}
