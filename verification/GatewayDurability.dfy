/**
 * Write-ahead log on: every acknowledged record is in a stored chunk or on an
 * fsynced line of a segment still on disk, in every reachable state.
 */
module GatewayDurability {
  import opened Common
  import opened Wal
  import opened Bags
  import opened Gateway

  /** The buffer's segment is on disk and lists exactly the buffer's records. */
  ghost predicate Mirrors(disk: map<nat, Segment>, k: BufKey, b: Buf) {
    b.seg.Some? && b.seg.value in disk && disk[b.seg.value].entries == EntriesOf(k.group, b.records)
  }

  ghost predicate BuffersOwn(m: Mem) {
    && (forall k :: k in m.buffers ==> Mirrors(m.disk, k, m.buffers[k]))
    && (forall j, k :: j in m.buffers && k in m.buffers && j != k ==> m.buffers[j].seg != m.buffers[k].seg)
  }

  ghost predicate TasksOwn(m: Mem, ts: seq<Task>) {
    && (forall i :: 0 <= i < |ts| ==> Mirrors(m.disk, ts[i].key, ts[i].buf))
    && (forall i, j :: 0 <= i < j < |ts| ==> ts[i].buf.seg != ts[j].buf.seg)
    && (forall k, i :: k in m.buffers && 0 <= i < |ts| ==> m.buffers[k].seg != ts[i].buf.seg)
  }

  ghost predicate Sane(m: Mem) {
    forall id :: id in m.disk ==> id < m.nextSeg && m.disk[id].synced <= |m.disk[id].entries|
  }

  ghost predicate WellOwned(m: Mem, ts: seq<Task>) {
    Sane(m) && BuffersOwn(m) && TasksOwn(m, ts)
  }

  /** Segments of live buffers. */
  ghost function Owned(m: Mem): set<nat> {
    set k | k in m.buffers && m.buffers[k].seg.Some? :: m.buffers[k].seg.value
  }

  /** Counts every entry of an owned segment, and the fsynced ones of any other. */
  function FullBag(owned: set<nat>): (nat, Segment) -> multiset<WalEntry> {
    (id: nat, s: Segment) => if id in owned then EntryBag(id, s) else SyncedBag(id, s)
  }

  /** What would be durable after a complete fsync of the live buffers, outside a set of segments. */
  ghost function Full(m: Mem, apart: set<nat>): multiset<WalEntry> {
    Sum(m.disk - apart, FullBag(Owned(m)))
  }

  // ----- Pushing -----

  lemma OpenOwns(cfg: Config, m: Mem, ts: seq<Task>, key: BufKey, t: int, now: int, io: Io, apart: set<nat>)
    requires cfg.wal && WellOwned(m, ts) && m.nextSeg !in apart
    requires OpenBuffer(cfg, m, key, t, now, io).Some?
    ensures var o := OpenBuffer(cfg, m, key, t, now, io).value;
            && key in o.buffers && WellOwned(o, ts) && o.nextSeg >= m.nextSeg
            && OnDisk(o.disk) == OnDisk(m.disk)
            && Full(o, apart) == Full(m, apart)
            && Owned(o) <= Owned(m) + {m.nextSeg} && Owned(m) <= Owned(o)
            && m.disk.Keys <= o.disk.Keys && o.disk.Keys - m.disk.Keys <= Owned(o)
  {
    if key !in m.buffers {
      OpenWellOwned(cfg, m, ts, key, t, now, io);
      OpenSums(cfg, m, ts, key, t, now, io, apart);
    }
  }

  lemma OpenSums(cfg: Config, m: Mem, ts: seq<Task>, key: BufKey, t: int, now: int, io: Io, apart: set<nat>)
    requires cfg.wal && WellOwned(m, ts) && m.nextSeg !in apart && key !in m.buffers && !io.CreateFails?
    ensures var o := OpenBuffer(cfg, m, key, t, now, io).value;
            && OnDisk(o.disk) == OnDisk(m.disk)
            && Full(o, apart) == Full(m, apart)
            && Owned(o) == Owned(m) + {m.nextSeg}
  {
    hide BuffersOwn, TasksOwn, Owned, FullBag, SyncedBag;
    var o := OpenBuffer(cfg, m, key, t, now, io).value;
    assert m.nextSeg !in m.disk;
    OwnedAdds(m, o, key, m.nextSeg);
    EmptySegment(m.nextSeg, Owned(o));
    AddEmpty(m.disk, m.nextSeg, {}, SyncedBag);
    AddEmpty(m.disk, m.nextSeg, apart, FullBag(Owned(o)));
    OwnedIrrelevant(m.disk - apart, Owned(o), Owned(m), m.nextSeg);
  }

  /** A new empty segment adds nothing to a sum. */
  lemma AddEmpty(d: map<nat, Segment>, id: nat, apart: set<nat>, f: (nat, Segment) -> multiset<WalEntry>)
    requires id !in d && id !in apart && f(id, Segment([], 0)) == multiset{}
    ensures Sum(d[id := Segment([], 0)] - apart, f) == Sum(d - apart, f)
    ensures d - {} == d && d[id := Segment([], 0)] - {} == d[id := Segment([], 0)]
  {
    assert d[id := Segment([], 0)] - apart == (d - apart)[id := Segment([], 0)];
    SumSet(d - apart, f, id, Segment([], 0));
  }

  lemma EmptySegment(id: nat, owned: set<nat>)
    ensures FullBag(owned)(id, Segment([], 0)) == multiset{} == SyncedBag(id, Segment([], 0))
  {
  }

  lemma OwnedIrrelevant(d: map<nat, Segment>, o: set<nat>, p: set<nat>, id: nat)
    requires o == p + {id} && id !in d
    ensures Sum(d, FullBag(o)) == Sum(d, FullBag(p))
  {
    SumAgree(d, FullBag(o), FullBag(p));
  }

  lemma OwnedAdds(m: Mem, o: Mem, key: BufKey, id: nat)
    requires key !in m.buffers && key in o.buffers && o.buffers[key].seg == Some(id)
    requires o.buffers == m.buffers[key := o.buffers[key]]
    ensures Owned(o) == Owned(m) + {id}
  {
    forall x | x in Owned(m) ensures x in Owned(o) {
      var k :| k in m.buffers && m.buffers[k].seg.Some? && m.buffers[k].seg.value == x;
      assert k in o.buffers && o.buffers[k] == m.buffers[k];
    }
  }

  lemma OpenWellOwned(cfg: Config, m: Mem, ts: seq<Task>, key: BufKey, t: int, now: int, io: Io)
    requires cfg.wal && WellOwned(m, ts) && key !in m.buffers && !io.CreateFails?
    ensures WellOwned(OpenBuffer(cfg, m, key, t, now, io).value, ts)
  {
    var o := OpenBuffer(cfg, m, key, t, now, io).value;
    assert EntriesOf(key.group, []) == [];
    forall k | k in o.buffers ensures Mirrors(o.disk, k, o.buffers[k]) {
      if k != key {
        assert Mirrors(m.disk, k, m.buffers[k]);
      }
    }
    forall i | 0 <= i < |ts| ensures Mirrors(o.disk, ts[i].key, ts[i].buf) && ts[i].buf.seg != Some(m.nextSeg) {
      assert Mirrors(m.disk, ts[i].key, ts[i].buf);
    }
    forall j, k | j in o.buffers && k in o.buffers && j != k ensures o.buffers[j].seg != o.buffers[k].seg {
      assert j != key ==> Mirrors(m.disk, j, m.buffers[j]);
      assert k != key ==> Mirrors(m.disk, k, m.buffers[k]);
    }
  }

  lemma AppendWellOwned(m: Mem, ts: seq<Task>, key: BufKey, r: LogRecord)
    requires WellOwned(m, ts) && key in m.buffers
    ensures WellOwned(AppendRecord(m, key, r), ts)
    ensures Owned(AppendRecord(m, key, r)) == Owned(m)
  {
    var n, b := AppendRecord(m, key, r), m.buffers[key];
    var id := b.seg.value;
    assert Mirrors(m.disk, key, b);
    EntriesSnoc(key.group, b.records, r);
    forall k | k in n.buffers ensures Mirrors(n.disk, k, n.buffers[k]) && n.buffers[k].seg == m.buffers[k].seg {
      assert Mirrors(m.disk, k, m.buffers[k]);
    }
    forall i | 0 <= i < |ts| ensures Mirrors(n.disk, ts[i].key, ts[i].buf) {
      assert Mirrors(m.disk, ts[i].key, ts[i].buf);
      assert m.buffers[key].seg != ts[i].buf.seg;
    }
    OwnedSame(m, n);
  }

  lemma OwnedSame(m: Mem, n: Mem)
    requires m.buffers.Keys == n.buffers.Keys && forall k :: k in m.buffers ==> m.buffers[k].seg == n.buffers[k].seg
    ensures Owned(m) == Owned(n)
  {
    forall x ensures x in Owned(m) <==> x in Owned(n) {
      if x in Owned(m) {
        var k :| k in m.buffers && m.buffers[k].seg.Some? && m.buffers[k].seg.value == x;
        assert n.buffers[k].seg == Some(x);
      }
      if x in Owned(n) {
        var k :| k in n.buffers && n.buffers[k].seg.Some? && n.buffers[k].seg.value == x;
        assert m.buffers[k].seg == Some(x);
      }
    }
  }

  lemma AppendOnDisk(m: Mem, ts: seq<Task>, key: BufKey, r: LogRecord)
    requires WellOwned(m, ts) && key in m.buffers
    ensures OnDisk(AppendRecord(m, key, r).disk) == OnDisk(m.disk)
  {
    hide BuffersOwn, TasksOwn;
    BufferMirrors(m, key);
    var id := m.buffers[key].seg.value;
    var s, s' := m.disk[id], AppendRecord(m, key, r).disk[id];
    assert s'.entries[..s.synced] == s.entries[..s.synced];
    SumSet(m.disk, SyncedBag, id, s');
  }

  lemma BufferMirrors(m: Mem, key: BufKey)
    requires BuffersOwn(m) && key in m.buffers
    ensures Mirrors(m.disk, key, m.buffers[key])
    ensures m.buffers[key].seg.value in Owned(m)
  {
    assert Mirrors(m.disk, key, m.buffers[key]);
  }

  lemma AppendFull(m: Mem, ts: seq<Task>, key: BufKey, r: LogRecord, apart: set<nat>)
    requires WellOwned(m, ts) && key in m.buffers && Owned(m) !! apart
    ensures Full(AppendRecord(m, key, r), apart) == Full(m, apart) + multiset{EntryOf(key.group, r)}
  {
    AppendWellOwned(m, ts, key, r);
    hide BuffersOwn, TasksOwn, Owned, Sane;
    BufferMirrors(m, key);
    var n, id := AppendRecord(m, key, r), m.buffers[key].seg.value;
    assert n.disk - apart == (m.disk - apart)[id := n.disk[id]];
    SumSet(m.disk - apart, FullBag(Owned(m)), id, n.disk[id]);
  }

  lemma AppendDurable(m: Mem, ts: seq<Task>, key: BufKey, r: LogRecord, apart: set<nat>)
    requires WellOwned(m, ts) && key in m.buffers && Owned(m) !! apart
    ensures var n := AppendRecord(m, key, r);
            && OnDisk(n.disk) == OnDisk(m.disk)
            && Full(n, apart) == Full(m, apart) + multiset{EntryOf(key.group, r)}
            && n.disk.Keys == m.disk.Keys
  {
    AppendOnDisk(m, ts, key, r);
    AppendFull(m, ts, key, r, apart);
  }

  lemma PushOneDurable(cfg: Config, m: Mem, ts: seq<Task>, group: string, r: LogRecord, now: int, io: Io, apart: set<nat>)
    requires cfg.wal && WellOwned(m, ts) && Owned(m) !! apart && (forall id :: id in apart ==> id < m.nextSeg)
    ensures var p := PushOne(cfg, m, group, r, now, io);
            && WellOwned(p.mem, ts) && p.mem.nextSeg >= m.nextSeg && Owned(p.mem) !! apart
            && OnDisk(p.mem.disk) == OnDisk(m.disk)
            && p.count <= 1 && (p.ok ==> p.count == 1)
            && Full(p.mem, apart) == Full(m, apart) + (if p.count == 1 then multiset{EntryOf(group, r)} else multiset{})
            && m.disk.Keys <= p.mem.disk.Keys
            && p.mem.disk.Keys - m.disk.Keys <= Owned(p.mem) && Owned(m) <= Owned(p.mem)
  {
    hide OpenBuffer, AppendRecord, WellOwned, OnDisk, Full, Owned;
    var key := KeyOf(group, r);
    var o := OpenBuffer(cfg, m, key, r.timestamp, now, io);
    if o.Some? {
      OpenOwns(cfg, m, ts, key, r.timestamp, now, io, apart);
      AppendDurable(o.value, ts, key, r, apart);
      AppendWellOwned(o.value, ts, key, r);
      AppendKeepsNext(o.value, key, r);
    }
  }

  lemma AppendKeepsNext(m: Mem, key: BufKey, r: LogRecord)
    requires key in m.buffers
    ensures AppendRecord(m, key, r).nextSeg == m.nextSeg
  {
  }

  /** A batch leaves what was durable in place and adds its records to the owned segments. */
  lemma {:induction false} PushBatchDurable(cfg: Config, m: Mem, ts: seq<Task>, group: string, rs: seq<LogRecord>, now: int, ios: seq<Io>)
    requires cfg.wal && WellOwned(m, ts)
    ensures var p := PushBatch(cfg, m, group, rs, now, ios);
            && WellOwned(p.mem, ts) && p.mem.nextSeg >= m.nextSeg
            && OnDisk(p.mem.disk) == OnDisk(m.disk)
            && p.count <= |rs| && (p.ok ==> p.count == |rs|)
            && Full(p.mem, {}) == Full(m, {}) + Prefix(group, rs, p.count)
    decreases |rs|
  {
    hide PushOne, WellOwned, OnDisk, Full, Prefix;
    if rs == [] {
      PrefixNone(group, rs);
    } else {
      var io := if ios == [] then Fine else ios[0];
      PushOneDurable(cfg, m, ts, group, rs[0], now, io, {});
      PushOneLive(cfg, m, group, rs[0], now, io);
      var p := PushOne(cfg, m, group, rs[0], now, io);
      if p.ok {
        var rest := if ios == [] then [] else ios[1..];
        PushBatchDurable(cfg, p.mem, ts, group, rs[1..], now, rest);
        PrefixCons(group, rs, PushBatch(cfg, p.mem, group, rs[1..], now, rest).count);
      } else {
        PrefixNone(group, rs);
        PrefixNone(group, rs[1..]);
        PrefixCons(group, rs, 0);
      }
    }
  }

  // ----- fsync -----

  lemma PrefixBag<T>(s: seq<T>, i: nat, j: nat)
    requires i <= j <= |s|
    ensures multiset(s[..i]) <= multiset(s[..j])
  {
    assert s[..j] == s[..i] + s[i..j];
  }

  lemma SyncWellOwned(m: Mem, ts: seq<Task>, ids: set<nat>)
    requires WellOwned(m, ts)
    ensures WellOwned(SyncSegments(m, ids), ts)
  {
    var n := SyncSegments(m, ids);
    forall k | k in n.buffers ensures Mirrors(n.disk, k, n.buffers[k]) {
      assert Mirrors(m.disk, k, m.buffers[k]);
    }
    forall i | 0 <= i < |ts| ensures Mirrors(n.disk, ts[i].key, ts[i].buf) {
      assert Mirrors(m.disk, ts[i].key, ts[i].buf);
    }
  }

  lemma SyncOnDisk(m: Mem, ids: set<nat>)
    requires Sane(m)
    ensures OnDisk(m.disk) <= OnDisk(SyncSegments(m, ids).disk)
  {
    var n := SyncSegments(m, ids);
    forall id | id in m.disk ensures SyncedBag(id, m.disk[id]) <= SyncedBag(id, n.disk[id]) {
      PrefixBag(m.disk[id].entries, m.disk[id].synced, |m.disk[id].entries|);
    }
    SumMono(m.disk, n.disk, SyncedBag);
  }

  lemma SyncGrows(m: Mem, ts: seq<Task>, ids: set<nat>)
    requires WellOwned(m, ts)
    ensures WellOwned(SyncSegments(m, ids), ts)
    ensures OnDisk(m.disk) <= OnDisk(SyncSegments(m, ids).disk)
    ensures Owned(SyncSegments(m, ids)) == Owned(m)
  {
    SyncWellOwned(m, ts, ids);
    SyncOnDisk(m, ids);
    OwnedSame(m, SyncSegments(m, ids));
  }

  /** After a complete fsync everything in owned segments is durable. */
  lemma SyncMakesDurable(m: Mem, ts: seq<Task>, ids: set<nat>, apart: set<nat>)
    requires WellOwned(m, ts) && AllSynced(SyncSegments(m, ids))
    ensures Full(m, apart) <= OnDisk(SyncSegments(m, ids).disk - apart)
  {
    var n := SyncSegments(m, ids);
    var f := FullBag(Owned(m));
    var a, b := m.disk - apart, n.disk - apart;
    forall id | id in a ensures f(id, a[id]) <= SyncedBag(id, b[id]) {
      var s := m.disk[id];
      assert s.entries[..|s.entries|] == s.entries;
      PrefixBag(s.entries, s.synced, |s.entries|);
      if id in Owned(m) {
        var k :| k in m.buffers && m.buffers[k].seg.Some? && m.buffers[k].seg.value == id;
        assert SegmentClean(n, n.buffers[k]);
      }
    }
    SumBelow(a, b, f, SyncedBag);
  }

  lemma {:induction false} SumBelow(
    m: map<nat, Segment>, n: map<nat, Segment>,
    f: (nat, Segment) -> multiset<WalEntry>, g: (nat, Segment) -> multiset<WalEntry>)
    requires m.Keys <= n.Keys && forall k :: k in m ==> f(k, m[k]) <= g(k, n[k])
    ensures Sum(m, f) <= Sum(n, g)
    decreases |m|
  {
    if m != map[] {
      var k := Pick(m);
      Shrinks(m, k);
      SumBelow(m - {k}, n - {k}, f, g);
      SumAt(n, g, k);
    }
  }

  /** A partial fsync loses nothing that a complete one would make durable. */
  lemma SyncKeepsFull(m: Mem, ts: seq<Task>, ids: set<nat>, apart: set<nat>)
    requires WellOwned(m, ts)
    ensures Full(m, apart) <= Full(SyncSegments(m, ids), apart)
  {
    hide BuffersOwn, TasksOwn, Owned;
    var n := SyncSegments(m, ids);
    OwnedSame(m, n);
    var f := FullBag(Owned(m));
    var a, b := m.disk - apart, n.disk - apart;
    forall id | id in a ensures f(id, a[id]) <= f(id, b[id]) {
      PrefixBag(m.disk[id].entries, m.disk[id].synced, |m.disk[id].entries|);
    }
    SumBelow(a, b, f, f);
  }

  /** What is already durable is counted in full. */
  lemma OnDiskBelowFull(m: Mem, ts: seq<Task>)
    requires WellOwned(m, ts)
    ensures OnDisk(m.disk) <= Full(m, {})
  {
    assert m.disk - {} == m.disk;
    forall id | id in m.disk ensures SyncedBag(id, m.disk[id]) <= FullBag(Owned(m))(id, m.disk[id]) {
      var s := m.disk[id];
      assert s.entries[..|s.entries|] == s.entries;
      PrefixBag(s.entries, s.synced, |s.entries|);
    }
    SumBelow(m.disk, m.disk, SyncedBag, FullBag(Owned(m)));
  }

  // ----- Taking, returning and retiring buffers -----

  lemma {:induction false} TakeWellOwned(m: Mem, ts: seq<Task>, keys: seq<BufKey>)
    requires WellOwned(m, ts)
    ensures var t := TakeKeys(m.buffers, keys);
            WellOwned(m.(buffers := t.0), ts + t.1)
    decreases |keys|
  {
    if keys == [] {
      assert ts + [] == ts && m.(buffers := m.buffers) == m;
    } else if keys[0] !in m.buffers {
      TakeWellOwned(m, ts, keys[1..]);
    } else {
      var k, n := keys[0], m.(buffers := m.buffers - {keys[0]});
      var t := Task(k, m.buffers[k], false);
      TakeOneWellOwned(m, ts, k);
      TakeWellOwned(n, ts + [t], keys[1..]);
      assert ts + [t] + TakeKeys(n.buffers, keys[1..]).1 == ts + TakeKeys(m.buffers, keys).1;
    }
  }

  lemma TakeOneWellOwned(m: Mem, ts: seq<Task>, k: BufKey)
    requires WellOwned(m, ts) && k in m.buffers
    ensures WellOwned(m.(buffers := m.buffers - {k}), ts + [Task(k, m.buffers[k], false)])
  {
    var n, us := m.(buffers := m.buffers - {k}), ts + [Task(k, m.buffers[k], false)];
    forall i | 0 <= i < |us| ensures Mirrors(n.disk, us[i].key, us[i].buf) {
      assert i < |ts| ==> Mirrors(m.disk, ts[i].key, ts[i].buf);
    }
    forall j, i | j in n.buffers && 0 <= i < |us| ensures n.buffers[j].seg != us[i].buf.seg {
      assert i < |ts| ==> us[i] == ts[i];
    }
    forall i, j | 0 <= i < j < |us| ensures us[i].buf.seg != us[j].buf.seg {
      assert us[i] == ts[i];
      assert j < |ts| ==> us[j] == ts[j];
    }
  }

  lemma DropTaskWellOwned(m: Mem, ts: seq<Task>, i: nat)
    requires WellOwned(m, ts) && i < |ts|
    ensures WellOwned(m, Without(ts, i))
  {
    var us := Without(ts, i);
    forall j | 0 <= j < |us| ensures us[j] == ts[if j < i then j else j + 1] {
    }
  }

  lemma ReturnWellOwned(cfg: Config, m: Mem, ts: seq<Task>, i: nat, encoded: bool)
    requires WellOwned(m, ts) && i < |ts|
    ensures WellOwned(Reinsert(cfg, m, ts[i].key, ts[i].buf, encoded), Without(ts, i))
    ensures Reinsert(cfg, m, ts[i].key, ts[i].buf, encoded).disk == m.disk
  {
    var t := ts[i];
    DropTaskWellOwned(m, ts, i);
    assert Mirrors(m.disk, t.key, t.buf);
    if t.key !in m.buffers {
      var n := m.(buffers := m.buffers[t.key := t.buf]);
      var us := Without(ts, i);
      assert BuffersOwn(n);
      forall j | 0 <= j < |us| ensures us[j] == ts[if j < i then j else j + 1] && us[j].buf.seg != t.buf.seg {
      }
      forall k, j | k in n.buffers && 0 <= j < |us| ensures n.buffers[k].seg != us[j].buf.seg {
      }
    }
  }

  lemma DeleteWellOwned(m: Mem, ts: seq<Task>, i: nat)
    requires WellOwned(m, ts) && i < |ts|
    ensures WellOwned(m.(disk := DropSegment(m.disk, ts[i].buf.seg)), Without(ts, i))
    ensures OnDisk(m.disk) <= TaskBag(ts[i]) + OnDisk(DropSegment(m.disk, ts[i].buf.seg))
  {
    var t, us := ts[i], Without(ts, i);
    assert Mirrors(m.disk, t.key, t.buf);
    var id := t.buf.seg.value;
    var n := m.(disk := m.disk - {id});
    DropTaskWellOwned(m, ts, i);
    forall k | k in n.buffers ensures Mirrors(n.disk, k, n.buffers[k]) {
      assert Mirrors(m.disk, k, m.buffers[k]);
      assert m.buffers[k].seg != ts[i].buf.seg;
    }
    forall j | 0 <= j < |us| ensures Mirrors(n.disk, us[j].key, us[j].buf) {
      var o := if j < i then j else j + 1;
      assert us[j] == ts[o] && Mirrors(m.disk, ts[o].key, ts[o].buf);
      assert ts[o].buf.seg != ts[i].buf.seg;
    }
    SumAt(m.disk, SyncedBag, id);
    var s := m.disk[id];
    assert s.entries[..|s.entries|] == s.entries;
    PrefixBag(s.entries, s.synced, |s.entries|);
  }

  /** Removing a segment that nobody owns. */
  lemma ForgetWellOwned(m: Mem, ts: seq<Task>, id: nat)
    requires WellOwned(m, ts) && ts == [] && id !in Owned(m)
    ensures WellOwned(m.(disk := m.disk - {id}), ts)
  {
    var n := m.(disk := m.disk - {id});
    forall k | k in n.buffers ensures Mirrors(n.disk, k, n.buffers[k]) {
      assert Mirrors(m.disk, k, m.buffers[k]);
      assert m.buffers[k].seg.value in Owned(m);
    }
  }

  // ----- The invariant -----

  ghost predicate Durable(s: State) {
    s.acked <= s.retired + OnDisk(s.mem.disk)
  }

  ghost predicate AllDurable(disk: map<nat, Segment>) {
    forall id :: id in disk ==> disk[id].synced == |disk[id].entries|
  }

  ghost predicate ModeInv(s: State) {
    match s.mode
    case Down => s.mem.buffers == map[] && s.inflight == [] && AllDurable(s.mem.disk)
    case Serving => true
    case Replaying(prior, todo, deleting) =>
      && s.inflight == [] && Owned(s.mem) !! prior
      && (forall id :: id in prior ==> id < s.mem.nextSeg)
      && s.mem.disk.Keys - prior <= Owned(s.mem)
      && (!deleting ==> s.acked <= s.retired + multiset(todo) + Full(s.mem, prior))
      && (deleting ==> todo == [] && s.acked <= s.retired + OnDisk(s.mem.disk - prior))
  }

  ghost predicate Inv(s: State) {
    && WellOwned(s.mem, s.inflight)
    && (forall id :: id in s.graveyard ==> id < s.mem.nextSeg)
    && s.retired + Stored(s.inflight) <= s.put
    && Durable(s)
    && ModeInv(s)
  }

  lemma PushKeepsInv(cfg: Config, s: State, l: Label)
    requires cfg.wal && Inv(s) && l.Push? && Enabled(cfg, s, l)
    ensures Inv(Apply(cfg, s, l))
  {
    hide WellOwned, OnDisk, Full, PushBatch, SyncSegments, TakeKeys, Prefix, ModeInv, AllSynced, Stored, EntriesOf;
    ServingMode(Apply(cfg, s, l));
    PushBatchDurable(cfg, s.mem, s.inflight, l.group, l.recs, l.now, l.ios);
    var p := PushBatch(cfg, s.mem, l.group, l.recs, l.now, l.ios);
    if p.ok {
      var m := SyncSegments(p.mem, l.synced);
      SyncGrows(p.mem, s.inflight, l.synced);
      SyncKeepsNext(p.mem, l.synced);
      if AllSynced(m) {
        SyncMakesDurable(p.mem, s.inflight, l.synced, {});
        OnDiskBelowFull(s.mem, s.inflight);
        PrefixWhole(l.group, l.recs);
        assert m.disk - {} == m.disk;
        TakeWellOwned(m, s.inflight, l.due);
        TakeConserves(m.buffers, l.due);
        TasksAppend(s.inflight, TakeKeys(m.buffers, l.due).1);
      }
    }
  }

  lemma SyncKeepsNext(m: Mem, ids: set<nat>)
    ensures SyncSegments(m, ids).nextSeg == m.nextSeg && SyncSegments(m, ids).disk.Keys == m.disk.Keys
    ensures SyncSegments(m, ids).buffers == m.buffers
  {
  }

  lemma TakeKeepsInv(cfg: Config, s: State, l: Label)
    requires cfg.wal && Inv(s) && Enabled(cfg, s, l) && l.Take?
    ensures Inv(Apply(cfg, s, l))
  {
    hide WellOwned, OnDisk, TakeKeys, Stored, ModeInv;
    TakeWellOwned(s.mem, s.inflight, l.due);
    TakeConserves(s.mem.buffers, l.due);
    TasksAppend(s.inflight, TakeKeys(s.mem.buffers, l.due).1);
    ServingMode(Apply(cfg, s, l));
  }

  lemma PutOkKeepsInv(cfg: Config, s: State, l: Label)
    requires cfg.wal && Inv(s) && Enabled(cfg, s, l) && l.PutOk?
    ensures Inv(Apply(cfg, s, l))
  {
    hide WellOwned, OnDisk, Stored, TaskBag, ModeInv;
    StoreTask(s.inflight, l.task);
    MarkWellOwned(s.mem, s.inflight, l.task);
    ServingMode(Apply(cfg, s, l));
  }

  lemma FlushFailedKeepsInv(cfg: Config, s: State, l: Label)
    requires cfg.wal && Inv(s) && Enabled(cfg, s, l) && l.FlushFailed?
    ensures Inv(Apply(cfg, s, l))
  {
    hide WellOwned, OnDisk, Reinsert, Stored, TaskBag, ModeInv, MergeLoses;
    ReturnWellOwned(cfg, s.mem, s.inflight, l.task, l.encoded);
    RemoveTask(s.inflight, l.task);
    ReinsertKeepsNext(cfg, s.mem, s.inflight[l.task].key, s.inflight[l.task].buf, l.encoded);
    ServingMode(Apply(cfg, s, l));
  }

  lemma ServingMode(s: State)
    ensures s.mode.Serving? ==> ModeInv(s)
  {
  }

  lemma ReinsertKeepsNext(cfg: Config, m: Mem, k: BufKey, b: Buf, encoded: bool)
    ensures Reinsert(cfg, m, k, b, encoded).nextSeg == m.nextSeg
  {
  }

  lemma MarkWellOwned(m: Mem, ts: seq<Task>, i: nat)
    requires WellOwned(m, ts) && i < |ts|
    ensures WellOwned(m, ts[i := ts[i].(stored := true)])
  {
    var us := ts[i := ts[i].(stored := true)];
    assert forall j :: 0 <= j < |us| ==> us[j].buf == ts[j].buf && us[j].key == ts[j].key;
  }

  lemma RetireKeepsInv(cfg: Config, s: State, l: Label)
    requires cfg.wal && Inv(s) && l.Retire? && Enabled(cfg, s, l)
    ensures Inv(Apply(cfg, s, l))
  {
    hide OnDisk, Stored, TaskBag, ModeInv, WellOwned, Bury, DropSegment, Without;
    ServingMode(Apply(cfg, s, l));
    var i := l.task;
    BuryBounded(s.mem, s.graveyard, s.inflight, i);
    DeleteWellOwned(s.mem, s.inflight, i);
    DropTaskWellOwned(s.mem, s.inflight, i);
    RemoveTask(s.inflight, i);
    EmptyBag(s.inflight[i]);
    RetireBags(s.put, s.acked, s.retired, TaskBag(s.inflight[i]), Stored(Without(s.inflight, i)), OnDisk(s.mem.disk), OnDisk(Apply(cfg, s, l).mem.disk));
  }

  lemma RetireBags(
    put: multiset<WalEntry>, acked: multiset<WalEntry>, retired: multiset<WalEntry>, bag: multiset<WalEntry>, stored: multiset<WalEntry>,
    disk: multiset<WalEntry>, left: multiset<WalEntry>)
    requires retired + (stored + bag) <= put && acked <= retired + disk && disk <= bag + left
    ensures retired + bag + stored <= put && acked <= retired + bag + left
  {
  }

  lemma BuryBounded(m: Mem, graveyard: map<nat, Segment>, ts: seq<Task>, i: nat)
    requires WellOwned(m, ts) && i < |ts| && forall id :: id in graveyard ==> id < m.nextSeg
    ensures forall id :: id in Bury(graveyard, m.disk, ts[i].buf.seg) ==> id < m.nextSeg
  {
  }

  lemma EmptyBag(t: Task)
    ensures t.stored || t.buf.records == [] ==> Finished(t) == TaskBag(t)
  {
  }

  lemma CrashOnDisk(m: Mem, graveyard: map<nat, Segment>, keep: map<nat, nat>, revived: set<nat>)
    requires Sane(m) && LegalCrash(m.disk, graveyard, keep, revived)
    ensures OnDisk(m.disk) <= OnDisk(AfterCrash(m.disk, graveyard, keep, revived))
  {
    var after := AfterCrash(m.disk, graveyard, keep, revived);
    forall id | id in m.disk ensures SyncedBag(id, m.disk[id]) <= SyncedBag(id, after[id]) {
      var e, k := m.disk[id].entries, keep[id];
      assert e[..k][..k] == e[..k];
      PrefixBag(e, m.disk[id].synced, k);
    }
    SumMono(m.disk, after, SyncedBag);
  }

  lemma CrashKeepsInv(cfg: Config, s: State, l: Label)
    requires cfg.wal && Inv(s) && l.Crash? && Enabled(cfg, s, l)
    ensures Inv(Apply(cfg, s, l))
  {
    hide BuffersOwn, TasksOwn, OnDisk, Stored;
    CrashOnDisk(s.mem, s.graveyard, l.keep, l.revived);
    var t := Apply(cfg, s, l);
    NothingOwned(t.mem);
    NothingStored();
  }

  lemma NothingOwned(m: Mem)
    requires m.buffers == map[]
    ensures BuffersOwn(m) && TasksOwn(m, []) && Owned(m) == {}
  {
  }

  lemma NothingStored()
    ensures Stored([]) == multiset{}
  {
  }

  lemma BootKeepsInv(cfg: Config, s: State, l: Label)
    requires cfg.wal && Inv(s) && l.Boot? && Enabled(cfg, s, l)
    ensures Inv(Apply(cfg, s, l))
  {
    var t := Apply(cfg, s, l);
    assert Owned(s.mem) == {};
    forall id | id in s.mem.disk ensures SyncedBag(id, s.mem.disk[id]) == EntryBag(id, s.mem.disk[id]) {
      var e := s.mem.disk[id].entries;
      assert e[..|e|] == e;
    }
    SumAgree(s.mem.disk, SyncedBag, EntryBag);
    assert s.mem.disk - s.mem.disk.Keys == map[];
  }

  lemma ReplayOneKeepsInv(cfg: Config, s: State, l: Label)
    requires cfg.wal && Inv(s) && Enabled(cfg, s, l) && l.ReplayOne?
    ensures Inv(Apply(cfg, s, l))
  {
    hide WellOwned, OnDisk, Full, PushOne, Owned, Stored;
    var e, prior := s.mode.todo[0], s.mode.prior;
    assert EntryOf(e.logGroup, RecordOf(e)) == e;
    PushOneDurable(cfg, s.mem, s.inflight, e.logGroup, RecordOf(e), l.now, l.io, prior);
    var p := PushOne(cfg, s.mem, e.logGroup, RecordOf(e), l.now, l.io);
    if p.ok {
      MoveEntry(s.acked, s.retired, s.mode.todo, Full(s.mem, prior), Full(p.mem, prior));
    } else {
      assert Full(s.mem, prior) <= Full(p.mem, prior);
      KeepEntry(s.acked, s.retired + multiset(s.mode.todo), Full(s.mem, prior), Full(p.mem, prior));
    }
  }

  lemma KeepEntry(acked: multiset<WalEntry>, rest: multiset<WalEntry>, full: multiset<WalEntry>, after: multiset<WalEntry>)
    requires full <= after
    ensures acked <= rest + full ==> acked <= rest + after
  {
  }

  lemma MoveEntry(acked: multiset<WalEntry>, retired: multiset<WalEntry>, todo: seq<WalEntry>, full: multiset<WalEntry>, after: multiset<WalEntry>)
    requires todo != [] && acked <= retired + multiset(todo) + full && after == full + multiset{todo[0]}
    ensures acked <= retired + multiset(todo[1..]) + after
  {
    assert todo == [todo[0]] + todo[1..];
  }

  lemma ReplaySyncKeepsInv(cfg: Config, s: State, l: Label)
    requires cfg.wal && Inv(s) && Enabled(cfg, s, l) && l.ReplaySync?
    ensures Inv(Apply(cfg, s, l))
  {
    hide WellOwned, OnDisk, Full, SyncSegments, Owned, AllSynced, Stored;
    SyncGrows(s.mem, s.inflight, l.synced);
    SyncKeepsNext(s.mem, l.synced);
    if AllSynced(SyncSegments(s.mem, l.synced)) {
      SyncMakesDurable(s.mem, s.inflight, l.synced, s.mode.prior);
    } else {
      SyncKeepsFull(s.mem, s.inflight, l.synced, s.mode.prior);
    }
  }

  lemma ReplayDeleteKeepsInv(cfg: Config, s: State, l: Label)
    requires cfg.wal && Inv(s) && Enabled(cfg, s, l) && l.ReplayDelete?
    ensures Inv(Apply(cfg, s, l))
  {
    hide WellOwned, Owned, Stored, Full, Sum;
    var prior, n := s.mode.prior, s.mem.disk - {l.id};
    ForgetWellOwned(s.mem, s.inflight, l.id);
    assert n - prior == s.mem.disk - prior;
    SumMono(n - prior, n, SyncedBag);
    OwnedSame(s.mem, s.mem.(disk := n));
    DiskIdsBounded(s.mem, s.inflight, l.id);
  }

  lemma DiskIdsBounded(m: Mem, ts: seq<Task>, id: nat)
    requires WellOwned(m, ts) && id in m.disk
    ensures id < m.nextSeg
  {
  }

  lemma ReplayDoneKeepsInv(cfg: Config, s: State, l: Label)
    requires cfg.wal && Inv(s) && Enabled(cfg, s, l) && l.ReplayDone?
    ensures Inv(Apply(cfg, s, l))
  {
    hide WellOwned, TakeKeys, Stored, OnDisk, Owned, ModeInv, Full, TaskBag;
    ServingMode(Apply(cfg, s, l));
    TakeWellOwned(s.mem, s.inflight, l.due);
    TakeConserves(s.mem.buffers, l.due);
    TasksAppend(s.inflight, TakeKeys(s.mem.buffers, l.due).1);
  }

  /** Every step keeps the invariant. */
  lemma StepKeepsInv(cfg: Config, s: State, l: Label)
    requires cfg.wal && Inv(s) && Enabled(cfg, s, l)
    ensures Inv(Apply(cfg, s, l))
  {
    hide Inv, Enabled, Apply;
    match l {
      case Push(_, _, _, _, _, _) => PushKeepsInv(cfg, s, l);
      case Take(_) => TakeKeepsInv(cfg, s, l);
      case PutOk(_) => PutOkKeepsInv(cfg, s, l);
      case FlushFailed(_, _) => FlushFailedKeepsInv(cfg, s, l);
      case Retire(_, _) => RetireKeepsInv(cfg, s, l);
      case Crash(_, _) => CrashKeepsInv(cfg, s, l);
      case Boot(_) => BootKeepsInv(cfg, s, l);
      case ReplayOne(_, _) => ReplayOneKeepsInv(cfg, s, l);
      case ReplaySync(_) => ReplaySyncKeepsInv(cfg, s, l);
      case ReplayDelete(_) => ReplayDeleteKeepsInv(cfg, s, l);
      case ReplayDone(_) => ReplayDoneKeepsInv(cfg, s, l);
    }
  }

  lemma InitInv()
    ensures Inv(Init())
  {
  }

  lemma {:induction false} RunKeepsInv(cfg: Config, ls: seq<Label>)
    requires cfg.wal && After(cfg, ls).Some?
    ensures Inv(After(cfg, ls).value)
  {
    hide Inv, Enabled, Apply;
    if ls == [] {
      InitInv();
    } else {
      RunKeepsInv(cfg, ls[..|ls| - 1]);
      StepKeepsInv(cfg, After(cfg, ls[..|ls| - 1]).value, ls[|ls| - 1]);
    }
  }

  /**
   * At-least-once: after any run, with crashes anywhere, the acknowledged
   * records (with multiplicity) are within the stored chunks plus the fsynced
   * entries of segments still on disk.
   */
  lemma AcknowledgedNeverLost(cfg: Config, ls: seq<Label>)
    requires cfg.wal && After(cfg, ls).Some?
    ensures var s := After(cfg, ls).value;
            s.acked <= s.put + OnDisk(s.mem.disk)
  {
    RunKeepsInv(cfg, ls);
  }
}
