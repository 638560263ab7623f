/**
 * The protocol with its segment files carried along byte by byte: live segments
 * hold the text of their entries, segments that came through a crash keep
 * whatever bytes it left. Over every run, and whatever a last crash then cuts,
 * the acknowledged records are in stored chunks or in the scan of the files.
 */
module GatewayFiles {
  import opened Common
  import opened Wal
  import opened Bags
  import opened Gateway
  import opened GatewayReplay
  import GatewayDurability

  /** torn holds the bytes of segments that came through a crash, buried the files of deleted ones. */
  datatype Disk = Disk(s: State, torn: map<nat, seq<byte>>, buried: map<nat, File>)

  datatype Move = Plain(l: Label) | ByteCrash(cuts: map<nat, nat>, revived: set<nat>)

  function FileOf(c: EntryCodec, d: Disk, id: nat): File
    requires id in d.s.mem.disk
  {
    var seg := d.s.mem.disk[id];
    if id in d.torn then File(d.torn[id], |d.torn[id]|)
    else File(c.Text(seg.entries), if seg.synced <= |seg.entries| then |c.Text(seg.entries[..seg.synced])| else 0)
  }

  function Files(c: EntryCodec, d: Disk): map<nat, File> {
    map id | id in d.s.mem.disk :: FileOf(c, d, id)
  }

  /** What is replayed is what a scan of the directory's files returns. */
  ghost predicate ScannedFrom(c: EntryCodec, files: map<nat, File>, todo: seq<WalEntry>) {
    exists listing, ids :: ListedAs(c, files, todo, listing, ids)
  }

  ghost predicate ListedAs(c: EntryCodec, files: map<nat, File>, todo: seq<WalEntry>, listing: seq<(string, seq<byte>)>, ids: seq<nat>) {
    && |ids| == |listing| && (forall i, k :: 0 <= i < k < |ids| ==> ids[i] != ids[k])
    && (forall id :: id in files <==> id in ids) && (forall i :: 0 <= i < |ids| ==> listing[i].1 == files[ids[i]].bytes)
    && todo == Scanned(c, listing)
  }

  ghost predicate CanMove(cfg: Config, c: EntryCodec, d: Disk, m: Move) {
    match m
    case Plain(l) =>
      !l.Crash? && (if l.Boot? then d.s.mode.Down? && ScannedFrom(c, Files(c, d), l.todo) else Enabled(cfg, d.s, l))
    case ByteCrash(cuts, revived) =>
      LegalCuts(Files(c, d), cuts) && revived <= d.s.graveyard.Keys - d.s.mem.disk.Keys
  }

  /** Deleted files are remembered, for a crash may bring them back. */
  function BuryFiles(c: EntryCodec, d: Disk, t: State): map<nat, File> {
    map id | id in t.graveyard ::
      if id in d.s.mem.disk && id !in t.mem.disk then FileOf(c, d, id) else if id in d.buried then d.buried[id] else File([], 0)
  }

  ghost predicate Moves(cfg: Config, c: EntryCodec, d: Disk, m: Move, e: Disk) {
    && CanMove(cfg, c, d, m)
    && match m
       case Plain(l) => PlainMove(cfg, c, d, l, e)
       case ByteCrash(cuts, revived) => CrashMove(cfg, c, d, cuts, revived, e)
  }

  ghost predicate PlainMove(cfg: Config, c: EntryCodec, d: Disk, l: Label, e: Disk) {
    && Enabled(cfg, d.s, l) && e.s == Apply(cfg, d.s, l)
    && e.torn == StillTorn(d, e.s)
    && e.buried == BuryFiles(c, d, e.s)
  }

  function StillTorn(d: Disk, t: State): map<nat, seq<byte>> {
    map id | id in d.torn && id in t.mem.disk :: d.torn[id]
  }

  ghost predicate CrashMove(cfg: Config, c: EntryCodec, d: Disk, cuts: map<nat, nat>, revived: set<nat>, e: Disk) {
    && LegalCuts(Files(c, d), cuts) && revived <= d.buried.Keys && (exists keep :: Crashes(cfg, c, d, cuts, revived, keep, e.s))
    && e.torn == BytesOf(CutFiles(Files(c, d), d.buried, cuts, revived)) && e.buried == d.buried
  }

  function BytesOf(files: map<nat, File>): map<nat, seq<byte>> {
    map id | id in files :: files[id].bytes
  }

  /** The machine crashes keeping exactly the entries that the cut files still hold. */
  ghost predicate Crashes(cfg: Config, c: EntryCodec, d: Disk, cuts: map<nat, nat>, revived: set<nat>, keep: map<nat, nat>, t: State) {
    LegalCrash(d.s.mem.disk, d.s.graveyard, keep, revived) && CutsKeep(c, d, cuts, keep) && t == Apply(cfg, d.s, Crash(keep, revived))
  }

  ghost predicate CutsKeep(c: EntryCodec, d: Disk, cuts: map<nat, nat>, keep: map<nat, nat>) {
    && LegalCuts(Files(c, d), cuts) && keep.Keys == d.s.mem.disk.Keys
    && forall id :: id in d.s.mem.disk ==>
         keep[id] <= |d.s.mem.disk[id].entries| && c.Scan(FileOf(c, d, id).bytes[..cuts[id]]) == d.s.mem.disk[id].entries[..keep[id]]
  }

  ghost predicate Run(cfg: Config, c: EntryCodec, ds: seq<Disk>, ms: seq<Move>) {
    && |ds| == |ms| + 1 && ds[0] == Disk(Init(), map[], map[])
    && forall i :: 0 <= i < |ms| ==> Moves(cfg, c, ds[i], ms[i], ds[i + 1])
  }

  // ----- Steps spare the segments that came through a crash -----

  /** No live buffer and no task owns a segment of the set. */
  ghost predicate Apart(b: map<BufKey, Buf>, keep: set<nat>) {
    forall k :: k in b && b[k].seg.Some? ==> b[k].seg.value !in keep
  }

  ghost predicate TasksApart(ts: seq<Task>, keep: set<nat>) {
    forall i :: 0 <= i < |ts| && ts[i].buf.seg.Some? ==> ts[i].buf.seg.value !in keep
  }

  ghost predicate Settled(m: Mem, keep: set<nat>) {
    forall id :: id in keep ==> id < m.nextSeg && (id in m.disk ==> m.disk[id].synced == |m.disk[id].entries|)
  }

  /** Segments of the set are as they were, or gone; no file came or went but for those allowed to go. */
  ghost predicate Spares(m: Mem, n: Mem, keep: set<nat>) {
    && n.nextSeg >= m.nextSeg && m.disk.Keys <= n.disk.Keys
    && forall id :: id in keep && id in n.disk ==> id in m.disk && n.disk[id] == m.disk[id]
  }

  lemma PushOneSpares(cfg: Config, m: Mem, group: string, r: LogRecord, now: int, io: Io, keep: set<nat>)
    requires Apart(m.buffers, keep) && Settled(m, keep)
    ensures var p := PushOne(cfg, m, group, r, now, io);
            Apart(p.mem.buffers, keep) && Settled(p.mem, keep) && Spares(m, p.mem, keep)
  {
  }

  lemma {:induction false} PushBatchSpares(cfg: Config, m: Mem, group: string, rs: seq<LogRecord>, now: int, ios: seq<Io>, keep: set<nat>)
    requires Apart(m.buffers, keep) && Settled(m, keep)
    ensures var p := PushBatch(cfg, m, group, rs, now, ios);
            Apart(p.mem.buffers, keep) && Settled(p.mem, keep) && Spares(m, p.mem, keep)
    decreases |rs|
  {
    hide PushOne;
    if rs != [] {
      var io := if ios == [] then Fine else ios[0];
      PushOneSpares(cfg, m, group, rs[0], now, io, keep);
      var p := PushOne(cfg, m, group, rs[0], now, io);
      if p.ok {
        PushBatchSpares(cfg, p.mem, group, rs[1..], now, if ios == [] then [] else ios[1..], keep);
      }
    }
  }

  lemma SyncSpares(m: Mem, ids: set<nat>, keep: set<nat>)
    requires Apart(m.buffers, keep) && Settled(m, keep)
    ensures var n := SyncSegments(m, ids); Apart(n.buffers, keep) && Settled(n, keep) && Spares(m, n, keep)
  {
  }

  lemma {:induction false} TakeSpares(b: map<BufKey, Buf>, keys: seq<BufKey>, keep: set<nat>)
    requires Apart(b, keep)
    ensures var t := TakeKeys(b, keys); Apart(t.0, keep) && TasksApart(t.1, keep)
  {
    if keys != [] {
      if keys[0] in b {
        TakeSpares(b - {keys[0]}, keys[1..], keep);
      } else {
        TakeSpares(b, keys[1..], keep);
      }
    }
  }

  /** What a step leaves of the segments in the set: unchanged, or removed into the graveyard. */
  ghost predicate StepSpares(s: State, t: State, keep: set<nat>) {
    && Apart(t.mem.buffers, keep) && TasksApart(t.inflight, keep) && Settled(t.mem, keep)
    && (forall id :: id in keep && id in t.mem.disk ==> id in s.mem.disk && t.mem.disk[id] == s.mem.disk[id])
  }

  /** A file is in the graveyard as it was deleted. */
  ghost predicate StepBuries(s: State, t: State) {
    forall id :: id in t.graveyard ==>
      if id in s.mem.disk && id !in t.mem.disk then t.graveyard[id] == s.mem.disk[id] else id in s.graveyard && t.graveyard[id] == s.graveyard[id]
  }

  lemma SparedStep(s: State, t: State, n: Mem, keep: set<nat>)
    requires Spares(s.mem, n, keep) && Settled(n, keep) && t.mem.disk == n.disk && t.mem.nextSeg == n.nextSeg
    requires Apart(t.mem.buffers, keep) && TasksApart(t.inflight, keep) && t.graveyard == s.graveyard
    ensures StepSpares(s, t, keep) && StepBuries(s, t)
  {
    hide Apart, TasksApart;
  }

  lemma SparesTrans(m: Mem, n: Mem, o: Mem, keep: set<nat>)
    requires Spares(m, n, keep) && Spares(n, o, keep)
    ensures Spares(m, o, keep)
  {
  }

  lemma TasksApartAppend(a: seq<Task>, b: seq<Task>, keep: set<nat>)
    requires TasksApart(a, keep) && TasksApart(b, keep)
    ensures TasksApart(a + b, keep)
  {
  }

  lemma PushStepSpares(cfg: Config, s: State, l: Label, keep: set<nat>)
    requires l.Push? && Enabled(cfg, s, l) && Apart(s.mem.buffers, keep) && TasksApart(s.inflight, keep) && Settled(s.mem, keep)
    ensures StepSpares(s, Apply(cfg, s, l), keep) && StepBuries(s, Apply(cfg, s, l))
  {
    assert Apply(cfg, s, l) == ApplyPush(cfg, s, l);
    hide Apply, Enabled, PushBatch, SyncSegments, TakeKeys, Prefix, AllSynced, EntriesOf;
    hide Apart, TasksApart, Settled, Spares, StepSpares, StepBuries;
    var p, t := PushBatch(cfg, s.mem, l.group, l.recs, l.now, l.ios), ApplyPush(cfg, s, l);
    PushBatchSpares(cfg, s.mem, l.group, l.recs, l.now, l.ios, keep);
    if !p.ok {
      SparedStep(s, t, p.mem, keep);
    } else {
      var n := SyncSegments(p.mem, l.synced);
      SyncSpares(p.mem, l.synced, keep);
      SparesTrans(s.mem, p.mem, n, keep);
      TakeSpares(n.buffers, l.due, keep);
      TasksApartAppend(s.inflight, TakeKeys(n.buffers, l.due).1, keep);
      SparedStep(s, t, n, keep);
    }
  }

  lemma ReplayStepSpares(cfg: Config, s: State, l: Label, keep: set<nat>)
    requires (l.ReplayOne? || l.ReplaySync?) && Enabled(cfg, s, l)
    requires Apart(s.mem.buffers, keep) && TasksApart(s.inflight, keep) && Settled(s.mem, keep)
    ensures StepSpares(s, Apply(cfg, s, l), keep) && StepBuries(s, Apply(cfg, s, l))
  {
    hide PushOne, SyncSegments, AllSynced;
    if l.ReplayOne? {
      var e := s.mode.todo[0];
      PushOneSpares(cfg, s.mem, e.logGroup, RecordOf(e), l.now, l.io, keep);
    } else {
      SyncSpares(s.mem, l.synced, keep);
    }
  }

  lemma FlushStepSpares(cfg: Config, s: State, l: Label, keep: set<nat>)
    requires (l.PutOk? || l.FlushFailed? || l.Retire?) && Enabled(cfg, s, l)
    requires Apart(s.mem.buffers, keep) && TasksApart(s.inflight, keep) && Settled(s.mem, keep)
    ensures StepSpares(s, Apply(cfg, s, l), keep) && StepBuries(s, Apply(cfg, s, l))
  {
    hide ChunkOf, ReadBack, MergeLoses, TaskBag;
    var t := Apply(cfg, s, l);
    forall i | 0 <= i < |t.inflight| ensures t.inflight[i].buf.seg.Some? ==> t.inflight[i].buf.seg.value !in keep {
      var k := if l.PutOk? || i < l.task then i else i + 1;
      assert t.inflight[i].buf == s.inflight[k].buf;
    }
    assert s.inflight[l.task].buf.seg.Some? ==> s.inflight[l.task].buf.seg.value !in keep;
  }

  lemma PlainStepSpares(cfg: Config, s: State, l: Label, keep: set<nat>)
    requires !l.Crash? && Enabled(cfg, s, l) && Apart(s.mem.buffers, keep) && TasksApart(s.inflight, keep) && Settled(s.mem, keep)
    ensures StepSpares(s, Apply(cfg, s, l), keep) && StepBuries(s, Apply(cfg, s, l))
  {
    hide TakeKeys, Gateway.Lists;
    match l {
      case Push(_, _, _, _, _, _) => PushStepSpares(cfg, s, l, keep);
      case Take(due) => TakeSpares(s.mem.buffers, due, keep);
      case PutOk(_) => FlushStepSpares(cfg, s, l, keep);
      case FlushFailed(_, _) => FlushStepSpares(cfg, s, l, keep);
      case Retire(_, _) => FlushStepSpares(cfg, s, l, keep);
      case Boot(_) =>
      case ReplayOne(_, _) => ReplayStepSpares(cfg, s, l, keep);
      case ReplaySync(_) => ReplayStepSpares(cfg, s, l, keep);
      case ReplayDelete(_) =>
      case ReplayDone(due) => TakeSpares(s.mem.buffers, due, keep);
    }
  }

  // ----- The files back the machine in every reachable state -----

  /** A torn file scans to its segment, which nobody writes to any more; deleted files scan to what they held. */
  ghost predicate FilesInv(c: EntryCodec, d: Disk) {
    && d.torn.Keys <= d.s.mem.disk.Keys
    && (forall id :: id in d.torn ==> d.s.mem.disk[id] == WholeSegment(c, d.torn[id]))
    && Apart(d.s.mem.buffers, d.torn.Keys) && TasksApart(d.s.inflight, d.torn.Keys)
    && Remembers(c, d.buried, d.s.graveyard)
  }

  function WholeSegment(c: EntryCodec, bytes: seq<byte>): Segment {
    Segment(c.Scan(bytes), |c.Scan(bytes)|)
  }

  ghost predicate DiskInv(c: EntryCodec, d: Disk) {
    GatewayDurability.Inv(d.s) && FilesInv(c, d)
  }

  lemma FileBacks(c: EntryCodec, d: Disk, id: nat)
    requires c.Lawful() && DiskInv(c, d) && id in d.s.mem.disk
    ensures Backs(c, FileOf(c, d, id), d.s.mem.disk[id])
    ensures c.Scan(FileOf(c, d, id).bytes) == d.s.mem.disk[id].entries
  {
    var seg := d.s.mem.disk[id];
    assert seg.synced <= |seg.entries| by {
      assert GatewayDurability.Sane(d.s.mem);
    }
    hide GatewayDurability.Inv, Backs, EntryCodec.Scan, EntryCodec.Text;
    if id in d.torn {
      WholeFileBacks(c, d.torn[id], seg.entries);
    } else {
      LiveFileBacks(c, seg);
      LiveFileScans(c, seg.entries);
    }
  }

  lemma LiveFileScans(c: EntryCodec, es: seq<WalEntry>)
    requires c.Lawful()
    ensures c.Scan(c.Text(es)) == es
  {
    assert es[..0] == [];
    c.TornTailRecovery(es, 0, |c.Text(es)|);
  }

  lemma FilesBack(c: EntryCodec, d: Disk)
    requires c.Lawful() && DiskInv(c, d)
    ensures AllBacked(c, Files(c, d), d.s.mem.disk)
  {
    hide DiskInv, Backs, FileOf;
    forall id | id in d.s.mem.disk ensures Backs(c, Files(c, d)[id], d.s.mem.disk[id]) {
      FileBacks(c, d, id);
    }
  }

  /** A boot on what the scan of the files returns is a boot of the machine. */
  lemma BootIsEnabled(c: EntryCodec, d: Disk, todo: seq<WalEntry>)
    requires c.Lawful() && DiskInv(c, d) && ScannedFrom(c, Files(c, d), todo)
    ensures Lists(d.s.mem.disk, todo)
  {
    hide DiskInv, EntryCodec.Scan, Scanned, Lists, FileOf;
    var listing: seq<(string, seq<byte>)>, ids: seq<nat> :| ListedAs(c, Files(c, d), todo, listing, ids);
    forall id: nat ensures id in d.s.mem.disk <==> id in ids {
      assert id in Files(c, d) <==> id in ids;
    }
    forall i | 0 <= i < |ids| ensures c.Scan(listing[i].1) == d.s.mem.disk[ids[i]].entries {
      assert ids[i] in ids;
      FileBacks(c, d, ids[i]);
    }
    ScanIsTodo(c, listing, ids, d.s.mem.disk);
  }

  /** The entries a byte crash leaves are those of a crash step of the machine. */
  lemma CrashIsEnabled(cfg: Config, c: EntryCodec, d: Disk, cuts: map<nat, nat>, revived: set<nat>) returns (keep: map<nat, nat>)
    requires c.Lawful() && DiskInv(c, d) && CanMove(cfg, c, d, ByteCrash(cuts, revived))
    ensures LegalCrash(d.s.mem.disk, d.s.graveyard, keep, revived)
    ensures Crashes(cfg, c, d, cuts, revived, keep, Apply(cfg, d.s, Crash(keep, revived)))
  {
    hide DiskInv, EntryCodec.Scan, FileOf;
    FilesBack(c, d);
    var files, disk := Files(c, d), d.s.mem.disk;
    forall id | id in disk ensures Recovers(c, files[id], disk[id], cuts[id]) {
      assert Backs(c, files[id], disk[id]);
    }
    hide Recovers, Backs;
    keep := KeptBy(c, files, disk, cuts);
    forall id | id in disk ensures c.Scan(FileOf(c, d, id).bytes[..cuts[id]]) == disk[id].entries[..keep[id]] {
      assert files[id] == FileOf(c, d, id) && Survive(c, files[id], disk[id], cuts[id], keep[id]);
    }
  }

  lemma CrashMovesOn(cfg: Config, c: EntryCodec, d: Disk, cuts: map<nat, nat>, revived: set<nat>) returns (e: Disk)
    requires c.Lawful() && DiskInv(c, d) && CanMove(cfg, c, d, ByteCrash(cuts, revived))
    ensures CrashMove(cfg, c, d, cuts, revived, e)
  {
    var keep := CrashIsEnabled(cfg, c, d, cuts, revived);
    assert d.buried.Keys == d.s.graveyard.Keys;
    hide DiskInv, Apply, Files, CutFiles, BytesOf, Crashes;
    e := Disk(Apply(cfg, d.s, Crash(keep, revived)), BytesOf(CutFiles(Files(c, d), d.buried, cuts, revived)), d.buried);
  }

  /** Every move that can be made leads somewhere: the byte-level machine refuses no crash and no boot. */
  lemma MovesOn(cfg: Config, c: EntryCodec, d: Disk, m: Move) returns (e: Disk)
    requires c.Lawful() && DiskInv(c, d) && CanMove(cfg, c, d, m)
    ensures Moves(cfg, c, d, m, e)
  {
    hide DiskInv, Apply, BuryFiles, StillTorn, CrashMove, ScannedFrom, LegalCuts;
    match m {
      case Plain(l) =>
        if l.Boot? {
          BootIsEnabled(c, d, l.todo);
        }
        var t := Apply(cfg, d.s, l);
        e := Disk(t, StillTorn(d, t), BuryFiles(c, d, t));
      case ByteCrash(cuts, revived) =>
        e := CrashMovesOn(cfg, c, d, cuts, revived);
    }
  }

  lemma TornIsOld(c: EntryCodec, d: Disk)
    requires DiskInv(c, d)
    ensures Settled(d.s.mem, d.torn.Keys)
  {
    assert GatewayDurability.Sane(d.s.mem);
  }

  lemma StepKeepsBuried(c: EntryCodec, d: Disk, t: State)
    requires c.Lawful() && DiskInv(c, d) && StepBuries(d.s, t)
    ensures Remembers(c, BuryFiles(c, d, t), t.graveyard)
  {
    assert Remembers(c, d.buried, d.s.graveyard);
    hide DiskInv, FileOf, EntryCodec.Scan;
    forall id | id in t.graveyard ensures c.Scan(BuryFiles(c, d, t)[id].bytes) == t.graveyard[id].entries {
      if id in d.s.mem.disk && id !in t.mem.disk {
        FileBacks(c, d, id);
      }
    }
  }

  lemma StepKeepsTorn(c: EntryCodec, d: Disk, t: State)
    requires FilesInv(c, d) && StepSpares(d.s, t, d.torn.Keys)
    ensures var torn := StillTorn(d, t);
            && torn.Keys <= t.mem.disk.Keys && (forall id :: id in torn ==> t.mem.disk[id] == WholeSegment(c, torn[id]))
            && Apart(t.mem.buffers, torn.Keys) && TasksApart(t.inflight, torn.Keys)
  {
    hide Remembers, WholeSegment, Settled;
  }

  lemma PlainKeepsFiles(cfg: Config, c: EntryCodec, d: Disk, l: Label, e: Disk)
    requires c.Lawful() && DiskInv(c, d) && !l.Crash? && PlainMove(cfg, c, d, l, e)
    ensures FilesInv(c, e)
  {
    TornIsOld(c, d);
    hide GatewayDurability.Inv, Apply, Enabled, BuryFiles, Remembers, WholeSegment, StepBuries, StepSpares, Settled, StillTorn;
    PlainStepSpares(cfg, d.s, l, d.torn.Keys);
    StepKeepsTorn(c, d, e.s);
    StepKeepsBuried(c, d, e.s);
  }

  lemma CrashLeaves(cfg: Config, s: State, keep: map<nat, nat>, revived: set<nat>)
    requires LegalCrash(s.mem.disk, s.graveyard, keep, revived)
    ensures var t := Apply(cfg, s, Crash(keep, revived));
            && t.mem.disk == AfterCrash(s.mem.disk, s.graveyard, keep, revived)
            && t.mem.buffers == map[] && t.inflight == [] && t.graveyard == s.graveyard
  {
  }

  /** After a byte crash every segment is what its file scans to. */
  ghost predicate AllWhole(c: EntryCodec, disk: map<nat, Segment>, files: map<nat, File>) {
    disk.Keys == files.Keys && forall id :: id in disk ==> disk[id] == WholeSegment(c, files[id].bytes)
  }

  lemma CutsLeaveWhole(c: EntryCodec, d: Disk, cuts: map<nat, nat>, revived: set<nat>, keep: map<nat, nat>)
    requires Remembers(c, d.buried, d.s.graveyard) && CutsKeep(c, d, cuts, keep)
    requires LegalCrash(d.s.mem.disk, d.s.graveyard, keep, revived) && revived <= d.buried.Keys
    ensures AllWhole(c, AfterCrash(d.s.mem.disk, d.s.graveyard, keep, revived), CutFiles(Files(c, d), d.buried, cuts, revived))
  {
    hide EntryCodec.Scan, FileOf;
  }

  lemma CrashKeepsFiles(cfg: Config, c: EntryCodec, d: Disk, cuts: map<nat, nat>, revived: set<nat>, keep: map<nat, nat>, e: Disk)
    requires FilesInv(c, d) && CrashMove(cfg, c, d, cuts, revived, e) && Crashes(cfg, c, d, cuts, revived, keep, e.s)
    ensures FilesInv(c, e)
  {
    CrashLeaves(cfg, d.s, keep, revived);
    hide Apply, Files, CutFiles, AfterCrash, CutsKeep, LegalCuts, LegalCrash, WholeSegment, Remembers;
    CutsLeaveWhole(c, d, cuts, revived, keep);
  }

  lemma MoveKeepsInv(cfg: Config, c: EntryCodec, d: Disk, m: Move, e: Disk)
    requires cfg.wal && c.Lawful() && DiskInv(c, d) && Moves(cfg, c, d, m, e)
    ensures DiskInv(c, e)
  {
    hide GatewayDurability.Inv, FilesInv, Apply, Files, CutFiles, BuryFiles, StillTorn, LegalCuts, LegalCrash, CutsKeep, ScannedFrom;
    match m {
      case Plain(l) =>
        PlainKeepsFiles(cfg, c, d, l, e);
        GatewayDurability.StepKeepsInv(cfg, d.s, l);
      case ByteCrash(cuts, revived) =>
        var keep :| Crashes(cfg, c, d, cuts, revived, keep, e.s);
        CrashKeepsFiles(cfg, c, d, cuts, revived, keep, e);
        GatewayDurability.StepKeepsInv(cfg, d.s, Crash(keep, revived));
    }
  }

  lemma {:induction false} RunKeepsInv(cfg: Config, c: EntryCodec, ds: seq<Disk>, ms: seq<Move>, i: nat)
    requires cfg.wal && c.Lawful() && Run(cfg, c, ds, ms) && i < |ds|
    ensures DiskInv(c, ds[i])
  {
    hide Moves;
    if i == 0 {
      GatewayDurability.InitInv();
    } else {
      hide DiskInv;
      RunKeepsInv(cfg, c, ds, ms, i - 1);
      MoveKeepsInv(cfg, c, ds[i - 1], ms[i - 1], ds[i]);
    }
  }

  /**
   * Byte-level recovery. After any run, files may be cut anywhere past their
   * fsynced bytes, and a gateway that is down may boot on what a scan of the
   * files returns: the run goes on.
   */
  lemma RunGoesOn(cfg: Config, c: EntryCodec, ds: seq<Disk>, ms: seq<Move>, m: Move) returns (e: Disk)
    requires cfg.wal && c.Lawful() && Run(cfg, c, ds, ms) && CanMove(cfg, c, ds[|ms|], m)
    ensures Run(cfg, c, ds + [e], ms + [m])
  {
    hide Moves, CanMove, DiskInv;
    RunKeepsInv(cfg, c, ds, ms, |ms|);
    e := MovesOn(cfg, c, ds[|ms|], m);
    var es, ns := ds + [e], ms + [m];
    forall i | 0 <= i < |ns| ensures Moves(cfg, c, es[i], ns[i], es[i + 1]) {
      assert i < |ms| ==> Moves(cfg, c, ds[i], ms[i], ds[i + 1]);
    }
  }

  // ----- The result -----

  function ScanBag(c: EntryCodec): (nat, File) -> multiset<WalEntry> {
    (id: nat, f: File) => multiset(c.Scan(f.bytes))
  }

  lemma {:induction false} SumMatch<K(!new), V, W, R>(m: map<K, V>, n: map<K, W>, f: (K, V) -> multiset<R>, g: (K, W) -> multiset<R>)
    requires m.Keys == n.Keys && forall k :: k in m ==> f(k, m[k]) == g(k, n[k])
    ensures Sum(m, f) == Sum(n, g)
    decreases |m|
  {
    if m == map[] {
      assert n == map[];
    } else {
      var k := Pick(m);
      Shrinks(m, k);
      SumMatch(m - {k}, n - {k}, f, g);
      SumAt(n, g, k);
    }
  }

  /** The durable entries of segments that are what their files scan to. */
  lemma WholeOnDisk(c: EntryCodec, disk: map<nat, Segment>, files: map<nat, File>)
    requires AllWhole(c, disk, files)
    ensures OnDisk(disk) == Sum(files, ScanBag(c))
  {
    hide EntryCodec.Scan;
    forall id | id in disk ensures SyncedBag(id, disk[id]) == ScanBag(c)(id, files[id]) {
      TakeAll(disk[id].entries);
    }
    SumMatch(disk, files, SyncedBag, ScanBag(c));
  }

  lemma CrashKeepsAcked(cfg: Config, d: Disk, keep: map<nat, nat>, revived: set<nat>)
    requires cfg.wal && GatewayDurability.Inv(d.s) && LegalCrash(d.s.mem.disk, d.s.graveyard, keep, revived)
    ensures var t := Apply(cfg, d.s, Crash(keep, revived)); t.acked == d.s.acked && t.put == d.s.put && t.acked <= t.put + OnDisk(t.mem.disk)
  {
    hide OnDisk, AfterCrash, GatewayDurability.WellOwned, GatewayDurability.ModeInv;
    GatewayDurability.StepKeepsInv(cfg, d.s, Crash(keep, revived));
  }

  /**
   * At-least-once, in bytes. After any run with any number of crashes, cut every
   * segment file once more anywhere past its fsynced bytes and let any deleted
   * files come back: the acknowledged records, with multiplicity, are within the
   * stored chunks plus what a scan of the remaining files returns.
   */
  lemma AcknowledgedSurviveCuts(cfg: Config, c: EntryCodec, ds: seq<Disk>, ms: seq<Move>, cuts: map<nat, nat>, revived: set<nat>)
    requires cfg.wal && c.Lawful() && Run(cfg, c, ds, ms) && CanMove(cfg, c, ds[|ms|], ByteCrash(cuts, revived))
    ensures var d := ds[|ms|];
            && revived <= d.buried.Keys
            && d.s.acked <= d.s.put + Sum(CutFiles(Files(c, d), d.buried, cuts, revived), ScanBag(c))
  {
    var d := ds[|ms|];
    RunKeepsInv(cfg, c, ds, ms, |ms|);
    var keep := CrashIsEnabled(cfg, c, d, cuts, revived);
    assert Remembers(c, d.buried, d.s.graveyard) && LegalCuts(Files(c, d), cuts);
    hide Run, FilesInv, OnDisk, ScanBag, Apply, GatewayDurability.Inv, Sum, AfterCrash, CutFiles, Files, CutsKeep, LegalCuts, LegalCrash;
    CutsLeaveWhole(c, d, cuts, revived, keep);
    WholeOnDisk(c, AfterCrash(d.s.mem.disk, d.s.graveyard, keep, revived), CutFiles(Files(c, d), d.buried, cuts, revived));
    CrashLeaves(cfg, d.s, keep, revived);
    CrashKeepsAcked(cfg, d, keep, revived);
  }
}
