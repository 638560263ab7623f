/**
 * The buffer manager as the code runs it: a locked table of buffers, segment
 * files, and methods for its critical sections. Every method is proved to
 * extend a run of the protocol machine, so what holds of all runs holds of the
 * object; the memory cap is proved here as well.
 */
module BufferManagers {
  import opened Common
  import opened Chunk
  import opened Wal
  import opened Bags
  import opened Gateway
  import opened GatewayReplay
  import GatewayDurability
  import GatewayConservation
  import opened GatewayPlaces

  function LenOf(cfg: Config): (BufKey, Buf) -> nat {
    (k: BufKey, b: Buf) => BufLen(cfg, b)
  }

  class BufferManager {
    const cfg: Config
    var buffers: map<BufKey, Buf>
    var disk: map<nat, Segment>
    var nextSeg: nat
    var lastFlushOk: bool
    /** The protocol state this object is in, and the run that led there. */
    ghost var st: State
    ghost var run: seq<Label>

    ghost predicate Traced()
      reads this`st, this`run
    {
      After(cfg, run) == Some(st)
    }

    ghost predicate Valid()
      reads this
    {
      Traced() && st.mem == Mem(buffers, disk, nextSeg)
    }

    /** Total uncompressed bytes buffered. */
    ghost function Total(): nat
      reads this
    {
      SumNat(buffers, LenOf(cfg))
    }

    /** A process start: no buffers, the segment files an earlier run left, names not yet used. */
    constructor (c: Config, files: map<nat, Segment>, fresh0: nat, ghost past: seq<Label>)
      requires After(c, past).Some?
      requires After(c, past).value.mode.Down? && After(c, past).value.mem == Mem(map[], files, fresh0)
      ensures Valid() && cfg == c && run == past && st.mode.Down? && lastFlushOk
    {
      cfg := c;
      buffers, disk, nextSeg, lastFlushOk := map[], files, fresh0, true;
      st, run := After(c, past).value, past;
    }

    ghost method Step(l: Label)
      requires Traced() && Enabled(cfg, st, l)
      modifies this`st, this`run
      ensures Traced() && st == Apply(cfg, old(st), l) && run == old(run) + [l]
    {
      hide Enabled, Apply;
      AfterStep(cfg, run, l);
      st := Apply(cfg, st, l);
      run := run + [l];
    }

    method BufferedTotal() returns (n: nat)
      ensures n == Total()
    {
      n := 0;
      var rest := buffers;
      while rest != map[]
        invariant n + SumNat(rest, LenOf(cfg)) == Total()
        decreases |rest|
      {
        var k :| k in rest;
        SumNatAt(rest, LenOf(cfg), k);
        Shrinks(rest, k);
        n := n + BufLen(cfg, rest[k]);
        rest := rest - {k};
      }
    }

    /** A key whose buffer is the largest; None when there is no buffer. */
    method Largest() returns (key: Option<BufKey>)
      ensures key.None? <==> buffers == map[]
      ensures key.Some? ==> key.value in buffers
      ensures key.Some? ==> forall k :: k in buffers ==> BufLen(cfg, buffers[k]) <= BufLen(cfg, buffers[key.value])
    {
      key := None;
      var rest := buffers.Keys;
      while rest != {}
        invariant rest <= buffers.Keys
        invariant key.None? <==> rest == buffers.Keys
        invariant key.Some? ==> key.value in buffers
        invariant key.Some? ==> forall k :: k in buffers && k !in rest ==> BufLen(cfg, buffers[k]) <= BufLen(cfg, buffers[key.value])
        decreases |rest|
      {
        var k :| k in rest;
        rest := rest - {k};
        if key.None? || BufLen(cfg, buffers[k]) >= BufLen(cfg, buffers[key.value]) {
          key := Some(k);
        }
      }
    }

    /** Append one record to its buffer, creating buffer and segment on first touch; the log line goes first. */
    method PushRecord(group: string, r: LogRecord, now: int, io: Io) returns (ok: bool)
      modifies this`buffers, this`disk, this`nextSeg
      ensures var p := PushOne(cfg, old(Mem(buffers, disk, nextSeg)), group, r, now, io);
              ok == p.ok && Mem(buffers, disk, nextSeg) == p.mem
      ensures var k := BufKey(group, r.timestamp / 86_400_000);
              && (ok ==> k in buffers && buffers[k].records == (if k in old(buffers) then old(buffers)[k].records else []) + [r])
              && (ok && k !in old(buffers) ==> buffers[k].firstTs == r.timestamp && buffers[k].openedAt == now)
              && (ok && k in old(buffers) ==> buffers[k].firstTs == old(buffers)[k].firstTs && buffers[k].openedAt == old(buffers)[k].openedAt)
              && (forall j :: j != k ==> (j in buffers <==> j in old(buffers)) && (j in buffers ==> buffers[j] == old(buffers)[j]))
    {
      var key := KeyOf(group, r);
      if key !in buffers {
        if cfg.wal {
          if io.CreateFails? {
            return false;
          }
          disk := disk[nextSeg := Segment([], 0)];
          buffers := buffers[key := Buf([], r.timestamp, now, Some(nextSeg))];
          nextSeg := nextSeg + 1;
        } else {
          buffers := buffers[key := Buf([], r.timestamp, now, None)];
        }
      }
      var b := buffers[key];
      if b.seg.Some? {
        if io.AppendFails? {
          return false;
        }
        if b.seg.value in disk {
          var s := disk[b.seg.value];
          disk := disk[b.seg.value := s.(entries := s.entries + [EntryOf(group, r)])];
        }
      }
      buffers := buffers[key := b.(records := b.records + [r])];
      return !io.CutFails?;
    }

    /** The push loop of one batch. */
    method PushRecords(group: string, rs: seq<LogRecord>, now: int, ios: seq<Io>) returns (ok: bool)
      modifies this`buffers, this`disk, this`nextSeg
      ensures var p := PushBatch(cfg, old(Mem(buffers, disk, nextSeg)), group, rs, now, ios);
              ok == p.ok && Mem(buffers, disk, nextSeg) == p.mem
    {
      hide PushBatch, PushOne;
      var i := 0;
      ghost var all := PushBatch(cfg, Mem(buffers, disk, nextSeg), group, rs, now, ios);
      TakeAll(rs);
      TakeAll(ios);
      while i < |rs|
        invariant 0 <= i <= |rs|
        invariant var rest := PushBatch(cfg, Mem(buffers, disk, nextSeg), group, rs[i..], now, From(ios, i));
                  rest.ok == all.ok && rest.mem == all.mem
      {
        var io := if i < |ios| then ios[i] else Fine;
        UnfoldBatch(cfg, Mem(buffers, disk, nextSeg), group, rs, now, ios, i);
        var pushed := PushRecord(group, rs[i], now, io);
        if !pushed {
          return false;
        }
        i := i + 1;
      }
      PushNothing(cfg, Mem(buffers, disk, nextSeg), group, now, From(ios, i));
      return true;
    }

    /** Group commit of every dirty segment of a live buffer; stops at the first failing fsync. */
    method SyncWal(failing: set<nat>) returns (ok: bool, ghost ids: set<nat>)
      modifies this`disk
      ensures Mem(buffers, disk, nextSeg) == SyncSegments(old(Mem(buffers, disk, nextSeg)), ids)
      ensures ok <==> AllSynced(Mem(buffers, disk, nextSeg))
    {
      ids := {};
      ghost var was := Mem(buffers, disk, nextSeg);
      SyncNone(was);
      var rest := buffers.Keys;
      while rest != {}
        invariant rest <= buffers.Keys
        invariant Mem(buffers, disk, nextSeg) == SyncSegments(was, ids)
        invariant forall k :: k in buffers && k !in rest ==> SegmentClean(Mem(buffers, disk, nextSeg), buffers[k])
        decreases |rest|
      {
        var k :| k in rest;
        rest := rest - {k};
        var seg := buffers[k].seg;
        if seg.Some? && seg.value in disk && disk[seg.value].synced != |disk[seg.value].entries| {
          if seg.value in failing {
            assert !SegmentClean(Mem(buffers, disk, nextSeg), buffers[k]);
            return false, ids;
          }
          disk := disk[seg.value := Flushed(disk[seg.value])];
          ids := ids + {seg.value};
        }
      }
      return true, ids;
    }

    /** Remove and return every buffer matching pred. */
    method TakeMatching(pred: Buf -> bool) returns (due: seq<Task>, ghost keys: seq<BufKey>)
      modifies this`buffers
      ensures (buffers, due) == TakeKeys(old(buffers), keys)
      ensures forall k :: k in buffers <==> k in old(buffers) && !pred(old(buffers)[k])
      ensures forall k :: k in buffers ==> buffers[k] == old(buffers)[k]
    {
      due, keys := [], [];
      var rest := buffers.Keys;
      while rest != {}
        invariant rest <= buffers.Keys
        invariant (buffers, due) == TakeKeys(old(buffers), keys)
        invariant forall k :: k in buffers <==> k in old(buffers) && (k in rest || !pred(old(buffers)[k]))
        invariant forall k :: k in buffers ==> buffers[k] == old(buffers)[k]
        decreases |rest|
      {
        var k :| k in rest;
        rest := rest - {k};
        if pred(buffers[k]) {
          TakeOneMore(old(buffers), keys, k);
          due := due + [Task(k, buffers[k], false)];
          buffers := buffers - {k};
          keys := keys + [k];
        }
      }
    }

    /** Flush-largest loop: take buffers until the real total is within the cap. */
    method TakeUntilWithinCap(due0: seq<Task>, ghost base: map<BufKey, Buf>, ghost keys0: seq<BufKey>)
      returns (due: seq<Task>, ghost keys: seq<BufKey>)
      requires (buffers, due0) == TakeKeys(base, keys0)
      modifies this`buffers
      ensures (buffers, due) == TakeKeys(base, keys)
      ensures Total() <= cfg.maxBuffered
      ensures forall k :: k in buffers ==> k in old(buffers) && buffers[k] == old(buffers)[k]
    {
      due, keys := due0, keys0;
      var total := BufferedTotal();
      while total > cfg.maxBuffered
        invariant total == Total()
        invariant (buffers, due) == TakeKeys(base, keys)
        invariant forall k :: k in buffers ==> k in old(buffers) && buffers[k] == old(buffers)[k]
        decreases |buffers|
      {
        var key := Largest();
        if key.None? {
          break;
        }
        TakeOneMore(base, keys, key.value);
        Shrinks(buffers, key.value);
        due := due + [Task(key.value, buffers[key.value], false)];
        buffers := buffers - {key.value};
        keys := keys + [key.value];
        total := BufferedTotal();
      }
    }

    /**
     * The locked section of a batch push: append, fsync, take what is due.
     * It is one step of the machine; when it succeeds the batch is
     * acknowledged, no buffer is over the flush threshold and the total is
     * within the cap.
     */
    method PushSection(group: string, rs: seq<LogRecord>, now: int, ios: seq<Io>, failing: set<nat>)
      returns (ok: bool, due: seq<Task>, ghost l: Label)
      requires Valid() && st.mode.Serving? && forall r :: r in rs ==> r.eventId == None
      modifies this`buffers, this`disk, this`nextSeg, this`st, this`run
      ensures Valid() && st.mode.Serving? && l.Push? && l.group == group && l.recs == rs
      ensures Enabled(cfg, old(st), l) && st == Apply(cfg, old(st), l) && run == old(run) + [l]
      ensures st.acked == old(st).acked + (if ok then multiset(EntriesOf(group, rs)) else multiset{})
      ensures ok ==> st.appended == old(st).appended + multiset(EntriesOf(group, rs))
      ensures ok ==> Total() <= cfg.maxBuffered
      ensures ok ==> forall k :: k in buffers ==> BufLen(cfg, buffers[k]) < cfg.flushBytes
      ensures st.inflight == old(st).inflight + due && forall i :: 0 <= i < |due| ==> !due[i].stored
      ensures Vacated(buffers, due) && (ok ==> forall r :: r in rs ==> HasPlace(st, group, r))
    {
      hide PushBatch, TakeKeys, SyncSegments, AllSynced, EntriesOf, Prefix, BufLen, After, HasPlace;
      due := [];
      ghost var ids: set<nat> := {};
      ghost var keys: seq<BufKey> := [];
      l := Push(group, rs, now, ios, {}, []);
      var pushed := PushRecords(group, rs, now, ios);
      if !pushed {
        Step(l);
        return false, [], l;
      }
      var synced;
      synced, ids := SyncWal(failing);
      if !synced {
        l := Push(group, rs, now, ios, ids, []);
        Step(l);
        return false, [], l;
      }
      ghost var base := buffers;
      var flushBytes, c := cfg.flushBytes, cfg;
      due, keys := TakeMatching((b: Buf) => BufLen(c, b) >= flushBytes);
      due, keys := TakeUntilWithinCap(due, base, keys);
      l := Push(group, rs, now, ios, ids, keys);
      TakeBounds(base, keys);
      TakePlaces(base, keys);
      forall r | r in rs ensures HasPlace(Apply(cfg, st, l), group, r) {
        AcceptedHasPlace(cfg, st, l, r);
      }
      Step(l);
      return true, due, l;
    }

    /**
     * One flush, after its PUT has answered: an empty writer or a stored chunk
     * retires the segment, a failed encode or PUT puts the buffer back. It completes
     * task i with steps of the machine.
     */
    method FlushOne(t: Task, ghost i: nat, answer: Answer, deleteOk: bool) returns (ok: bool)
      requires Valid() && st.mode.Serving? && i < |st.inflight| && st.inflight[i] == t && !t.stored
      modifies this`buffers, this`disk, this`st, this`run
      ensures Valid() && ok == (t.buf.records == [] || answer.Done?)
      ensures t.buf.records == [] ==> st == Apply(cfg, old(st), Retire(i, deleteOk))
      ensures t.buf.records != [] && !answer.Done? ==> st == Apply(cfg, old(st), FlushFailed(i, answer.Refused?))
      ensures t.buf.records != [] && answer.Done? ==>
                st == Apply(cfg, Apply(cfg, old(st), PutOk(i)), Retire(i, deleteOk))
      ensures st.inflight == Without(old(st).inflight, i) && st.mode == old(st).mode
      ensures ok ==> buffers == old(buffers)
      ensures st.appended == old(st).appended && st.acked == old(st).acked
      ensures Quiet(run, old(run))
    {
      hide PushAll, Encode, Reinsert, MergeLoses, After, TaskBag, ChunkOf;
      EmptyEncodesToNothing(cfg, t.buf);
      var chunk := ChunkOf(cfg, t.buf);
      if chunk.None? || answer.Done? {
        if deleteOk && t.buf.seg.Some? {
          disk := disk - {t.buf.seg.value};
        }
        if chunk.None? {
          Step(Retire(i, deleteOk));
        } else {
          Step(PutOk(i));
          assert Without(st.inflight, i) == Without(old(st).inflight, i);
          Step(Retire(i, deleteOk));
        }
        return true;
      }
      ReturnBuffer(t.key, t.buf, answer.Refused?);
      Step(FlushFailed(i, answer.Refused?));
      return false;
    }

    /** A failed flush comes back to the table; encoded tells whether there is a chunk to merge from. */
    method ReturnBuffer(key: BufKey, b: Buf, encoded: bool)
      modifies this`buffers
      ensures Mem(buffers, disk, nextSeg) == Reinsert(cfg, old(Mem(buffers, disk, nextSeg)), key, b, encoded)
      ensures key !in old(buffers) ==> buffers == old(buffers)[key := b]
      ensures key in old(buffers) && b.seg.None? ==> key in buffers && Covers(old(buffers)[key], b, buffers[key])
    {
      hide PushAll, Encode, ReadBack;
      if key !in buffers {
        buffers := buffers[key := b];
      } else if b.seg.None? {
        var dst := buffers[key];
        dst := dst.(openedAt := Min(dst.openedAt, b.openedAt), firstTs := Min(dst.firstTs, b.firstTs));
        var chunk := ChunkOf(cfg, b);
        var merged := if chunk.Some? && encoded then ReadBack(cfg.codec, chunk.value) else None;
        if merged.Some? {
          dst := dst.(records := dst.records + merged.value);
        }
        buffers := buffers[key := dst];
      }
    }

    /** Flush taken buffers one after another; every one is attempted, and the last outcome sets the ready bit. */
    method FlushTaken(due: seq<Task>, ghost before: seq<Task>, puts: seq<Answer>, deletes: seq<bool>) returns (ok: bool)
      requires Valid() && st.mode.Serving? && st.inflight == before + due
      requires |puts| == |due| == |deletes| && forall i :: 0 <= i < |due| ==> !due[i].stored
      modifies this`buffers, this`disk, this`st, this`run, this`lastFlushOk
      ensures Valid() && st.mode.Serving? && st.inflight == before
      ensures Vacated(old(buffers), due) ==> KeepsPlaces(old(st), st)
      ensures ok <==> forall i :: 0 <= i < |due| ==> due[i].buf.records == [] || puts[i].Done?
      ensures lastFlushOk == if due == [] then old(lastFlushOk) else due[|due| - 1].buf.records == [] || puts[|due| - 1].Done?
      ensures ok ==> buffers == old(buffers)
      ensures st.appended == old(st).appended && st.acked == old(st).acked
      ensures Quiet(run, old(run))
    {
      hide Traced, Apply, Enabled, Quiet, HasPlace;
      ok := true;
      QuietSelf(run);
      TakeAll(due);
      for i := 0 to |due|
        invariant Valid() && st.mode.Serving? && st.inflight == before + due[i..]
        invariant ok <==> forall j :: 0 <= j < i ==> due[j].buf.records == [] || puts[j].Done?
        invariant lastFlushOk == if i == 0 then old(lastFlushOk) else due[i - 1].buf.records == [] || puts[i - 1].Done?
        invariant ok ==> buffers == old(buffers)
        invariant Vacated(old(buffers), due) ==> KeepsPlaces(old(st), st) && forall j :: i <= j < |due| ==> due[j].key !in buffers
        invariant st.appended == old(st).appended && st.acked == old(st).acked
        invariant Quiet(run, old(run))
      {
        TaskAt(before, due, i);
        ghost var was, at := run, st;
        var stored := FlushOne(due[i], |before|, puts[i], deletes[i]);
        QuietTrans(old(run), was, run);
        if Vacated(old(buffers), due) {
          OutcomeKeepsPlaces(cfg, at, |before|, puts[i], deletes[i], st);
          KeepsPlacesTrans(old(st), at, st);
        }
        lastFlushOk := stored;
        ok := ok && stored;
      }
    }

    /**
     * Startup replay, with what the scan of the segment files returned: push
     * every entry into fresh buffers and segments, fsync them, and only then
     * remove the old files. A failure leaves every old file in place.
     */
    method ReplaySection(todo: seq<WalEntry>, now: int, ios: seq<Io>, failing: set<nat>, undeletable: set<nat>)
      returns (ok: bool, due: seq<Task>)
      requires Valid() && st.mode.Down? && Lists(disk, todo)
      modifies this`buffers, this`disk, this`nextSeg, this`st, this`run
      ensures Valid() && st.acked == old(st).acked && st.put == old(st).put
      ensures ok ==> st.mode.Serving? && st.appended == old(st).appended + multiset(todo)
      ensures ok ==> st.inflight == old(st).inflight + due && forall i :: 0 <= i < |due| ==> !due[i].stored
      ensures ok ==> old(disk).Keys * disk.Keys <= undeletable
      ensures !ok ==> st.mode.Replaying? && !st.mode.deleting && due == []
      ensures Quiet(run, old(run))
    {
      hide TakeKeys, SyncSegments, AllSynced, BufLen, After, Lists;
      due := [];
      var files := disk.Keys;
      ok := PushBack(todo, now, ios);
      if !ok {
        return;
      }
      ok := SyncBack(files, failing);
      if !ok {
        return;
      }
      DeleteFiles(files, files, undeletable);
      ghost var base := buffers;
      var flushBytes, c := cfg.flushBytes, cfg;
      ghost var keys;
      due, keys := TakeMatching((b: Buf) => BufLen(c, b) >= flushBytes);
      TakeBounds(base, keys);
      Step(ReplayDone(keys));
    }

    /**
     * Startup replay as a whole: scan the segment files, replay what they hold,
     * then flush what is already large enough. On success exactly the scanned
     * entries were appended; whatever happens, every acknowledged record stays
     * recoverable.
     */
    method ReplayWal(
      c: EntryCodec, files: seq<(string, seq<byte>)>, ghost ids: seq<nat>, now: int, ios: seq<Io>, failing: set<nat>, undeletable: set<nat>,
      puts: nat -> Answer, deletes: nat -> bool)
      returns (r: Option<nat>)
      requires Valid() && st.mode.Down? && Directory(c, files, ids, disk)
      modifies this`buffers, this`disk, this`nextSeg, this`st, this`run, this`lastFlushOk
      ensures Valid() && st.acked == old(st).acked
      ensures r.Some? ==> st.mode.Serving? && r.value == |Scanned(c, files)| && st.inflight == old(st).inflight
      ensures r.Some? ==> st.appended == old(st).appended + multiset(Scanned(c, files))
      ensures cfg.wal ==> st.acked <= st.put + OnDisk(disk)
    {
      hide After, Directory, Lists, Scanned, OnDisk, EntryCodec.Scan;
      ScanIsTodo(c, files, ids, disk);
      var todo := ScanAll(c, files);
      var ok, due := ReplaySection(todo, now, ios, failing, undeletable);
      r := None;
      if ok {
        var flushed := FlushTaken(due, old(st).inflight, seq(|due|, (i: nat) => puts(i)), seq(|due|, (i: nat) => deletes(i)));
        if flushed {
          r := Some(|todo|);
        }
      }
      if cfg.wal {
        GatewayDurability.AcknowledgedNeverLost(cfg, run);
      }
    }

    /** Push every scanned entry again. */
    method PushBack(todo: seq<WalEntry>, now: int, ios: seq<Io>) returns (ok: bool)
      requires Valid() && st.mode.Down? && Lists(disk, todo)
      modifies this`buffers, this`disk, this`nextSeg, this`st, this`run
      ensures Valid() && st.acked == old(st).acked && st.put == old(st).put && st.inflight == old(st).inflight
      ensures ok ==> st.mode == Replaying(old(disk).Keys, [], false) && st.appended == old(st).appended + multiset(todo)
      ensures !ok ==> st.mode.Replaying? && !st.mode.deleting
      ensures Quiet(run, old(run))
    {
      ghost var prior := disk.Keys;
      StartReplay(todo);
      hide Traced, Lists, Apply, Enabled, Quiet;
      var rest, i := todo, 0;
      while rest != []
        invariant Valid() && st.mode == Replaying(prior, rest, false)
        invariant i >= 0 && st.inflight == old(st).inflight && st.acked == old(st).acked && st.put == old(st).put
        invariant st.appended + multiset(rest) == old(st).appended + multiset(todo)
        invariant Quiet(run, old(run))
        decreases |rest|
      {
        HeadAndRest(rest);
        ghost var before := run;
        ok := PushBackOne(rest[0], now, if i < |ios| then ios[i] else Fine, rest, prior);
        QuietTrans(old(run), before, run);
        if !ok {
          return false;
        }
        rest, i := rest[1..], i + 1;
      }
      return true;
    }

    ghost method StartReplay(todo: seq<WalEntry>)
      requires Valid() && st.mode.Down? && Lists(disk, todo)
      modifies this`st, this`run
      ensures Valid() && st == old(st).(mode := Replaying(disk.Keys, todo, false)) && Quiet(run, old(run))
    {
      hide Traced, Lists;
      Step(Boot(todo));
    }

    /** Push one scanned entry again: a step of the replay. */
    method PushBackOne(e: WalEntry, now: int, io: Io, ghost todo: seq<WalEntry>, ghost prior: set<nat>) returns (ok: bool)
      requires Valid() && todo != [] && e == todo[0] && st.mode == Replaying(prior, todo, false)
      modifies this`buffers, this`disk, this`nextSeg, this`st, this`run
      ensures Valid() && st.acked == old(st).acked && st.put == old(st).put && st.inflight == old(st).inflight
      ensures ok ==> st.mode == Replaying(prior, todo[1..], false) && st.appended == old(st).appended + multiset{e}
      ensures !ok ==> st.mode == Replaying(prior, todo, false)
      ensures Quiet(run, old(run))
    {
      hide Traced, PushOne;
      ok := PushRecord(e.logGroup, RecordOf(e), now, io);
      Step(ReplayOne(now, io));
    }

    /** fsync the segments the replay wrote. */
    method SyncBack(ghost prior: set<nat>, failing: set<nat>) returns (ok: bool)
      requires Valid() && st.mode == Replaying(prior, [], false)
      modifies this`disk, this`st, this`run
      ensures Valid() && st == old(st).(mem := st.mem, mode := Replaying(prior, [], ok))
      ensures Quiet(run, old(run))
    {
      hide SyncSegments, AllSynced, After;
      ghost var ids;
      ok, ids := SyncWal(failing);
      Step(ReplaySync(ids));
    }

    /** Remove the old segment files; one that cannot be removed stays. */
    method DeleteFiles(files: set<nat>, ghost prior: set<nat>, undeletable: set<nat>)
      requires Valid() && st.mode == Replaying(prior, [], true) && files <= prior
      modifies this`disk, this`st, this`run
      ensures Valid() && files * disk.Keys <= undeletable
      ensures st == old(st).(mem := st.mem, graveyard := st.graveyard)
      ensures Quiet(run, old(run))
    {
      hide After;
      var rest := files;
      while rest != {}
        invariant Valid() && rest <= files && (files - rest) * disk.Keys <= undeletable
        invariant st == old(st).(mem := st.mem, graveyard := st.graveyard)
        invariant Quiet(run, old(run))
        decreases |rest|
      {
        var id :| id in rest;
        rest := rest - {id};
        if id in disk && id !in undeletable {
          disk := disk - {id};
          Step(ReplayDelete(id));
        }
      }
    }

    /** Age sweep: flush every buffer whose first event arrived long enough ago. */
    method SweepExpired(now: int, interval: nat, puts: seq<Answer>, deletes: seq<bool>)
      requires Valid() && st.mode.Serving? && |puts| >= |buffers| && |deletes| >= |buffers|
      modifies this`buffers, this`disk, this`st, this`run, this`lastFlushOk
      ensures Valid() && st.mode.Serving? && st.inflight == old(st).inflight
      ensures (forall i :: 0 <= i < |puts| ==> puts[i].Done?) ==>
                buffers == map k | k in old(buffers) && now - old(buffers)[k].openedAt < interval :: old(buffers)[k]
      ensures st.appended == old(st).appended && st.acked == old(st).acked
    {
      hide After, TakeKeys;
      ghost var was := buffers;
      var due, keys := TakeMatching((b: Buf) => now - b.openedAt >= interval);
      TakeBounds(was, keys);
      Step(Take(keys));
      var ok := FlushTaken(due, old(st).inflight, puts[..|due|], deletes[..|due|]);
    }

    /**
     * Graceful shutdown flush: with every PUT answered Ok nothing stays
     * buffered; with no log and no flush of another task under way, every
     * record ever appended is then stored exactly once.
     */
    method FlushAll(puts: seq<Answer>, deletes: seq<bool>) returns (ok: bool)
      requires Valid() && st.mode.Serving? && |puts| >= |buffers| && |deletes| >= |buffers|
      modifies this`buffers, this`disk, this`st, this`run, this`lastFlushOk
      ensures Valid() && st.mode.Serving? && st.inflight == old(st).inflight
      ensures (forall i :: 0 <= i < |puts| ==> puts[i].Done?) ==> ok
      ensures ok ==> buffers == map[]
      ensures st.appended == old(st).appended && st.acked == old(st).acked
      ensures ok && !cfg.wal && cfg.codec.Lawful() && st.inflight == []
              && GatewayConservation.NoLosingMerge(cfg, run) && (forall i :: 0 <= i < |run| ==> !run[i].Crash?) ==>
                st.put == st.appended
    {
      hide After, TakeKeys, GatewayConservation.NoLosingMerge, Codec.Lawful;
      ghost var was := buffers;
      var due, keys := TakeMatching((b: Buf) => true);
      assert buffers == map[];
      TakeBounds(was, keys);
      Step(Take(keys));
      ok := FlushTaken(due, old(st).inflight, puts[..|due|], deletes[..|due|]);
      if !cfg.wal && cfg.codec.Lawful() && forall i :: 0 <= i < |run| ==> !run[i].Crash? {
        GatewayConservation.RecordsConserved(cfg, run);
      }
    }

    /**
     * Memory-cap admission: accept, or flush the largest buffer and check
     * again. A refusal has appended nothing.
     */
    method Reserve(incoming: nat, answer: Answer, deleteOk: bool) returns (ok: bool)
      requires Valid() && st.mode.Serving?
      modifies this`buffers, this`disk, this`st, this`run, this`lastFlushOk
      ensures Valid() && st.mode.Serving? && st.inflight == old(st).inflight
      ensures ok <==> Total() + incoming <= cfg.maxBuffered
      ensures old(Total()) + incoming <= cfg.maxBuffered ==> st == old(st)
      ensures st.appended == old(st).appended && st.acked == old(st).acked
      ensures Quiet(run, old(run))
    {
      hide Reinsert, MergeLoses, DropSegment, Bury, BufLen, After;
      var total := BufferedTotal();
      if total + incoming <= cfg.maxBuffered {
        return true;
      }
      var key := Largest();
      if key.Some? {
        var t := Task(key.value, buffers[key.value], false);
        TakeOneMore(buffers, [], key.value);
        assert [] + [key.value] == [key.value] && [] + [t] == [t];
        buffers := buffers - {key.value};
        Step(Take([key.value]));
        assert st.inflight == old(st).inflight + [t];
        var stored := FlushTaken([t], old(st).inflight, [answer], [deleteOk]);
      }
      total := BufferedTotal();
      ok := total + incoming <= cfg.maxBuffered;
    }

    /**
     * One PutLogEvents call. Accepted means acknowledged, with the log on
     * durably so; refused for capacity means that no record was appended
     * anywhere; and every call leaves all acknowledged records recoverable.
     */
    method PushEvents(group: string, rs: seq<LogRecord>, incoming: nat, now: int, ios: seq<Io>, failing: set<nat>,
                      room: Answer, puts: nat -> Answer, deletes: nat -> bool)
      returns (r: Outcome)
      requires Valid() && st.mode.Serving? && forall e :: e in rs ==> e.eventId == None
      modifies this`buffers, this`disk, this`nextSeg, this`st, this`run, this`lastFlushOk
      ensures Valid() && st.mode.Serving? && st.inflight == old(st).inflight
      ensures st.acked == old(st).acked + (if r.Accepted? then multiset(EntriesOf(group, rs)) else multiset{})
      ensures r.OverCapacity? ==> st.appended == old(st).appended
      ensures r.Accepted? ==> st.appended == old(st).appended + multiset(EntriesOf(group, rs))
      ensures r.Accepted? ==> forall e :: e in rs ==> HasPlace(st, group, e)
      ensures cfg.wal ==> st.acked <= st.put + OnDisk(disk)
    {
      hide After, PushBatch, TakeKeys, SyncSegments, AllSynced, EntriesOf, Prefix, BufLen, HasPlace;
      var fits := Reserve(incoming, room, deletes(0));
      if !fits {
        r := OverCapacity;
      } else {
        var ok, due, l := PushSection(group, rs, now, ios, failing);
        var answers := seq(|due|, (i: nat) => puts(i));
        var flushed := FlushTaken(due, old(st).inflight, answers, seq(|due|, (i: nat) => deletes(i + 1)));
        r := if ok then Accepted else WalFailed;
      }
      if cfg.wal {
        GatewayDurability.AcknowledgedNeverLost(cfg, run);
      }
    }
  }

  /** The entries of all segment files, in scan order. */
  method ScanAll(c: EntryCodec, files: seq<(string, seq<byte>)>) returns (todo: seq<WalEntry>)
    ensures todo == Scanned(c, files)
  {
    hide EntryCodec.Scan;
    var segments := ScanDir(c, files);
    todo := [];
    for i := 0 to |segments|
      invariant todo == Scanned(c, files[..i])
    {
      TakeSnoc(files, i);
      todo := todo + segments[i].entries;
    }
    TakeAll(files);
  }

  datatype Outcome = Accepted | OverCapacity | WalFailed

  /** The run extends past without pushing a batch or crashing. */
  /** The tasks are of different keys, none of which has a buffer. */
  ghost predicate Vacated(b: map<BufKey, Buf>, due: seq<Task>) {
    && (forall i :: 0 <= i < |due| ==> due[i].key !in b)
    && (forall i, j :: 0 <= i < j < |due| ==> due[i].key != due[j].key)
  }

  /** A merged buffer is as old as the older of the two, and is named after the earlier; it keeps what the live one held. */
  ghost predicate Covers(live: Buf, back: Buf, merged: Buf) {
    && merged.openedAt <= live.openedAt && merged.openedAt <= back.openedAt && merged.openedAt in {live.openedAt, back.openedAt}
    && merged.firstTs <= live.firstTs && merged.firstTs <= back.firstTs && merged.firstTs in {live.firstTs, back.firstTs}
    && live.records <= merged.records && merged.seg == live.seg
  }

  ghost predicate Quiet(run: seq<Label>, past: seq<Label>) {
    past <= run && forall i :: |past| <= i < |run| ==> !run[i].Push? && !run[i].Crash?
  }

  lemma QuietSelf(a: seq<Label>)
    ensures Quiet(a, a)
  {
  }

  lemma TaskAt(before: seq<Task>, due: seq<Task>, i: nat)
    requires i < |due|
    ensures (before + due[i..])[|before|] == due[i] && Without(before + due[i..], |before|) == before + due[i + 1..]
  {
    assert (before + due[i..])[..|before|] == before && (before + due[i..])[|before| + 1..] == due[i + 1..];
  }

  lemma QuietTrans(a: seq<Label>, b: seq<Label>, c: seq<Label>)
    requires Quiet(b, a) && Quiet(c, b)
    ensures Quiet(c, a)
  {
    assert c[..|a|] == b[..|a|];
  }

  // ----- Facts about the machine's functions the methods need -----

  /** The outcomes from position i on. */
  function From(ios: seq<Io>, i: nat): seq<Io> {
    if i <= |ios| then ios[i..] else []
  }

  lemma PushNothing(cfg: Config, m: Mem, group: string, now: int, ios: seq<Io>)
    ensures PushBatch(cfg, m, group, [], now, ios) == Pushed(m, 0, true)
  {
  }

  lemma UnfoldBatch(cfg: Config, m: Mem, group: string, rs: seq<LogRecord>, now: int, ios: seq<Io>, i: nat)
    requires i < |rs|
    ensures var at := PushBatch(cfg, m, group, rs[i..], now, From(ios, i));
            var p := PushOne(cfg, m, group, rs[i], now, if i < |ios| then ios[i] else Fine);
            var rest := PushBatch(cfg, p.mem, group, rs[i + 1..], now, From(ios, i + 1));
            if !p.ok then at.ok == false && at.mem == p.mem else at.ok == rest.ok && at.mem == rest.mem
  {
    hide PushOne;
    var tail := From(ios, i);
    DropOne(rs, i);
    if i < |ios| {
      DropOne(ios, i);
    } else {
      assert tail == [];
    }
  }

  lemma AfterStep(cfg: Config, run: seq<Label>, l: Label)
    requires After(cfg, run).Some? && Enabled(cfg, After(cfg, run).value, l)
    ensures After(cfg, run + [l]) == Some(Apply(cfg, After(cfg, run).value, l))
  {
    hide Enabled, Apply;
    var longer := run + [l];
    assert longer[..|longer| - 1] == run;
  }

  lemma HeadAndRest<T>(s: seq<T>)
    requires s != []
    ensures multiset(s) == multiset{s[0]} + multiset(s[1..])
  {
    assert s == [s[0]] + s[1..];
  }

  lemma DropOne<T>(s: seq<T>, i: nat)
    requires i < |s|
    ensures s[i..] != [] && s[i..][0] == s[i] && s[i..][1..] == s[i + 1..]
  {
  }

  lemma SyncNone(m: Mem)
    ensures SyncSegments(m, {}) == m
  {
    assert SyncSegments(m, {}).disk == m.disk;
  }

  lemma {:induction false} TakeOneMore(b: map<BufKey, Buf>, keys: seq<BufKey>, k: BufKey)
    requires k in TakeKeys(b, keys).0
    ensures k in b && TakeKeys(b, keys).0[k] == b[k]
    ensures TakeKeys(b, keys + [k]) ==
            (TakeKeys(b, keys).0 - {k}, TakeKeys(b, keys).1 + [Task(k, TakeKeys(b, keys).0[k], false)])
    decreases |keys|
  {
    if keys == [] {
      var t := Task(k, b[k], false);
      assert [] + [k] == [k] && [k][1..] == [] && [t] + [] == [] + [t];
    } else {
      assert (keys + [k])[0] == keys[0] && (keys + [k])[1..] == keys[1..] + [k];
      if keys[0] in b {
        TakeOneMore(b - {keys[0]}, keys[1..], k);
        var t := [Task(keys[0], b[keys[0]], false)];
        var r := TakeKeys(b - {keys[0]}, keys[1..]);
        Assoc(t, r.1, [Task(k, r.0[k], false)]);
      } else {
        TakeOneMore(b, keys[1..], k);
      }
    }
  }

  lemma {:induction false} TakeBounds(b: map<BufKey, Buf>, keys: seq<BufKey>)
    ensures |TakeKeys(b, keys).1| <= |b|
    ensures forall i :: 0 <= i < |TakeKeys(b, keys).1| ==> !TakeKeys(b, keys).1[i].stored
    decreases |keys|
  {
    if keys != [] {
      if keys[0] in b {
        Shrinks(b, keys[0]);
        TakeBounds(b - {keys[0]}, keys[1..]);
      } else {
        TakeBounds(b, keys[1..]);
      }
    }
  }

  lemma EmptyEncodesToNothing(cfg: Config, b: Buf)
    ensures ChunkOf(cfg, b).None? <==> b.records == []
  {
    EncodeShape(cfg.codec, cfg.frameTarget, b.records);
  }
}
