/**
 * Attempts that see a window's events in different orders, as sharded paging
 * does, against attempts that all see one order, as unsharded paging does.
 */
module ResumeOrders {
  import opened Common
  import opened Layout
  import opened Chunk
  import opened Windows
  import opened TsIndexFormat
  import opened Drain
  import opened Keys
  import opened Archive
  import opened Resume

  // ----- One order per window -----

  /** Every attempt sees the events in the same order, as unsharded paging over unchanged contents does. */
  ghost predicate InOneOrder(j: Job, ls: seq<Label>) {
    forall l :: l in ls && l.Start? ==> l.order == j.events(l.w)
  }

  /** Each planned slot is untouched or holds the one value ever written to it. */
  ghost predicate OneOrder(j: Job, s0: Store, s: State, w: Window)
    requires Bytes(j.o.logGroup)
  {
    && (w in s.running ==> s.running[w].order == j.events(w))
    && (w in s.completed ==> s.completed[w].order == j.events(w))
    && Reach(s, w) <= |Pieces(j.o, j.events(w))|
    && SlotsOwn(j, s0, s.store, w)
  }

  ghost predicate SlotsOwn(j: Job, s0: Store, s: Store, w: Window)
    requires Bytes(j.o.logGroup)
  {
    forall i :: 0 <= i < |DataPuts(j.o, w, j.events(w))| ==> OwnOrSame(s0, s, DataPuts(j.o, w, j.events(w))[i])
  }

  ghost predicate OwnOrSame(s0: Store, s: Store, p: Put) {
    Same(s, s0, p.slot) || (p.slot in s && s[p.slot] == p.value)
  }

  lemma OwnPutKeepsSlots(j: Job, s0: Store, s: Store, w: Window, i: nat)
    requires j.Legal() && w in j.windows && Bytes(j.o.logGroup) && SlotsOwn(j, s0, s, w) && i < |DataPuts(j.o, w, j.events(w))|
    ensures var p := DataPuts(j.o, w, j.events(w))[i]; SlotsOwn(j, s0, s[p.slot := p.value], w)
  {
    DataPutsDistinct(j, w, j.events(w));
    hide DataPuts, Job.Legal;
    var ps := DataPuts(j.o, w, j.events(w));
    var t := s[ps[i].slot := ps[i].value];
    forall k | 0 <= k < |ps| ensures OwnOrSame(s0, t, ps[k]) {
      assert OwnOrSame(s0, s, ps[k]);
      assert k != i ==> ps[k].slot != ps[i].slot;
    }
  }

  lemma OtherPutKeepsSlots(j: Job, s0: Store, s: Store, w: Window, x: Slot, value: seq<byte>)
    requires Bytes(j.o.logGroup) && SlotsOwn(j, s0, s, w)
    requires x.ManifestSlot? || !Owns(j.o, w, x)
    ensures SlotsOwn(j, s0, s[x := value], w)
  {
    hide DataPuts, Owns;
    var ps := DataPuts(j.o, w, j.events(w));
    PutsLength(j.o, w, j.events(w));
    forall k | 0 <= k < |ps| ensures OwnOrSame(s0, s[x := value], ps[k]) {
      assert OwnOrSame(s0, s, ps[k]);
      OwnsObject(j.o, w, j.events(w), k);
    }
  }

  lemma StepKeepsOneOrder(j: Job, s0: Store, s: State, l: Label, w: Window)
    requires j.Legal() && Bytes(j.o.logGroup) && Inv(j, s0, s) && Enabled(j, s, l) && w in j.windows && OneOrder(j, s0, s, w)
    requires l.Start? ==> l.order == j.events(l.w)
    ensures OneOrder(j, s0, Apply(j, s, l), w)
  {
    hide DataPuts, ManifestOf, ManKey, Pieces, Job.Legal, Covered, WindowInv, SlotsOwn, Owns;
    if l.PutNext? {
      var a := s.running[l.w];
      if a.pos == |DataPuts(j.o, l.w, a.order)| {
        OtherPutKeepsSlots(j, s0, s.store, w, ManSlot(j.o, l.w), ManifestOf(j.o, l.w, a.order, a.at));
      } else {
        var p := DataPuts(j.o, l.w, a.order)[a.pos];
        if l.w == w {
          OwnPutKeepsSlots(j, s0, s.store, w, a.pos);
          PutsLength(j.o, w, a.order);
        } else {
          OwnsObject(j.o, l.w, a.order, a.pos);
          OwnersDiffer(j, w, l.w, p.slot);
          OtherPutKeepsSlots(j, s0, s.store, w, p.slot, p.value);
        }
      }
    }
  }

  lemma {:induction false} OneOrderRuns(j: Job, s0: Store, ls: seq<Label>, w: Window)
    requires j.Legal() && Bytes(j.o.logGroup) && After(j, s0, ls).Some? && w in j.windows && InOneOrder(j, ls)
    ensures OneOrder(j, s0, After(j, s0, ls).value, w)
  {
    hide DataPuts, Job.Legal, Enabled, Apply, Pieces;
    if ls != [] {
      hide OneOrder;
      var init, l := ls[..|ls| - 1], ls[|ls| - 1];
      OneOrderRuns(j, s0, init, w);
      RunKeepsInv(j, s0, init);
      assert l in ls;
      StepKeepsOneOrder(j, s0, After(j, s0, init).value, l, w);
    }
  }

  /**
   * Unsharded drains: with one order per window, a run interrupted any number of
   * times and an uninterrupted one end alike, up to completion times.
   */
  lemma OneOrderEndsAlike(j: Job, s0: Store, interrupted: seq<Label>, straight: seq<Label>, x: Slot)
    requires j.Legal() && Bytes(j.o.logGroup) && After(j, s0, interrupted).Some? && After(j, s0, straight).Some?
    requires InOneOrder(j, interrupted) && InOneOrder(j, straight) && forall l :: l in straight ==> !l.Crash?
    requires var a, b := After(j, s0, interrupted).value, After(j, s0, straight).value;
             forall w :: w in j.windows ==> Covered(j.o, a.store, w) && Covered(j.o, b.store, w)
    ensures Alike(j, After(j, s0, interrupted).value, After(j, s0, straight).value, x)
  {
    hide After, Job.Legal, Pieces, Alike, WindowInv, Covered, CompletedInv, SlotsOwn, InOneOrder;
    var a, b := After(j, s0, interrupted).value, After(j, s0, straight).value;
    forall w | w in j.windows
      ensures (w in a.completed <==> w in b.completed) && (w in a.completed ==> a.completed[w].order == b.completed[w].order)
      ensures w in a.completed ==> Reach(a, w) <= |Pieces(j.o, a.completed[w].order)|
    {
      OneOrderRuns(j, s0, interrupted, w);
      OneOrderRuns(j, s0, straight, w);
      CompletedIffUncovered(j, s0, interrupted, w);
      CompletedIffUncovered(j, s0, straight, w);
    }
    RunKeepsInv(j, s0, interrupted);
    assert NoLeftovers(j, a);
    InterruptedEqualsUninterrupted(j, s0, interrupted, straight);
  }

  lemma CompletedIffUncovered(j: Job, s0: Store, ls: seq<Label>, w: Window)
    requires j.Legal() && Bytes(j.o.logGroup) && After(j, s0, ls).Some? && w in j.windows
    requires Covered(j.o, After(j, s0, ls).value.store, w)
    ensures w in After(j, s0, ls).value.completed <==> !Covered(j.o, s0, w)
  {
    hide After, Job.Legal, CompletedInv, RunningInv, ObjectsInv, CoversWindow, ManKey;
    RunKeepsInv(j, s0, ls);
    assert WindowInv(j, s0, After(j, s0, ls).value, w);
  }

  // ----- Building runs -----

  lemma AfterStep(j: Job, s0: Store, ls: seq<Label>, l: Label)
    requires Bytes(j.o.logGroup) && After(j, s0, ls).Some? && Enabled(j, After(j, s0, ls).value, l)
    ensures After(j, s0, ls + [l]) == Some(Apply(j, After(j, s0, ls).value, l))
  {
    hide Enabled, Apply;
    var longer := ls + [l];
    assert longer[..|longer| - 1] == ls;
  }

  /** None of the PUTs from lo up to hi names the slot. */
  ghost predicate Beside(ps: seq<Put>, lo: nat, hi: nat, x: Slot) {
    forall i :: lo <= i < hi && i < |ps| ==> ps[i].slot != x
  }

  ghost predicate KeptBeside(a: Store, b: Store, ps: seq<Put>, lo: nat, hi: nat) {
    forall x :: Beside(ps, lo, hi, x) ==> Same(b, a, x)
  }

  /** t is s after the window's attempt has made its PUTs up to number k. */
  ghost predicate Advanced(j: Job, s: State, t: State, w: Window, k: nat)
    requires Bytes(j.o.logGroup) && w in s.running
  {
    var a := s.running[w];
    && w in t.running && t.running[w] == a.(pos := k) && t.completed == s.completed && Reach(t, w) >= Reach(s, w)
    && (k > a.pos ==> Reach(t, w) >= (k - 1) / 3 + 1)
    && KeptBeside(s.store, t.store, DataPuts(j.o, w, a.order), a.pos, k)
  }

  lemma {:induction false} TakePuts(j: Job, s0: Store, ls: seq<Label>, w: Window, k: nat) returns (more: seq<Label>)
    requires Bytes(j.o.logGroup) && After(j, s0, ls).Some? && w in After(j, s0, ls).value.running
    requires var a := After(j, s0, ls).value.running[w]; a.pos <= k <= |DataPuts(j.o, w, a.order)|
    ensures After(j, s0, ls + more).Some? && Advanced(j, After(j, s0, ls).value, After(j, s0, ls + more).value, w, k)
    decreases k - After(j, s0, ls).value.running[w].pos
  {
    hide After, DataPuts, ManifestOf;
    var s, l := After(j, s0, ls).value, PutNext(w);
    var a := s.running[w];
    if a.pos == k {
      more := [];
      assert ls + more == ls;
    } else {
      AfterStep(j, s0, ls, l);
      var rest := TakePuts(j, s0, ls + [l], w, k);
      more := [l] + rest;
      Assoc(ls, [l], rest);
      AdvanceTwice(j, s, After(j, s0, ls + [l]).value, After(j, s0, ls + more).value, w, k);
    }
  }

  lemma AdvanceTwice(j: Job, s: State, m: State, t: State, w: Window, k: nat)
    requires Bytes(j.o.logGroup) && w in s.running && s.running[w].pos < k && s.running[w].pos < |DataPuts(j.o, w, s.running[w].order)|
    requires m == PutObject(j.o, s, w) && Advanced(j, m, t, w, k)
    ensures Advanced(j, s, t, w, k)
  {
    hide DataPuts;
    var a := s.running[w];
    var ps := DataPuts(j.o, w, a.order);
    forall x | Beside(ps, a.pos, k, x) ensures Same(t.store, s.store, x) {
      assert ps[a.pos].slot != x;
      assert Beside(ps, a.pos + 1, k, x);
      assert Same(t.store, m.store, x);
    }
  }

  /** Begin an attempt and make its first k PUTs. */
  lemma AttemptPuts(j: Job, s0: Store, ls: seq<Label>, w: Window, order: seq<LogRecord>, k: nat) returns (more: seq<Label>)
    requires Bytes(j.o.logGroup) && After(j, s0, ls).Some? && k <= |DataPuts(j.o, w, order)|
    requires Enabled(j, After(j, s0, ls).value, Start(w, order, 0))
    ensures After(j, s0, ls + more).Some?
    ensures var s, t := After(j, s0, ls).value, After(j, s0, ls + more).value;
            && w in t.running && t.running[w] == Attempt(order, 0, k) && t.completed == s.completed && Reach(t, w) >= Reach(s, w)
            && (k > 0 ==> Reach(t, w) >= (k - 1) / 3 + 1)
            && KeptBeside(s.store, t.store, DataPuts(j.o, w, order), 0, k)
  {
    hide After, DataPuts, ManifestOf, Covered;
    var l := Start(w, order, 0);
    AfterStep(j, s0, ls, l);
    var rest := TakePuts(j, s0, ls + [l], w, k);
    more := [l] + rest;
    Assoc(ls, [l], rest);
  }

  lemma StartEnabled(j: Job, s0: Store, ls: seq<Label>, w: Window, order: seq<LogRecord>)
    requires j.Legal() && Bytes(j.o.logGroup) && After(j, s0, ls).Some? && w in j.windows && !Covered(j.o, s0, w)
    requires multiset(order) == multiset(j.events(w))
    requires var s := After(j, s0, ls).value; w !in s.running && w !in s.completed
    ensures Enabled(j, After(j, s0, ls).value, Start(w, order, 0))
  {
    hide After, Job.Legal, CompletedInv, RunningInv, ObjectsInv, CoversWindow, ManKey;
    RunKeepsInv(j, s0, ls);
    assert WindowInv(j, s0, After(j, s0, ls).value, w);
  }

  /** What an attempt has put is in the store. */
  lemma AttemptStored(j: Job, s0: Store, ls: seq<Label>, w: Window)
    requires j.Legal() && Bytes(j.o.logGroup) && After(j, s0, ls).Some? && w in After(j, s0, ls).value.running
    ensures var s := After(j, s0, ls).value;
            w in j.windows && RunningInv(j, s0, s, w, s.running[w])
  {
    hide After, Job.Legal, RunningInv, CompletedInv, ObjectsInv, Covered;
    RunKeepsInv(j, s0, ls);
    assert WindowInv(j, s0, After(j, s0, ls).value, w);
  }

  // ----- A leftover object -----

  lemma {:induction false} LinesLength(c: Codec, rs: seq<LogRecord>, r: LogRecord)
    ensures |c.Lines(rs + [r])| == |c.Lines(rs)| + |c.Line(r)|
    ensures c.Lines([]) == []
  {
    c.LinesAppend(rs, [r]);
    assert c.Lines([r]) == c.Line(r) + c.Lines([]) == c.Line(r);
  }

  lemma RotateOne(o: Options, rs: seq<LogRecord>, r: LogRecord)
    ensures var a := RotateAll(o, rs);
            RotateAll(o, rs + [r]) ==
            if |o.codec.Lines(a.open)| + |o.codec.Line(r)| >= o.chunkTarget then Rotation(a.done + [a.open + [r]], []) else Rotation(a.done, a.open + [r])
  {
    RotateSnoc(o, rs, r);
    LinesLength(o.codec, RotateAll(o, rs).open, r);
  }

  /** The same six events in two orders: three objects in one, two in the other. */
  lemma OrdersDiffer(o: Options, x: LogRecord, y: LogRecord)
    requires o.chunkTarget == 20 && |o.codec.Line(x)| == 18 && |o.codec.Line(y)| == 2
    ensures multiset([x, y, x, y, x, y]) == multiset([y, y, y, x, x, x])
    ensures Pieces(o, [x, y, x, y, x, y]) == [[x, y], [x, y], [x, y]]
    ensures Pieces(o, [y, y, y, x, x, x]) == [[y, y, y, x], [x, x]]
  {
    ThreePairs(o, x, y);
    SmallFirst(o, x, y);
  }

  lemma ThreePairs(o: Options, x: LogRecord, y: LogRecord)
    requires o.chunkTarget == 20 && |o.codec.Line(x)| == 18 && |o.codec.Line(y)| == 2
    ensures Pieces(o, [x, y, x, y, x, y]) == [[x, y], [x, y], [x, y]]
  {
    var p, none := [x, y], [];
    assert RotateAll(o, none) == Rotation([], []);
    hide RotateAll;
    assert none + [x, y] == [x, y] && [x, y] + [x, y] == [x, y, x, y] && [x, y, x, y] + [x, y] == [x, y, x, y, x, y];
    assert [] + [p] == [p] && [p] + [p] == [p, p] && [p, p] + [p] == [p, p, p];
    PairRotates(o, x, y, none, []);
    PairRotates(o, x, y, [x, y], [p]);
    PairRotates(o, x, y, [x, y, x, y], [p, p]);
  }

  lemma PairRotates(o: Options, x: LogRecord, y: LogRecord, rs: seq<LogRecord>, done: seq<seq<LogRecord>>)
    requires o.chunkTarget == 20 && |o.codec.Line(x)| == 18 && |o.codec.Line(y)| == 2
    requires RotateAll(o, rs) == Rotation(done, [])
    ensures RotateAll(o, rs + [x, y]) == Rotation(done + [[x, y]], [])
  {
    hide RotateAll;
    RotateOne(o, rs, x);
    RotateOne(o, rs + [x], y);
    LinesLength(o.codec, [], x);
    assert [] + [x] == [x] && [x] + [y] == [x, y] && rs + [x] + [y] == rs + [x, y];
  }

  lemma SmallFirst(o: Options, x: LogRecord, y: LogRecord)
    requires o.chunkTarget == 20 && |o.codec.Line(x)| == 18 && |o.codec.Line(y)| == 2
    ensures Pieces(o, [y, y, y, x, x, x]) == [[y, y, y, x], [x, x]]
  {
    ThreeSmall(o, y);
    var four, p := [y, y, y, x], [y, y, y];
    hide RotateAll;
    assert p + [x] == four && four + [x] == [y, y, y, x, x] && [y, y, y, x, x] + [x] == [y, y, y, x, x, x];
    assert [] + [four] == [four] && [four] + [[x, x]] == [four, [x, x]] && [] + [x] == [x] && [x] + [x] == [x, x];
    RotateOne(o, p, x);
    LinesLength(o.codec, [], x);
    RotateOne(o, four, x);
    RotateOne(o, [y, y, y, x, x], x);
  }

  lemma ThreeSmall(o: Options, y: LogRecord)
    requires o.chunkTarget == 20 && |o.codec.Line(y)| == 2
    ensures RotateAll(o, [y, y, y]) == Rotation([], [y, y, y]) && |o.codec.Lines([y, y, y])| == 6
  {
    var none: seq<LogRecord> := [];
    assert RotateAll(o, none) == Rotation([], []);
    hide RotateAll;
    assert none + [y] == [y] && [y] + [y] == [y, y] && [y, y] + [y] == [y, y, y];
    LinesLength(o.codec, none, y);
    LinesLength(o.codec, [y], y);
    LinesLength(o.codec, [y, y], y);
    RotateOne(o, none, y);
    RotateOne(o, [y], y);
    RotateOne(o, [y, y], y);
  }

  lemma NothingYet(j: Job, w: Window)
    requires Bytes(j.o.logGroup)
    ensures After(j, map[], []) == Some(State(map[], map[], map[], map[])) && !Covered(j.o, map[], w)
  {
  }

  /** The third object of the first order survives six PUTs of an order with two objects. */
  lemma ThirdObject(j: Job, a: Store, b: Store, w: Window, first: seq<LogRecord>, second: seq<LogRecord>)
    requires j.Legal() && w in j.windows && Bytes(j.o.logGroup) && |Pieces(j.o, first)| == 3 && |Pieces(j.o, second)| == 2
    requires |DataPuts(j.o, w, first)| == 9 && |DataPuts(j.o, w, second)| == 6 && AllPut(a, DataPuts(j.o, w, first)[..9])
    requires KeptBeside(a, b, DataPuts(j.o, w, second), 0, 6)
    ensures ChunkFor(j.o, Pieces(j.o, first)[2]).Some?
    ensures var x := DataSlot(ObjKey(j.o, w, Base, 2));
            x in b && b[x] == ChunkFor(j.o, Pieces(j.o, first)[2]).value.body
  {
    LegalJob(j);
    JobWindowOf(j, w);
    PiecesPartition(j.o, first);
    PutAt(j.o, w, Pieces(j.o, first), 6);
    hide ObjKey, Pieces, PiecePuts, ChunkFor, Job.Legal, Options.Legal, JobWindow, KeptBeside, AllPut;
    var x := DataSlot(ObjKey(j.o, w, Base, 2));
    var ps := DataPuts(j.o, w, first);
    PutInPrefix(a, ps, 9, 6);
    forall i | 0 <= i < 6 ensures DataPuts(j.o, w, second)[i].slot != x {
      SlotNotPut(j.o, w, second, 2, x, i);
    }
    KeptAt(a, b, DataPuts(j.o, w, second), 6, x);
  }

  lemma PutInPrefix(s: Store, ps: seq<Put>, k: nat, i: nat)
    requires i < k <= |ps| && AllPut(s, ps[..k])
    ensures ps[i].slot in s && s[ps[i].slot] == ps[i].value
  {
    assert ps[..k][i] == ps[i];
  }

  lemma KeptAt(a: Store, b: Store, ps: seq<Put>, k: nat, x: Slot)
    requires KeptBeside(a, b, ps, 0, k) && forall i :: 0 <= i < k && i < |ps| ==> ps[i].slot != x
    ensures Same(b, a, x)
  {
    assert Beside(ps, 0, k, x);
  }

  /** One attempt stopped after k PUTs, then another that has made n. */
  lemma TwoAttempts(j: Job, w: Window, first: seq<LogRecord>, second: seq<LogRecord>, k: nat, n: nat) returns (ls: seq<Label>, a: Store)
    requires j.Legal() && Bytes(j.o.logGroup) && w in j.windows && k <= |DataPuts(j.o, w, first)| && n <= |DataPuts(j.o, w, second)|
    requires multiset(first) == multiset(j.events(w)) == multiset(second)
    ensures After(j, map[], ls).Some? && AllPut(a, DataPuts(j.o, w, first)[..k])
    ensures var s := After(j, map[], ls).value;
            && w in s.running && s.running[w] == Attempt(second, 0, n) && (k > 0 ==> Reach(s, w) >= (k - 1) / 3 + 1)
            && AllPut(s.store, DataPuts(j.o, w, second)[..n]) && KeptBeside(a, s.store, DataPuts(j.o, w, second), 0, n)
  {
    NothingYet(j, w);
    hide After, Job.Legal, ManKey, DataPuts, Covered, ManifestOf, PutObject, KeptBeside, AllPut, PutManifest;
    StartEnabled(j, map[], [], w, first);
    var one := AttemptPuts(j, map[], [], w, first, k);
    assert [] + one == one;
    AttemptStored(j, map[], one, w);
    a := After(j, map[], one).value.store;
    AfterStep(j, map[], one, Crash);
    var cut := one + [Crash];
    StartEnabled(j, map[], cut, w, second);
    var two := AttemptPuts(j, map[], cut, w, second, n);
    ls := cut + two;
    AttemptStored(j, map[], ls, w);
  }

  lemma ObjectReads(j: Job, s: Store, t: Store, w: Window, n: nat, piece: seq<LogRecord>, value: seq<byte>)
    requires j.Legal() && Bytes(j.o.logGroup) && piece != [] && ChunkFor(j.o, piece).Some?
    requires t == s[ManSlot(j.o, w) := value]
    requires var x := DataSlot(ObjKey(j.o, w, Base, n)); x in s && s[x] == ChunkFor(j.o, piece).value.body
    ensures ReadObject(j.o, t, ObjKey(j.o, w, Base, n)) == Some(piece)
  {
    LegalJob(j);
    CodecOf(j.o);
    hide ObjKey, ChunkFor, Job.Legal, Options.Legal, Codec.Lawful, ReadObject, ManKey;
    StoredChunkReads(j.o, t, ObjKey(j.o, w, Base, n), piece);
  }

  lemma Finished(j: Job, s0: Store, ls: seq<Label>, s: State, w: Window)
    requires j.Legal() && Bytes(j.o.logGroup) && After(j, s0, ls).Some? && w in j.windows && w in s.running && !Covered(j.o, s0, w)
    requires After(j, s0, ls).value == PutManifest(j.o, s, w)
    ensures var t := After(j, s0, ls).value;
            && w in t.completed && t.completed[w] == s.running[w] && Covered(j.o, t.store, w)
            && ReadListed(j.o, t.store, FromJson(j.o, t.store[ManSlot(j.o, w)]).value.objects) == Some(s.running[w].order)
  {
    hide After, Job.Legal, CompletedInv, RunningInv, ObjectsInv, ManKey, ReadListed, Covered, ManifestOf;
    var t := After(j, s0, ls).value;
    RunKeepsInv(j, s0, ls);
    assert WindowInv(j, s0, t, w);
    CompletedCovers(j, t, w);
    ListedReadBack(j, s0, ls, w);
  }

  /**
   * The leftover at an input: an attempt in the first order stopped after its
   * third object, then one in the second order that completes. The window is
   * covered and its two listed objects hold all six events, while a third object,
   * unlisted, holds two of them again.
   */
  lemma LeftoverObject(j: Job, w: Window, x: LogRecord, y: LogRecord) returns (ls: seq<Label>)
    requires j.Legal() && Bytes(j.o.logGroup) && w in j.windows
    requires j.o.chunkTarget == 20 && |j.o.codec.Line(x)| == 18 && |j.o.codec.Line(y)| == 2
    requires multiset(j.events(w)) == multiset([x, y, x, y, x, y])
    ensures After(j, map[], ls).Some?
    ensures var s := After(j, map[], ls).value;
            && Covered(j.o, s.store, w) && w in s.completed && s.completed[w].order == [y, y, y, x, x, x]
            && Reach(s, w) > |Pieces(j.o, s.completed[w].order)| == 2
            && ReadObject(j.o, s.store, ObjKey(j.o, w, Base, 2)) == Some([x, y])
            && ReadListed(j.o, s.store, FromJson(j.o, s.store[ManSlot(j.o, w)]).value.objects) == Some([y, y, y, x, x, x])
  {
    var o, first, second := j.o, [x, y, x, y, x, y], [y, y, y, x, x, x];
    OrdersDiffer(o, x, y);
    PutsLength(o, w, first);
    PutsLength(o, w, second);
    NothingYet(j, w);
    NothingYet(j, w);
    hide After, Job.Legal, Pieces, ReadListed, ReadObject, ManKey, ObjKey, DataPuts, Covered, ManifestOf, ChunkFor, KeptBeside, AllPut;
    var run, a := TwoAttempts(j, w, first, second, 9, 6);
    var s := After(j, map[], run).value;
    ThirdObject(j, a, s.store, w, first, second);
    AfterStep(j, map[], run, PutNext(w));
    ls := run + [PutNext(w)];
    Finished(j, map[], ls, s, w);
    ObjectReads(j, s.store, After(j, map[], ls).value.store, w, 2, [x, y], ManifestOf(o, w, second, 0));
  }

  // ----- Stale sidecars -----

  /**
   * Stale sidecars at an input: two events, the one at 5 filling an object alone
   * and the one at 3 not. An attempt stores the object of 5 with its sidecars; the
   * next sees 3 first, overwrites the data with both, and stops. The object's time
   * index still says [5, 5].
   */
  lemma StaleSidecars(j: Job, w: Window, three: LogRecord, five: LogRecord) returns (ls: seq<Label>)
    requires j.Legal() && Bytes(j.o.logGroup) && w in j.windows && three.timestamp == 3 && five.timestamp == 5
    requires |j.o.codec.Line(three)| < j.o.chunkTarget <= |j.o.codec.Line(five)| && multiset(j.events(w)) == multiset([three, five])
    ensures After(j, map[], ls).Some? && ChunkFor(j.o, [five]).Some? && ChunkFor(j.o, [three, five]).Some?
    ensures var s, key := After(j, map[], ls).value.store, ObjKey(j.o, w, Base, 0);
            && DataSlot(key) in s && s[DataSlot(key)] == ChunkFor(j.o, [three, five]).value.body
            && IndexSlot(key) in s && s[IndexSlot(key)] == j.o.indexBytes(ChunkFor(j.o, [five]).value)
            && TsSlot(key) in s && s[TsSlot(key)] == EncodeTsIndex(ChunkFor(j.o, [five]).value.tsEntries)
  {
    var o, first, second := j.o, [five, three], [three, five];
    TwoRotations(o, three, five);
    PutsLength(o, w, first);
    PutsLength(o, w, second);
    hide After, Job.Legal, Pieces, ObjKey, DataPuts, ChunkFor, KeptBeside, AllPut;
    var run, a := TwoAttempts(j, w, first, second, 3, 1);
    ls := run;
    Overwritten(o, w, a, After(j, map[], ls).value.store, first, second, [five], [three, five]);
  }

  /** Three PUTs of one order, then the data PUT of another: new data beside the old sidecars. */
  lemma Overwritten(o: Options, w: Window, a: Store, b: Store, first: seq<LogRecord>, second: seq<LogRecord>, before: seq<LogRecord>, after: seq<LogRecord>)
    requires Bytes(o.logGroup) && Pieces(o, first) != [] && Pieces(o, first)[0] == before && Pieces(o, second) != [] && Pieces(o, second)[0] == after
    requires |DataPuts(o, w, first)| >= 3 && |DataPuts(o, w, second)| >= 1
    requires AllPut(a, DataPuts(o, w, first)[..3]) && AllPut(b, DataPuts(o, w, second)[..1]) && KeptBeside(a, b, DataPuts(o, w, second), 0, 1)
    ensures ChunkFor(o, before).Some? && ChunkFor(o, after).Some?
    ensures var key := ObjKey(o, w, Base, 0);
            && DataSlot(key) in b && b[DataSlot(key)] == ChunkFor(o, after).value.body
            && IndexSlot(key) in b && b[IndexSlot(key)] == o.indexBytes(ChunkFor(o, before).value)
            && TsSlot(key) in b && b[TsSlot(key)] == EncodeTsIndex(ChunkFor(o, before).value.tsEntries)
  {
    hide ObjKey, Pieces, DataPuts, ChunkFor, KeptBeside, AllPut;
    FirstObjectPuts(o, w, first, before);
    FirstObjectPuts(o, w, second, after);
    var key, ps, qs := ObjKey(o, w, Base, 0), DataPuts(o, w, first), DataPuts(o, w, second);
    PutInPrefix(a, ps, 3, 1);
    PutInPrefix(a, ps, 3, 2);
    PutInPrefix(b, qs, 1, 0);
    KeptAt(a, b, qs, 1, IndexSlot(key));
    KeptAt(a, b, qs, 1, TsSlot(key));
  }

  lemma TwoRotations(o: Options, three: LogRecord, five: LogRecord)
    requires |o.codec.Line(three)| < o.chunkTarget <= |o.codec.Line(five)|
    ensures Pieces(o, [five, three]) == [[five], [three]] && Pieces(o, [three, five]) == [[three, five]]
    ensures multiset([five, three]) == multiset([three, five])
  {
    BigThenSmall(o, three, five);
    SmallThenBig(o, three, five);
  }

  lemma BigThenSmall(o: Options, three: LogRecord, five: LogRecord)
    requires |o.codec.Line(three)| < o.chunkTarget <= |o.codec.Line(five)|
    ensures Pieces(o, [five, three]) == [[five], [three]]
  {
    var none: seq<LogRecord> := [];
    assert RotateAll(o, none) == Rotation([], []);
    hide RotateAll;
    assert none + [five] == [five] && [five] + [three] == [five, three] && none + [three] == [three] && [] + [[five]] == [[five]];
    LinesLength(o.codec, none, five);
    RotateOne(o, none, five);
    RotateOne(o, [five], three);
    assert [[five]] + [[three]] == [[five], [three]];
  }

  lemma SmallThenBig(o: Options, three: LogRecord, five: LogRecord)
    requires |o.codec.Line(three)| < o.chunkTarget <= |o.codec.Line(five)|
    ensures Pieces(o, [three, five]) == [[three, five]]
  {
    var none: seq<LogRecord> := [];
    assert RotateAll(o, none) == Rotation([], []);
    hide RotateAll;
    assert none + [three] == [three] && [three] + [five] == [three, five] && [] + [[three, five]] == [[three, five]];
    LinesLength(o.codec, none, three);
    RotateOne(o, none, three);
    RotateOne(o, [three], five);
  }

  lemma FirstObjectPuts(o: Options, w: Window, order: seq<LogRecord>, piece: seq<LogRecord>)
    requires Bytes(o.logGroup) && Pieces(o, order) != [] && Pieces(o, order)[0] == piece
    ensures |DataPuts(o, w, order)| >= 3 && ChunkFor(o, piece).Some?
    ensures var key, ch, ps := ObjKey(o, w, Base, 0), ChunkFor(o, piece).value, DataPuts(o, w, order);
            ps[0] == Put(DataSlot(key), ch.body) && ps[1] == Put(IndexSlot(key), o.indexBytes(ch)) && ps[2] == Put(TsSlot(key), EncodeTsIndex(ch.tsEntries))
  {
    PiecesPartition(o, order);
    hide ObjKey, Pieces, PiecePuts, ChunkFor;
    PutsCount(o, w, Pieces(o, order));
    PutAt(o, w, Pieces(o, order), 0);
    PutAt(o, w, Pieces(o, order), 1);
    PutAt(o, w, Pieces(o, order), 2);
  }
}
