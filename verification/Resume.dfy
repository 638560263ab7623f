/**
 * Interrupted drains: PUTs of any windows interleaved, stopped at any PUT any
 * number of times, each attempt seeing a window's events in an order of its own.
 * What the store holds in the end, and exactly when it is the store of one
 * uninterrupted run.
 */
module Resume {
  import opened Common
  import opened Layout
  import opened Windows
  import opened Drain
  import opened Keys
  import opened Archive

  /** The job: its windows and the events CloudWatch holds for each. */
  datatype Job = Job(o: Options, windows: set<Window>, events: Window -> seq<LogRecord>)
  {
    ghost predicate Legal() {
      o.Legal() && forall w :: w in windows ==> JobWindow(o, w)
    }
  }

  function DataPuts(o: Options, w: Window, order: seq<LogRecord>): seq<Put>
    requires Bytes(o.logGroup)
  {
    PiecePuts(o, w, Base, Pieces(o, order))
  }

  function ManifestOf(o: Options, w: Window, order: seq<LogRecord>, at: int): seq<byte>
    requires Bytes(o.logGroup)
  {
    o.man.enc(WindowManifest(o, w, order, at))
  }

  function ManSlot(o: Options, w: Window): Slot
    requires Bytes(o.logGroup)
  {
    ManifestSlot(ManKey(o, w))
  }

  /** One attempt at a window: the order in which its pages brought the events, and the PUTs made so far. */
  datatype Attempt = Attempt(order: seq<LogRecord>, at: int, pos: nat)

  /**
   * reach counts, for each window, the objects any attempt has begun to store;
   * completed keeps the attempt that wrote the window's manifest.
   */
  datatype State = State(store: Store, running: map<Window, Attempt>, reach: map<Window, nat>, completed: map<Window, Attempt>)

  datatype Label = Start(w: Window, order: seq<LogRecord>, at: int) | PutNext(w: Window) | Crash

  function Reach(s: State, w: Window): nat {
    if w in s.reach then s.reach[w] else 0
  }

  predicate Enabled(j: Job, s: State, l: Label)
    requires Bytes(j.o.logGroup)
  {
    match l
    case Start(w, order, _) =>
      w in j.windows && w !in s.running && !Covered(j.o, s.store, w) && multiset(order) == multiset(j.events(w))
    case PutNext(w) => w in s.running && s.running[w].pos <= |DataPuts(j.o, w, s.running[w].order)|
    case Crash => true
  }

  /** Each object takes three PUTs: data, index, time index. */
  function PutObject(o: Options, s: State, w: Window): State
    requires Bytes(o.logGroup) && w in s.running && s.running[w].pos < |DataPuts(o, w, s.running[w].order)|
  {
    var a := s.running[w];
    var p := DataPuts(o, w, a.order)[a.pos];
    var n := a.pos / 3 + 1;
    s.(store := s.store[p.slot := p.value], running := s.running[w := a.(pos := a.pos + 1)],
       reach := s.reach[w := if n > Reach(s, w) then n else Reach(s, w)])
  }

  function PutManifest(o: Options, s: State, w: Window): State
    requires Bytes(o.logGroup) && w in s.running
  {
    var a := s.running[w];
    s.(store := s.store[ManSlot(o, w) := ManifestOf(o, w, a.order, a.at)], running := s.running - {w}, completed := s.completed[w := a])
  }

  function Apply(j: Job, s: State, l: Label): State
    requires Bytes(j.o.logGroup) && Enabled(j, s, l)
  {
    match l
    case Start(w, order, at) => s.(running := s.running[w := Attempt(order, at, 0)])
    case PutNext(w) =>
      if s.running[w].pos < |DataPuts(j.o, w, s.running[w].order)| then PutObject(j.o, s, w) else PutManifest(j.o, s, w)
    case Crash => s.(running := map[])
  }

  ghost function After(j: Job, s0: Store, ls: seq<Label>): Option<State>
    requires Bytes(j.o.logGroup)
  {
    if ls == [] then Some(State(s0, map[], map[], map[]))
    else
      match After(j, s0, ls[..|ls| - 1])
      case None => None
      case Some(s) =>
        if Enabled(j, s, ls[|ls| - 1]) then Some(Apply(j, s, ls[|ls| - 1])) else None
  }

  // ----- What holds of every reachable store -----

  ghost predicate Same(a: Store, b: Store, x: Slot) {
    (x in a <==> x in b) && (x in a ==> a[x] == b[x])
  }

  /** The slot is one of the window's: its manifest, or data or a sidecar of one of its objects. */
  ghost predicate Owns(o: Options, w: Window, x: Slot)
    requires Bytes(o.logGroup)
  {
    x == ManSlot(o, w) || exists n: nat :: ObjectSlot(o, w, Base, n, x)
  }

  /** Objects no attempt has reached are as they were; every object reached has its data stored. */
  ghost predicate ObjectsInv(o: Options, s0: Store, s: State, w: Window)
    requires Bytes(o.logGroup)
  {
    && (forall n: nat, x :: n >= Reach(s, w) && ObjectSlot(o, w, Base, n, x) ==> Same(s.store, s0, x))
    && (forall n: nat :: n < Reach(s, w) ==> DataSlot(ObjKey(o, w, Base, n)) in s.store)
  }

  ghost predicate RunningInv(j: Job, s0: Store, s: State, w: Window, a: Attempt)
    requires Bytes(j.o.logGroup)
  {
    && multiset(a.order) == multiset(j.events(w)) && w !in s.completed
    && a.pos <= |DataPuts(j.o, w, a.order)| && AllPut(s.store, DataPuts(j.o, w, a.order)[..a.pos])
    && (a.pos > 0 ==> Reach(s, w) >= (a.pos - 1) / 3 + 1)
  }

  /** The attempt's manifest is in place, and with it every object it lists. */
  ghost predicate CompletedInv(j: Job, s: State, w: Window, a: Attempt)
    requires Bytes(j.o.logGroup)
  {
    && multiset(a.order) == multiset(j.events(w)) && AllPut(s.store, DataPuts(j.o, w, a.order))
    && ManSlot(j.o, w) in s.store && s.store[ManSlot(j.o, w)] == ManifestOf(j.o, w, a.order, a.at)
    && Reach(s, w) >= |Pieces(j.o, a.order)|
  }

  ghost predicate WindowInv(j: Job, s0: Store, s: State, w: Window)
    requires Bytes(j.o.logGroup)
  {
    && ObjectsInv(j.o, s0, s, w)
    && (w !in s.completed ==> Same(s.store, s0, ManSlot(j.o, w)))
    && (w in s.completed ==> w !in s.running && CompletedInv(j, s, w, s.completed[w]))
    && (w in s.running ==> RunningInv(j, s0, s, w, s.running[w]))
    && (Covered(j.o, s0, w) ==> w !in s.running && w !in s.completed && Reach(s, w) == 0)
  }

  ghost predicate Inv(j: Job, s0: Store, s: State)
    requires Bytes(j.o.logGroup)
  {
    && (forall w :: w in s.running || w in s.completed || w in s.reach ==> w in j.windows)
    && (forall w :: w in j.windows ==> WindowInv(j, s0, s, w))
    && (forall x :: !(exists w :: w in j.windows && Owns(j.o, w, x)) ==> Same(s.store, s0, x))
  }

  lemma LegalJob(j: Job)
    requires j.Legal()
    ensures Bytes(j.o.logGroup) && j.o.Legal()
  {
    BytesOf(j.o);
  }

  lemma JobWindowOf(j: Job, w: Window)
    requires j.Legal() && w in j.windows
    ensures JobWindow(j.o, w)
  {
  }

  // ----- The PUTs of one order -----

  lemma {:induction false} PutsCount(o: Options, w: Window, pieces: seq<seq<LogRecord>>)
    requires Bytes(o.logGroup) && [] !in pieces
    ensures |PiecePuts(o, w, Base, pieces)| == 3 * |pieces|
    decreases |pieces|
  {
    if pieces != [] {
      LastPiecePuts(o, w, pieces);
      hide ObjKey, ChunkFor, PiecePuts;
      PutsCount(o, w, pieces[..|pieces| - 1]);
    }
  }

  lemma LastPiecePuts(o: Options, w: Window, pieces: seq<seq<LogRecord>>)
    requires Bytes(o.logGroup) && [] !in pieces && pieces != []
    ensures var n := |pieces| - 1;
            && ChunkFor(o, pieces[n]).Some? && [] !in pieces[..n]
            && PiecePuts(o, w, Base, pieces) == PiecePuts(o, w, Base, pieces[..n]) + ObjectPuts(o, ObjKey(o, w, Base, n), ChunkFor(o, pieces[n]).value)
  {
    hide ObjKey, ChunkFor, ObjectPuts;
    var n := |pieces| - 1;
    assert pieces[n] in pieces;
    ChunkPresent(o, pieces[n]);
  }

  /** PUT i of a run stores part i % 3 of object i / 3. */
  lemma {:induction false} PutAt(o: Options, w: Window, pieces: seq<seq<LogRecord>>, i: nat)
    requires Bytes(o.logGroup) && [] !in pieces && i < 3 * |pieces|
    ensures i < |PiecePuts(o, w, Base, pieces)| && ChunkFor(o, pieces[i / 3]).Some?
    ensures PiecePuts(o, w, Base, pieces)[i] == ObjectPuts(o, ObjKey(o, w, Base, i / 3), ChunkFor(o, pieces[i / 3]).value)[i % 3]
    decreases |pieces|
  {
    hide ObjKey, ChunkFor, PiecePuts;
    var n := |pieces| - 1;
    LastPiecePuts(o, w, pieces);
    PutsCount(o, w, pieces[..n]);
    if i < 3 * n {
      PutAt(o, w, pieces[..n], i);
      assert pieces[..n][i / 3] == pieces[i / 3];
    } else {
      assert i / 3 == n && i - 3 * n == i % 3;
    }
  }

  /** The slot of PUT number pos belongs to object number pos / 3; a data PUT comes first. */
  lemma SlotAt(o: Options, w: Window, order: seq<LogRecord>, pos: nat)
    requires Bytes(o.logGroup) && pos < |DataPuts(o, w, order)|
    ensures ObjectSlot(o, w, Base, pos / 3, DataPuts(o, w, order)[pos].slot)
    ensures pos % 3 == 0 ==> DataPuts(o, w, order)[pos].slot == DataSlot(ObjKey(o, w, Base, pos / 3))
    ensures |DataPuts(o, w, order)| == 3 * |Pieces(o, order)|
  {
    hide ObjKey, ChunkFor, PiecePuts, Pieces;
    PiecesPartition(o, order);
    PutsCount(o, w, Pieces(o, order));
    PutAt(o, w, Pieces(o, order), pos);
  }

  lemma PutsLength(o: Options, w: Window, order: seq<LogRecord>)
    requires Bytes(o.logGroup)
    ensures |DataPuts(o, w, order)| == 3 * |Pieces(o, order)|
    ensures forall i :: 0 <= i < |DataPuts(o, w, order)| ==> !DataPuts(o, w, order)[i].slot.ManifestSlot?
  {
    hide ObjKey, PiecePuts, Pieces;
    PiecesPartition(o, order);
    PutsCount(o, w, Pieces(o, order));
    forall i | 0 <= i < |DataPuts(o, w, order)| ensures !DataPuts(o, w, order)[i].slot.ManifestSlot? {
      SlotAt(o, w, order, i);
    }
  }

  // ----- Data PUTs -----

  /** Writing one window's slot leaves another window as it is. */
  lemma WriteElsewhere(j: Job, s0: Store, s: State, t: State, x: Slot, value: seq<byte>, v: Window)
    requires Bytes(j.o.logGroup) && !Owns(j.o, v, x) && t.store == s.store[x := value] && WindowInv(j, s0, s, v)
    requires (v in t.running <==> v in s.running) && (v in s.running ==> t.running[v] == s.running[v])
    requires (v in t.completed <==> v in s.completed) && (v in s.completed ==> t.completed[v] == s.completed[v])
    requires Reach(t, v) == Reach(s, v)
    ensures WindowInv(j, s0, t, v)
  {
    hide Covered, DataPuts, ManifestOf, Pieces;
    assert x != ManSlot(j.o, v);
    forall n: nat ensures !ObjectSlot(j.o, v, Base, n, x) {
    }
    forall order: seq<LogRecord>, i | 0 <= i < |DataPuts(j.o, v, order)| ensures DataPuts(j.o, v, order)[i].slot != x {
      SlotAt(j.o, v, order, i);
    }
  }

  lemma OwnersDiffer(j: Job, v: Window, w: Window, x: Slot)
    requires j.Legal() && v in j.windows && w in j.windows && v != w && Bytes(j.o.logGroup) && Owns(j.o, w, x)
    ensures !Owns(j.o, v, x)
  {
    hide ObjKey, ManKey, JobWindow, Options.Legal;
    if Owns(j.o, v, x) {
      if x.ManifestSlot? {
        ManKeyInjective(j.o, v, w);
      } else {
        var m: nat :| ObjectSlot(j.o, v, Base, m, x);
        var n: nat :| ObjectSlot(j.o, w, Base, n, x);
        ObjKeyInjective(j.o, v, Base, m, w, Base, n);
      }
    }
  }

  lemma ReachGrows(o: Options, s0: Store, s: State, w: Window)
    requires o.Legal() && JobWindow(o, w) && Bytes(o.logGroup) && ObjectsInv(o, s0, s, w)
    requires w in s.running && s.running[w].pos < |DataPuts(o, w, s.running[w].order)|
    requires s.running[w].pos > 0 ==> Reach(s, w) >= (s.running[w].pos - 1) / 3 + 1
    ensures ObjectsInv(o, s0, PutObject(o, s, w), w)
    ensures Reach(PutObject(o, s, w), w) >= s.running[w].pos / 3 + 1
  {
    hide ObjKey, DataPuts, Options.Legal, JobWindow;
    var a, t := s.running[w], PutObject(o, s, w);
    var p, k := DataPuts(o, w, a.order)[a.pos], a.pos / 3;
    SlotAt(o, w, a.order, a.pos);
    forall n: nat, x | n >= Reach(t, w) && ObjectSlot(o, w, Base, n, x) ensures Same(t.store, s0, x) {
      if x == p.slot {
        ObjKeyInjective(o, w, Base, n, w, Base, k);
      }
    }
    forall n: nat | n < Reach(t, w) ensures DataSlot(ObjKey(o, w, Base, n)) in t.store {
      if n >= Reach(s, w) {
        assert n == k && a.pos % 3 == 0;
      }
    }
  }

  lemma AttemptAdvances(j: Job, s0: Store, s: State, w: Window)
    requires j.Legal() && w in j.windows && Bytes(j.o.logGroup) && w in s.running && RunningInv(j, s0, s, w, s.running[w])
    requires s.running[w].pos < |DataPuts(j.o, w, s.running[w].order)|
    requires Reach(PutObject(j.o, s, w), w) >= s.running[w].pos / 3 + 1
    ensures var t := PutObject(j.o, s, w); RunningInv(j, s0, t, w, t.running[w])
  {
    var a := s.running[w];
    DataPutsDistinct(j, w, a.order);
    hide Job.Legal, AllPut, DistinctSlots, DataPuts;
    ExtendPut(s.store, DataPuts(j.o, w, a.order), a.pos);
    assert (a.pos + 1 - 1) / 3 + 1 == a.pos / 3 + 1;
  }

  lemma DataPutsDistinct(j: Job, w: Window, order: seq<LogRecord>)
    requires j.Legal() && w in j.windows && Bytes(j.o.logGroup)
    ensures DistinctSlots(DataPuts(j.o, w, order))
  {
    LegalJob(j);
    JobWindowOf(j, w);
    hide Job.Legal, Options.Legal, JobWindow, PiecePuts, DistinctSlots, Pieces;
    PieceSlotsDistinct(j.o, w, Base, Pieces(j.o, order));
  }

  lemma DataPutKeepsOwn(j: Job, s0: Store, s: State, w: Window)
    requires j.Legal() && w in j.windows && Bytes(j.o.logGroup) && WindowInv(j, s0, s, w) && w in s.running
    requires s.running[w].pos < |DataPuts(j.o, w, s.running[w].order)|
    ensures WindowInv(j, s0, PutObject(j.o, s, w), w)
  {
    LegalJob(j);
    JobWindowOf(j, w);
    var a := s.running[w];
    RunningFacts(j, s0, s, w, a);
    hide Covered, Job.Legal, Options.Legal, JobWindow, ObjectsInv, ManKey, DataPuts, RunningInv, CompletedInv;
    ReachGrows(j.o, s0, s, w);
    AttemptAdvances(j, s0, s, w);
    PutsLength(j.o, w, a.order);
  }

  lemma RunningFacts(j: Job, s0: Store, s: State, w: Window, a: Attempt)
    requires Bytes(j.o.logGroup) && RunningInv(j, s0, s, w, a)
    ensures w !in s.completed && (a.pos > 0 ==> Reach(s, w) >= (a.pos - 1) / 3 + 1)
  {
  }

  lemma ObjectPutKeepsInv(j: Job, s0: Store, s: State, w: Window)
    requires j.Legal() && Inv(j, s0, s) && Bytes(j.o.logGroup) && w in s.running
    requires s.running[w].pos < |DataPuts(j.o, w, s.running[w].order)|
    ensures Inv(j, s0, PutObject(j.o, s, w))
  {
    hide Job.Legal, WindowInv, DataPuts, Owns;
    var a, t := s.running[w], PutObject(j.o, s, w);
    var p := DataPuts(j.o, w, a.order)[a.pos];
    OwnsObject(j.o, w, a.order, a.pos);
    forall v | v in j.windows ensures WindowInv(j, s0, t, v) {
      if v == w {
        DataPutKeepsOwn(j, s0, s, w);
      } else {
        OwnersDiffer(j, v, w, p.slot);
        WriteElsewhere(j, s0, s, t, p.slot, p.value, v);
      }
    }
    assert w in j.windows && Owns(j.o, w, p.slot);
    forall x | !(exists v :: v in j.windows && Owns(j.o, v, x)) ensures Same(t.store, s0, x) {
      assert Same(s.store, s0, x);
    }
  }

  lemma OwnsObject(o: Options, w: Window, order: seq<LogRecord>, pos: nat)
    requires Bytes(o.logGroup) && pos < |DataPuts(o, w, order)|
    ensures Owns(o, w, DataPuts(o, w, order)[pos].slot)
  {
    hide DataPuts;
    SlotAt(o, w, order, pos);
  }

  // ----- Manifest PUTs, starts and crashes -----

  lemma ManifestKeepsOwn(j: Job, s0: Store, s: State, w: Window)
    requires j.Legal() && w in j.windows && Bytes(j.o.logGroup) && WindowInv(j, s0, s, w) && w in s.running
    requires s.running[w].pos == |DataPuts(j.o, w, s.running[w].order)|
    ensures WindowInv(j, s0, PutManifest(j.o, s, w), w)
  {
    hide Covered, Job.Legal, ManifestOf, ManKey, PiecePuts, ObjKey;
    var a, t := s.running[w], PutManifest(j.o, s, w);
    PutsLength(j.o, w, a.order);
    TakeAll(DataPuts(j.o, w, a.order));
    hide DataPuts, Pieces;
    assert ObjectsInv(j.o, s0, t, w);
  }

  lemma ManifestPutKeepsInv(j: Job, s0: Store, s: State, w: Window)
    requires j.Legal() && Inv(j, s0, s) && Bytes(j.o.logGroup) && w in s.running
    requires s.running[w].pos == |DataPuts(j.o, w, s.running[w].order)|
    ensures Inv(j, s0, PutManifest(j.o, s, w))
  {
    hide Job.Legal, WindowInv, DataPuts, ManifestOf, ManKey;
    var a, t, x := s.running[w], PutManifest(j.o, s, w), ManSlot(j.o, w);
    assert Owns(j.o, w, x);
    forall v | v in j.windows ensures WindowInv(j, s0, t, v) {
      if v == w {
        ManifestKeepsOwn(j, s0, s, w);
      } else {
        OwnersDiffer(j, v, w, x);
        WriteElsewhere(j, s0, s, t, x, ManifestOf(j.o, w, a.order, a.at), v);
      }
    }
    hide Owns;
    assert w in j.windows && Owns(j.o, w, x);
    forall y | !(exists v :: v in j.windows && Owns(j.o, v, y)) ensures Same(t.store, s0, y) {
      assert Same(s.store, s0, y);
    }
  }

  lemma CompletedCovers(j: Job, s: State, w: Window)
    requires j.Legal() && Bytes(j.o.logGroup) && w in s.completed && CompletedInv(j, s, w, s.completed[w])
    ensures Covered(j.o, s.store, w)
    ensures FromJson(j.o, s.store[ManSlot(j.o, w)]) == Some(WindowManifest(j.o, w, s.completed[w].order, s.completed[w].at))
  {
    hide PieceEntries, Pieces, DataPuts, ManKey;
    ManifestCovers(j.o, w, WindowManifest(j.o, w, s.completed[w].order, s.completed[w].at));
  }

  lemma StartKeepsWindow(j: Job, s0: Store, s: State, l: Label, v: Window)
    requires j.Legal() && Bytes(j.o.logGroup) && l.Start? && Enabled(j, s, l) && v in j.windows && WindowInv(j, s0, s, v)
    ensures WindowInv(j, s0, Apply(j, s, l), v)
  {
    hide DataPuts, ManifestOf, ManKey, Pieces, CoversWindow, Job.Legal;
    if v == l.w {
      TakeAll(DataPuts(j.o, v, l.order));
      if v in s.completed {
        CompletedCovers(j, s, v);
      }
    }
    assert ObjectsInv(j.o, s0, Apply(j, s, l), v);
  }

  lemma CrashKeepsWindow(j: Job, s0: Store, s: State, v: Window)
    requires Bytes(j.o.logGroup) && WindowInv(j, s0, s, v)
    ensures WindowInv(j, s0, s.(running := map[]), v)
  {
    hide DataPuts, ManifestOf, ManKey, Pieces, Covered;
    assert ObjectsInv(j.o, s0, s.(running := map[]), v);
  }

  lemma StepKeepsInv(j: Job, s0: Store, s: State, l: Label)
    requires j.Legal() && Inv(j, s0, s) && Bytes(j.o.logGroup) && Enabled(j, s, l)
    ensures Inv(j, s0, Apply(j, s, l))
  {
    hide WindowInv, Job.Legal, Covered, DataPuts, PutObject, PutManifest, Owns;
    match l {
      case PutNext(w) =>
        if s.running[w].pos < |DataPuts(j.o, w, s.running[w].order)| {
          ObjectPutKeepsInv(j, s0, s, w);
        } else {
          ManifestPutKeepsInv(j, s0, s, w);
        }
      case Crash =>
        forall v | v in j.windows ensures WindowInv(j, s0, Apply(j, s, l), v) {
          CrashKeepsWindow(j, s0, s, v);
        }
      case Start(w, _, _) =>
        forall v | v in j.windows ensures WindowInv(j, s0, Apply(j, s, l), v) {
          StartKeepsWindow(j, s0, s, l, v);
        }
    }
  }

  lemma InitInv(j: Job, s0: Store)
    requires Bytes(j.o.logGroup)
    ensures Inv(j, s0, State(s0, map[], map[], map[]))
  {
    hide DataPuts, ManifestOf, ManKey, Covered, Pieces;
  }

  lemma {:induction false} RunKeepsInv(j: Job, s0: Store, ls: seq<Label>)
    requires j.Legal() && Bytes(j.o.logGroup) && After(j, s0, ls).Some?
    ensures Inv(j, s0, After(j, s0, ls).value)
  {
    hide Inv, Enabled, Apply, Job.Legal;
    if ls == [] {
      InitInv(j, s0);
    } else {
      RunKeepsInv(j, s0, ls[..|ls| - 1]);
      StepKeepsInv(j, s0, After(j, s0, ls[..|ls| - 1]).value, ls[|ls| - 1]);
    }
  }

  // ----- What a covered window reads back as -----

  /** A window that became covered was completed by one attempt. */
  lemma CoveredMeansCompleted(j: Job, s0: Store, ls: seq<Label>, w: Window)
    requires j.Legal() && Bytes(j.o.logGroup) && After(j, s0, ls).Some? && w in j.windows
    requires !Covered(j.o, s0, w) && Covered(j.o, After(j, s0, ls).value.store, w)
    ensures var s := After(j, s0, ls).value; w in s.completed && CompletedInv(j, s, w, s.completed[w])
  {
    hide After, DataPuts, ManifestOf, ManKey, Pieces, CoversWindow, Job.Legal;
    RunKeepsInv(j, s0, ls);
    assert WindowInv(j, s0, After(j, s0, ls).value, w);
  }

  /**
   * Whatever orders the attempts saw and wherever they stopped: the objects a
   * completed window lists read back as the completing attempt's order, which
   * holds exactly the window's events.
   */
  lemma ListedReadBack(j: Job, s0: Store, ls: seq<Label>, w: Window)
    requires j.Legal() && Bytes(j.o.logGroup) && After(j, s0, ls).Some? && w in j.windows
    requires !Covered(j.o, s0, w) && Covered(j.o, After(j, s0, ls).value.store, w)
    ensures var s := After(j, s0, ls).value;
            && w in s.completed && multiset(s.completed[w].order) == multiset(j.events(w))
            && ReadListed(j.o, s.store, FromJson(j.o, s.store[ManSlot(j.o, w)]).value.objects) == Some(s.completed[w].order)
  {
    hide After, Pieces, PieceEntries, PiecePuts, ReadListed, ManKey;
    CoveredMeansCompleted(j, s0, ls, w);
    var s := After(j, s0, ls).value;
    var a := s.completed[w];
    CompletedCovers(j, s, w);
    LegalJob(j);
    hide Job.Legal, Options.Legal;
    PiecesPartition(j.o, a.order);
    EntriesReadBack(j.o, s.store, w, Base, Pieces(j.o, a.order));
  }

  // ----- Against the uninterrupted run -----

  /** The store after one uninterrupted drain of the window in the attempt's order. */
  function Straight(o: Options, s0: Store, w: Window, a: Attempt): Store
    requires Bytes(o.logGroup)
  {
    ApplyPuts(s0, DrainPlan(o, w, a.order, a.at))
  }

  ghost predicate Agrees(o: Options, s0: Store, s: State, w: Window)
    requires Bytes(o.logGroup) && w in s.completed
  {
    forall x :: Owns(o, w, x) ==> Same(s.store, Straight(o, s0, w, s.completed[w]), x)
  }

  /** The window had no data objects of a drain. */
  ghost predicate NoObjects(o: Options, s0: Store, w: Window)
    requires Bytes(o.logGroup)
  {
    forall n: nat :: DataSlot(ObjKey(o, w, Base, n)) !in s0
  }

  /** Every slot of an object below the piece count is written by the plan. */
  lemma SlotPut(o: Options, w: Window, order: seq<LogRecord>, n: nat, x: Slot) returns (i: nat)
    requires Bytes(o.logGroup) && n < |Pieces(o, order)| && ObjectSlot(o, w, Base, n, x)
    ensures i < |DataPuts(o, w, order)| && DataPuts(o, w, order)[i].slot == x
  {
    hide ObjKey, PiecePuts, ChunkFor, Pieces;
    PiecesPartition(o, order);
    i := 3 * n + (match x case DataSlot(_) => 0 case IndexSlot(_) => 1 case TsSlot(_) => 2 case ManifestSlot(_) => 0);
    assert i / 3 == n;
    PutsCount(o, w, Pieces(o, order));
    PutAt(o, w, Pieces(o, order), i);
  }

  /** No slot of an object at or beyond the piece count is. */
  lemma SlotNotPut(o: Options, w: Window, order: seq<LogRecord>, n: nat, x: Slot, i: nat)
    requires o.Legal() && JobWindow(o, w) && Bytes(o.logGroup) && n >= |Pieces(o, order)| && ObjectSlot(o, w, Base, n, x)
    requires i < |DataPuts(o, w, order)|
    ensures DataPuts(o, w, order)[i].slot != x
  {
    hide ObjKey, DataPuts, Pieces, Options.Legal, JobWindow;
    SlotAt(o, w, order, i);
    if DataPuts(o, w, order)[i].slot == x {
      ObjKeyInjective(o, w, Base, n, w, Base, i / 3);
    }
  }

  /** The uninterrupted store: planned slots hold the plan, the window's other slots are as they were. */
  lemma StraightAt(o: Options, s0: Store, w: Window, a: Attempt, n: nat, x: Slot)
    requires o.Legal() && JobWindow(o, w) && Bytes(o.logGroup)
    ensures var b := Straight(o, s0, w, a);
            && ManSlot(o, w) in b && b[ManSlot(o, w)] == ManifestOf(o, w, a.order, a.at)
            && AllPut(b, DataPuts(o, w, a.order))
            && (ObjectSlot(o, w, Base, n, x) && n >= |Pieces(o, a.order)| ==> Same(b, s0, x))
  {
    hide ObjKey, ManKey, Pieces, PiecePuts, WindowManifest, Options.Legal, JobWindow;
    DrainStores(o, w, a.order, a.at, s0);
    if ObjectSlot(o, w, Base, n, x) && n >= |Pieces(o, a.order)| {
      var plan := DrainPlan(o, w, a.order, a.at);
      forall i | 0 <= i < |plan| ensures plan[i].slot != x {
        if i < |DataPuts(o, w, a.order)| {
          SlotNotPut(o, w, a.order, n, x, i);
          assert plan[i] == DataPuts(o, w, a.order)[i];
        }
      }
      ApplyElsewhere(s0, plan, x);
    }
  }

  lemma NoLeftoverAgrees(j: Job, s0: Store, s: State, w: Window)
    requires j.Legal() && Bytes(j.o.logGroup) && w in j.windows && WindowInv(j, s0, s, w) && w in s.completed
    requires Reach(s, w) <= |Pieces(j.o, s.completed[w].order)|
    ensures Agrees(j.o, s0, s, w)
  {
    LegalJob(j);
    JobWindowOf(j, w);
    hide Job.Legal, Options.Legal, JobWindow, ObjKey, ManKey, Pieces, PiecePuts, Straight, ManifestOf, Covered;
    var a := s.completed[w];
    var b := Straight(j.o, s0, w, a);
    forall x | Owns(j.o, w, x) ensures Same(s.store, b, x) {
      if x == ManSlot(j.o, w) {
        StraightAt(j.o, s0, w, a, 0, x);
      } else {
        var n: nat :| ObjectSlot(j.o, w, Base, n, x);
        StraightAt(j.o, s0, w, a, n, x);
        if n < |Pieces(j.o, a.order)| {
          var i := SlotPut(j.o, w, a.order, n, x);
          assert DataPuts(j.o, w, a.order)[i].slot in s.store;
        } else {
          assert Same(s.store, s0, x);
        }
      }
    }
  }

  lemma LeftoverDisagrees(j: Job, s0: Store, s: State, w: Window)
    requires j.Legal() && Bytes(j.o.logGroup) && w in j.windows && WindowInv(j, s0, s, w) && w in s.completed
    requires Reach(s, w) > |Pieces(j.o, s.completed[w].order)| && NoObjects(j.o, s0, w)
    ensures !Agrees(j.o, s0, s, w)
    ensures var n := |Pieces(j.o, s.completed[w].order)|;
            DataSlot(ObjKey(j.o, w, Base, n)) in s.store
  {
    LegalJob(j);
    JobWindowOf(j, w);
    hide Job.Legal, Options.Legal, JobWindow, ObjKey, ManKey, Pieces, DataPuts, Straight, ManifestOf, Covered, WindowInv, AllPut;
    var a := s.completed[w];
    var n := |Pieces(j.o, a.order)|;
    var x := DataSlot(ObjKey(j.o, w, Base, n));
    assert ObjectSlot(j.o, w, Base, n, x);
    StraightAt(j.o, s0, w, a, n, x);
    ReachedIsStored(j, s0, s, w, n);
    assert Owns(j.o, w, x) && !Same(s.store, Straight(j.o, s0, w, a), x);
  }

  lemma ReachedIsStored(j: Job, s0: Store, s: State, w: Window, n: nat)
    requires Bytes(j.o.logGroup) && WindowInv(j, s0, s, w) && n < Reach(s, w)
    ensures DataSlot(ObjKey(j.o, w, Base, n)) in s.store
  {
    hide CompletedInv, RunningInv, Covered, ManKey, ObjKey;
  }

  /**
   * The exact condition for one window: the interrupted drain left the window
   * as one uninterrupted drain in the completing order would have, if no attempt
   * had begun an object at or beyond the completing attempt's piece count; and,
   * when the window had no objects to begin with, only if.
   */
  lemma ExactlyTheUninterrupted(j: Job, s0: Store, ls: seq<Label>, w: Window)
    requires j.Legal() && Bytes(j.o.logGroup) && After(j, s0, ls).Some? && w in j.windows
    requires !Covered(j.o, s0, w) && Covered(j.o, After(j, s0, ls).value.store, w)
    ensures var s := After(j, s0, ls).value;
            && w in s.completed
            && (Reach(s, w) <= |Pieces(j.o, s.completed[w].order)| ==> Agrees(j.o, s0, s, w))
            && (NoObjects(j.o, s0, w) ==> (Agrees(j.o, s0, s, w) <==> Reach(s, w) <= |Pieces(j.o, s.completed[w].order)|))
  {
    hide After, Pieces, Agrees, NoObjects, Job.Legal, Covered, WindowInv, CompletedInv;
    CoveredMeansCompleted(j, s0, ls, w);
    RunKeepsInv(j, s0, ls);
    var s := After(j, s0, ls).value;
    assert WindowInv(j, s0, s, w);
    if Reach(s, w) <= |Pieces(j.o, s.completed[w].order)| {
      NoLeftoverAgrees(j, s0, s, w);
    } else if NoObjects(j.o, s0, w) {
      LeftoverDisagrees(j, s0, s, w);
    }
  }

  // ----- Whole stores -----

  ghost predicate NoLeftovers(j: Job, s: State) {
    forall w :: w in s.completed ==> Reach(s, w) <= |Pieces(j.o, s.completed[w].order)|
  }

  /** Equal, up to the completion time of a manifest. */
  ghost predicate Alike(j: Job, a: State, b: State, x: Slot)
    requires Bytes(j.o.logGroup)
  {
    Same(a.store, b.store, x) || exists w :: DiffersInTime(j, a, b, w, x)
  }

  ghost predicate DiffersInTime(j: Job, a: State, b: State, w: Window, x: Slot)
    requires Bytes(j.o.logGroup)
  {
    && w in j.windows && x == ManSlot(j.o, w) && w in a.completed && w in b.completed && x in a.store && x in b.store
    && a.completed[w].order == b.completed[w].order
    && a.store[x] == ManifestOf(j.o, w, a.completed[w].order, a.completed[w].at)
    && b.store[x] == ManifestOf(j.o, w, b.completed[w].order, b.completed[w].at)
  }

  /** Both runs completed the same windows, each in the same order. */
  ghost predicate SameOrders(j: Job, a: State, b: State) {
    forall w :: w in j.windows ==> (w in a.completed <==> w in b.completed) && (w in a.completed ==> a.completed[w].order == b.completed[w].order)
  }

  lemma AlikeAt(j: Job, s0: Store, a: State, b: State, w: Window, x: Slot)
    requires j.Legal() && Bytes(j.o.logGroup) && w in j.windows && Owns(j.o, w, x)
    requires WindowInv(j, s0, a, w) && WindowInv(j, s0, b, w) && SameOrders(j, a, b)
    requires w in a.completed ==> Reach(a, w) <= |Pieces(j.o, a.completed[w].order)| && Reach(b, w) <= |Pieces(j.o, b.completed[w].order)|
    requires w !in a.completed ==> Reach(a, w) == 0 == Reach(b, w)
    ensures Alike(j, a, b, x)
  {
    hide Job.Legal, ObjKey, ManKey, Pieces, PiecePuts, ManifestOf, Covered;
    if x == ManSlot(j.o, w) {
      assert w in a.completed ==> DiffersInTime(j, a, b, w, x);
    } else {
      var n: nat :| ObjectSlot(j.o, w, Base, n, x);
      if w in a.completed && n < |Pieces(j.o, a.completed[w].order)| {
        var i := SlotPut(j.o, w, a.completed[w].order, n, x);
        assert DataPuts(j.o, w, a.completed[w].order)[i].slot in a.store;
      } else {
        assert Same(a.store, s0, x) && Same(b.store, s0, x);
      }
    }
  }

  /** In a run without interruption a window has one attempt, and its reach is that attempt's. */
  ghost predicate OneAttempt(j: Job, s: State, w: Window)
    requires Bytes(j.o.logGroup)
  {
    && (w in s.running ==> Reach(s, w) == (s.running[w].pos + 2) / 3)
    && (w !in s.running && w in s.completed ==> Reach(s, w) <= |Pieces(j.o, s.completed[w].order)|)
    && (w !in s.running && w !in s.completed ==> Reach(s, w) == 0)
  }

  lemma {:induction false} Uninterrupted(j: Job, s0: Store, ls: seq<Label>, w: Window)
    requires j.Legal() && Bytes(j.o.logGroup) && After(j, s0, ls).Some? && w in j.windows
    requires forall l :: l in ls ==> !l.Crash?
    ensures OneAttempt(j, After(j, s0, ls).value, w)
  {
    if ls != [] {
      var init, l := ls[..|ls| - 1], ls[|ls| - 1];
      Uninterrupted(j, s0, init, w);
      RunKeepsInv(j, s0, init);
      assert l in ls;
      hide After;
      StepKeepsOneAttempt(j, s0, After(j, s0, init).value, l, w);
    }
  }

  lemma StepKeepsOneAttempt(j: Job, s0: Store, s: State, l: Label, w: Window)
    requires j.Legal() && Bytes(j.o.logGroup) && Inv(j, s0, s) && Enabled(j, s, l) && !l.Crash? && w in j.windows && OneAttempt(j, s, w)
    ensures OneAttempt(j, Apply(j, s, l), w)
  {
    hide DataPuts, ManifestOf, ManKey, Pieces, Job.Legal, CoversWindow;
    assert WindowInv(j, s0, s, w);
    if l.w == w {
      if l.Start? {
        if w in s.completed {
          CompletedCovers(j, s, w);
        }
      } else {
        PutsLength(j.o, w, s.running[w].order);
      }
    }
  }

  /**
   * An interrupted run and an uninterrupted one that complete the windows in the
   * same orders end alike, up to completion times, if no interrupted attempt left
   * an object at or beyond a completing attempt's piece count; and, when the
   * windows had no objects to begin with, only if.
   */
  lemma InterruptedEqualsUninterrupted(j: Job, s0: Store, interrupted: seq<Label>, straight: seq<Label>)
    requires j.Legal() && Bytes(j.o.logGroup) && After(j, s0, interrupted).Some? && After(j, s0, straight).Some?
    requires forall l :: l in straight ==> !l.Crash?
    requires var a, b := After(j, s0, interrupted).value, After(j, s0, straight).value;
             && SameOrders(j, a, b)
             && forall w :: w in j.windows ==> Covered(j.o, a.store, w) && Covered(j.o, b.store, w)
    ensures var a, b := After(j, s0, interrupted).value, After(j, s0, straight).value;
            && (NoLeftovers(j, a) ==> forall x :: Alike(j, a, b, x))
            && ((forall w :: w in j.windows && !Covered(j.o, s0, w) ==> NoObjects(j.o, s0, w)) ==>
                  ((forall x :: Alike(j, a, b, x)) <==> NoLeftovers(j, a)))
  {
    hide After, Job.Legal, Pieces, Alike, Owns, WindowInv, Covered, NoObjects, CompletedInv;
    var a, b := After(j, s0, interrupted).value, After(j, s0, straight).value;
    RunKeepsInv(j, s0, interrupted);
    RunKeepsInv(j, s0, straight);
    if NoLeftovers(j, a) {
      forall x ensures Alike(j, a, b, x) {
        NoLeftoversAlike(j, s0, interrupted, straight, x);
      }
    } else if forall w :: w in j.windows && !Covered(j.o, s0, w) ==> NoObjects(j.o, s0, w) {
      var w :| w in a.completed && Reach(a, w) > |Pieces(j.o, a.completed[w].order)|;
      var x := LeftoverUnlike(j, s0, interrupted, straight, w);
    }
  }

  lemma NoLeftoversAlike(j: Job, s0: Store, interrupted: seq<Label>, straight: seq<Label>, x: Slot)
    requires j.Legal() && Bytes(j.o.logGroup) && After(j, s0, interrupted).Some? && After(j, s0, straight).Some?
    requires forall l :: l in straight ==> !l.Crash?
    requires var a, b := After(j, s0, interrupted).value, After(j, s0, straight).value;
             && SameOrders(j, a, b) && Inv(j, s0, a) && Inv(j, s0, b) && NoLeftovers(j, a)
             && forall w :: w in j.windows ==> Covered(j.o, a.store, w)
    ensures Alike(j, After(j, s0, interrupted).value, After(j, s0, straight).value, x)
  {
    hide After, Job.Legal, Pieces, Owns, CompletedInv, RunningInv, ObjectsInv, CoversWindow, ManKey;
    var a, b := After(j, s0, interrupted).value, After(j, s0, straight).value;
    if w :| w in j.windows && Owns(j.o, w, x) {
      assert WindowInv(j, s0, a, w) && WindowInv(j, s0, b, w);
      Uninterrupted(j, s0, straight, w);
      hide WindowInv;
      UntouchedIsUnreached(j, s0, a, w);
      if w !in a.completed {
        assert w !in b.completed && Reach(b, w) == 0 by { UntouchedRunsNothing(j, s0, a, b, w); }
      } else {
        assert w !in b.running by { CompletedNotRunning(j, s0, b, w); }
      }
      AlikeAt(j, s0, a, b, w, x);
    } else {
      assert Same(a.store, s0, x) && Same(b.store, s0, x);
    }
  }

  lemma CompletedNotRunning(j: Job, s0: Store, b: State, w: Window)
    requires Bytes(j.o.logGroup) && WindowInv(j, s0, b, w) && w in b.completed
    ensures w !in b.running
  {
  }

  /** Covered without being completed: it was covered from the start and never touched. */
  lemma UntouchedIsUnreached(j: Job, s0: Store, a: State, w: Window)
    requires Bytes(j.o.logGroup) && WindowInv(j, s0, a, w) && Covered(j.o, a.store, w)
    ensures w !in a.completed ==> Covered(j.o, s0, w) && Reach(a, w) == 0
  {
    hide ObjectsInv, CompletedInv, RunningInv, CoversWindow, ManKey;
  }

  lemma UntouchedRunsNothing(j: Job, s0: Store, a: State, b: State, w: Window)
    requires Bytes(j.o.logGroup) && WindowInv(j, s0, a, w) && WindowInv(j, s0, b, w) && Covered(j.o, a.store, w) && w !in a.completed
    ensures w !in b.completed && Reach(b, w) == 0
  {
    UntouchedIsUnreached(j, s0, a, w);
    hide ObjectsInv, CompletedInv, RunningInv, CoversWindow, ManKey;
  }

  lemma LeftoverUnlike(j: Job, s0: Store, interrupted: seq<Label>, straight: seq<Label>, w: Window) returns (x: Slot)
    requires j.Legal() && Bytes(j.o.logGroup) && After(j, s0, interrupted).Some? && After(j, s0, straight).Some?
    requires forall l :: l in straight ==> !l.Crash?
    requires var a, b := After(j, s0, interrupted).value, After(j, s0, straight).value;
             && SameOrders(j, a, b) && Inv(j, s0, a) && Inv(j, s0, b)
             && w in a.completed && Reach(a, w) > |Pieces(j.o, a.completed[w].order)|
             && (!Covered(j.o, s0, w) ==> NoObjects(j.o, s0, w))
    ensures !Alike(j, After(j, s0, interrupted).value, After(j, s0, straight).value, x)
  {
    hide After, Job.Legal, Pieces, CompletedInv, RunningInv, ManKey, ObjKey, CoversWindow;
    var a, b := After(j, s0, interrupted).value, After(j, s0, straight).value;
    assert w in j.windows;
    assert WindowInv(j, s0, a, w) && WindowInv(j, s0, b, w);
    Uninterrupted(j, s0, straight, w);
    var n := |Pieces(j.o, a.completed[w].order)|;
    x := DataSlot(ObjKey(j.o, w, Base, n));
    assert ObjectSlot(j.o, w, Base, n, x);
    assert x in a.store && x !in b.store;
  }

  /** Once every window is covered, a further run writes nothing: no window can start. */
  lemma FurtherRunWritesNothing(j: Job, s: State, l: Label)
    requires Bytes(j.o.logGroup) && s.running == map[] && Enabled(j, s, l)
    requires forall w :: w in j.windows ==> Covered(j.o, s.store, w)
    ensures l.Crash? && Apply(j, s, l) == s
  {
    hide Covered;
  }
}
