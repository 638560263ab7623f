/**
 * The fail-closed retention gate, over every run of drains, repairs, crashes
 * and stray manifest bytes: when the policy may be issued, everything it would
 * expire can be read back.
 */
module Retention {
  import opened Common
  import opened Layout
  import opened Chunk
  import opened Windows
  import opened Drain
  import opened Keys
  import opened Archive
  import Reconcile

  // ----- The gate -----

  /** CloudWatch's retention is a 32-bit number of days. */
  type I32 = x: int | -0x8000_0000 <= x <= 0x7FFF_FFFF

  datatype Request = Request(retentionDays: I32, coverageFromMs: I64, nowMs: I64, windowMs: I64)

  datatype RetentionPlan = RetentionPlan(cutoffMs: int, required: seq<Window>, missing: seq<Window>, applied: bool)
  {
    predicate Allowed() {
      missing == []
    }
  }

  datatype GateError = BadRetention(days: int) | BadWindow(error: WindowError) | PolicyRefused

  /** Events older than this would be expired. */
  function Cutoff(req: Request): I64 {
    Saturate(req.nowMs - Saturate(req.retentionDays * DAY_MS))
  }

  /** The window must have a valid manifest before retention may shrink. */
  predicate Required(req: Request, w: Window) {
    Cutoff(req) > req.coverageFromMs && w.endMs > req.coverageFromMs && w.startMs < Cutoff(req)
  }

  /** An instant since the start of coverage that is more than the retention before now. */
  ghost predicate Expired(req: Request, ts: int) {
    req.coverageFromMs <= ts && ts + req.retentionDays * 86_400_000 < req.nowMs
  }

  /** Every required window was covered when its manifest was fetched; the fetches see successive stores. */
  ghost predicate SeenCovered(o: Options, gets: nat -> Store, required: seq<Window>)
    requires Bytes(o.logGroup)
  {
    forall i :: 0 <= i < |required| ==> Covered(o, gets(i), required[i])
  }

  /** Window i is a grid window that holds the instant and was covered when its manifest was fetched. */
  ghost predicate Guards(o: Options, gets: nat -> Store, windowMs: int, required: seq<Window>, i: nat, ts: int)
    requires Bytes(o.logGroup)
  {
    && i < |required| && windowMs > 0 && GridWindow(required[i], windowMs) && required[i].endMs <= I64_MAX
    && required[i].startMs <= ts < required[i].endMs && Covered(o, gets(i), required[i])
  }

  /** Every instant that the policy would expire has a window that was seen covered. */
  ghost predicate AllGuarded(o: Options, gets: nat -> Store, req: Request, required: seq<Window>)
    requires Bytes(o.logGroup)
  {
    forall ts :: Expired(req, ts) ==> exists i: nat :: Guards(o, gets, req.windowMs, required, i, ts)
  }

  /** The gate cannot plan: its input is bad, or it would have to step through the last 64-bit day. */
  predicate Unplannable(req: Request) {
    || req.retentionDays <= 0
    || (req.coverageFromMs + req.retentionDays * 86_400_000 < req.nowMs &&
        (req.windowMs <= 0 || req.coverageFromMs < 0 || req.nowMs - req.retentionDays * 86_400_000 > LAST_DAY))
  }

  /** The cutoff is the retention before now, or the least timestamp where that is below it. */
  lemma CutoffIs(req: Request)
    requires req.retentionDays > 0
    ensures var c := req.nowMs - req.retentionDays * 86_400_000;
            Cutoff(req) == (if c < I64_MIN then I64_MIN else c) && (Cutoff(req) > req.coverageFromMs <==> c > req.coverageFromMs)
  {
  }

  lemma InstantRequired(req: Request, ts: int) returns (w: Window)
    requires !Unplannable(req) && Expired(req, ts)
    ensures req.windowMs > 0 && GridWindow(w, req.windowMs) && Required(req, w) && w.startMs <= ts < w.endMs <= I64_MAX
  {
    CutoffIs(req);
    hide Boundary, GridWindow, AlignDown, Cutoff;
    GridTilesTime(ts, req.windowMs);
    w := Window(AlignDown(ts, req.windowMs), NextBoundary(AlignDown(ts, req.windowMs), req.windowMs));
    DayEndFits(w.startMs);
  }

  lemma RequiredIsGuarded(o: Options, gets: nat -> Store, req: Request, required: seq<Window>)
    requires Bytes(o.logGroup) && !Unplannable(req) && SeenCovered(o, gets, required)
    requires req.windowMs > 0 ==> Exactly(required, req.windowMs, (w: Window) => Required(req, w))
    ensures AllGuarded(o, gets, req, required)
  {
    hide Covered, GridWindow, Required, Expired;
    forall ts | Expired(req, ts) ensures exists i: nat :: Guards(o, gets, req.windowMs, required, i, ts) {
      var w := InstantRequired(req, ts);
      assert w in required;
      var i :| 0 <= i < |required| && required[i] == w;
      assert Guards(o, gets, req.windowMs, required, i, ts);
    }
  }

  /**
   * Plan: fetch the manifest of each required window in turn, the i-th from the
   * store gets(i), and collect the windows whose bytes do not decode to a
   * manifest of exactly that window. Every window with an instant to expire is
   * required, and no window that starts within the retention is.
   */
  method PlanRetention(o: Options, gets: nat -> Store, req: Request) returns (r: Result<RetentionPlan, GateError>)
    requires Bytes(o.logGroup)
    ensures r.Ok? ==> r.value.cutoffMs == Max(I64_MIN, req.nowMs - req.retentionDays * 86_400_000) && !r.value.applied
    ensures r.Ok? && req.windowMs > 0 ==> Exactly(r.value.required, req.windowMs, (w: Window) => Required(req, w))
    ensures r.Ok? ==> (r.value.required != [] ==> req.windowMs > 0) && (r.value.Allowed() ==> AllGuarded(o, gets, req, r.value.required))
    ensures r.Ok? ==> forall w :: w in r.value.required ==> w.startMs + req.retentionDays * 86_400_000 < req.nowMs && w.endMs > req.coverageFromMs
    ensures r.Ok? ==> (r.value.Allowed() <==> SeenCovered(o, gets, r.value.required))
    ensures r.Ok? ==>
              forall w :: w in r.value.missing <==>
                exists i :: 0 <= i < |r.value.required| && r.value.required[i] == w && !Covered(o, gets(i), w)
    ensures r.Err? <==> Unplannable(req)
    ensures r.Err? ==> (r.error == BadRetention(req.retentionDays) <==> req.retentionDays <= 0) && !r.error.PolicyRefused?
  {
    hide Covered, GridWindow;
    if req.retentionDays <= 0 {
      return Err(BadRetention(req.retentionDays));
    }
    var cutoff := Cutoff(req);
    CutoffIs(req);
    var required: seq<Window> := [];
    if cutoff > req.coverageFromMs {
      if Validate(req.coverageFromMs, cutoff, req.windowMs).None? {
        AlignedBelowNext(req.coverageFromMs, req.windowMs);
      }
      var ws := CoveringWindows(req.coverageFromMs, cutoff, req.windowMs);
      if ws.Err? {
        return Err(BadWindow(ws.error));
      }
      required := ws.value;
    }
    var missing: seq<Window> := [];
    for i := 0 to |required|
      invariant forall w :: w in missing ==> exists k :: 0 <= k < i && required[k] == w && !Covered(o, gets(k), w)
      invariant forall k :: 0 <= k < i && !Covered(o, gets(k), required[k]) ==> required[k] in missing
    {
      if !Covered(o, gets(i), required[i]) {
        missing := missing + [required[i]];
      }
    }
    assert missing != [] ==> missing[0] in missing;
    if missing == [] {
      RequiredIsGuarded(o, gets, req, required);
    }
    return Ok(RetentionPlan(cutoff, required, missing, false));
  }

  /**
   * Issue the policy only on complete coverage and only when asked to; accepts
   * tells whether CloudWatch takes it. Whenever it is issued, every instant it
   * expires lies in a window that was seen covered.
   */
  method EnforceRetention(o: Options, gets: nat -> Store, req: Request, apply: bool, accepts: bool)
    returns (r: Result<RetentionPlan, GateError>, issued: bool, ghost required: seq<Window>)
    requires Bytes(o.logGroup)
    ensures issued ==> apply && !Unplannable(req) && SeenCovered(o, gets, required) && AllGuarded(o, gets, req, required)
    ensures r.Ok? ==> r.value.applied == issued && (apply && r.value.Allowed() ==> issued)
    ensures r == Err(PolicyRefused) <==> issued && !accepts
  {
    hide Covered, GridWindow, AllGuarded;
    r := PlanRetention(o, gets, req);
    issued, required := false, [];
    if r.Ok? && r.value.Allowed() && apply {
      issued, required := true, r.value.required;
      r := if accepts then Ok(r.value.(applied := true)) else Err(PolicyRefused);
    }
  }

  // ----- The archive under drains, repairs, crashes and stray bytes -----

  datatype Work =
    | Draining(events: seq<LogRecord>, at: int, pos: nat)
    | Repairing(m: Manifest, attempt: nat, events: seq<LogRecord>, missing: seq<LogRecord>, at: int, pos: nat)

  /**
   * paged records what CloudWatch returned to the drain that last completed a
   * window, repaged what it returned to the repairs completed since. drains and
   * told forget nothing: the events of every completed drain of a window, and
   * those of every completed repair of a manifest covering it, whether or not
   * the repair found anything missing.
   */
  datatype State = State(
    store: Store, jobs: map<Window, Work>, paged: map<Window, seq<LogRecord>>, repaged: map<Window, seq<LogRecord>>,
    drains: map<Window, seq<seq<LogRecord>>>, told: map<Window, seq<LogRecord>>, h: Reconcile.Hashes)

  datatype Label =
    | StartDrain(w: Window, events: seq<LogRecord>, at: int)
    | StartRepair(w: Window, events: seq<LogRecord>, at: int, attempt: nat)
    | CleanRepair(w: Window, events: seq<LogRecord>)
    | PutNext(w: Window)
    | Crash
    | Stray(key: string, bytes: seq<byte>)

  function Naming(k: Work): ObjectNaming {
    match k case Draining(_, _, _) => Base case Repairing(_, a, _, _, _, _) => Layout.Reconcile(a)
  }

  function Records(k: Work): seq<LogRecord> {
    match k case Draining(es, _, _) => es case Repairing(_, _, _, ms, _, _) => ms
  }

  function FinalManifest(o: Options, w: Window, k: Work): Manifest
    requires Bytes(o.logGroup)
  {
    match k
    case Draining(es, at, _) => WindowManifest(o, w, es, at)
    case Repairing(m, a, _, ms, at, _) => Reconcile.Repaired(o, w, m, a, ms, at)
  }

  function DataPuts(o: Options, w: Window, k: Work): seq<Put>
    requires Bytes(o.logGroup)
  {
    PiecePuts(o, w, Naming(k), Pieces(o, Records(k)))
  }

  function ManSlot(o: Options, w: Window): Slot
    requires Bytes(o.logGroup)
  {
    ManifestSlot(ManKey(o, w))
  }

  function Matches(o: Options, w: Window, m: Manifest): bool {
    m.version == MANIFEST_VERSION && m.account == o.account && m.logGroup == o.logGroup && m.startMs == w.startMs && m.endMs == w.endMs
  }

  /** Bounds that fit the timestamps of the code. */
  predicate Representable(w: Window) {
    0 <= w.startMs && I64_MIN <= w.endMs <= I64_MAX && w.startMs <= I64_MAX
  }

  ghost predicate Enabled(o: Options, s: State, l: Label)
    requires Bytes(o.logGroup)
  {
    match l
    case StartDrain(w, events, _) =>
      JobWindow(o, w) && w !in s.jobs && !Covered(o, s.store, w)
    case StartRepair(w, events, _, attempt) =>
      && JobWindow(o, w) && w !in s.jobs && ManSlot(o, w) in s.store
      && (match FromJson(o, s.store[ManSlot(o, w)])
          case None => false
          case Some(m) =>
            && NextFree(KeysOf(m.objects), attempt)
            && (match ReadListed(o, s.store, m.objects)
                case None => false
                case Some(archived) => Missing(s.h, archived, events) != []))
    case CleanRepair(w, events) =>
      && JobWindow(o, w) && w !in s.jobs && ManSlot(o, w) in s.store
      && (match FromJson(o, s.store[ManSlot(o, w)])
          case None => false
          case Some(m) =>
            && (exists attempt: nat :: NextFree(KeysOf(m.objects), attempt))
            && (match ReadListed(o, s.store, m.objects)
                case None => false
                case Some(archived) => Missing(s.h, archived, events) == []))
    case PutNext(w) => w in s.jobs && s.jobs[w].pos <= |DataPuts(o, w, s.jobs[w])|
    case Crash => true
    case Stray(key, bytes) => forall w :: Representable(w) && ManKey(o, w) == key ==> !CoversWindow(o, bytes, w)
  }

  function Missing(h: Reconcile.Hashes, archived: seq<LogRecord>, events: seq<LogRecord>): seq<LogRecord> {
    Reconcile.Repage(h, Reconcile.IdentitySet(h, archived), events).missing
  }

  ghost function Apply(o: Options, s: State, l: Label): State
    requires Bytes(o.logGroup) && Enabled(o, s, l)
  {
    match l
    case StartDrain(w, events, at) => s.(jobs := s.jobs[w := Draining(events, at, 0)])
    case StartRepair(w, events, at, attempt) =>
      var m := FromJson(o, s.store[ManSlot(o, w)]).value;
      var archived := ReadListed(o, s.store, m.objects).value;
      s.(jobs := s.jobs[w := Repairing(m, attempt, events, Missing(s.h, archived, events), at, 0)])
    case CleanRepair(w, events) =>
      var m := FromJson(o, s.store[ManSlot(o, w)]).value;
      s.(repaged := s.repaged[w := Repaged(s, w) + events],
         told := s.told[w := if Matches(o, w, m) then Told(s, w) + events else Told(s, w)])
    case PutNext(w) => if s.jobs[w].pos < |DataPuts(o, w, s.jobs[w])| then PutObject(o, s, w) else PutManifest(o, s, w)
    case Crash => s.(jobs := map[])
    case Stray(key, bytes) => s.(store := s.store[ManifestSlot(key) := bytes])
  }

  function PutObject(o: Options, s: State, w: Window): State
    requires Bytes(o.logGroup) && w in s.jobs && s.jobs[w].pos < |DataPuts(o, w, s.jobs[w])|
  {
    var k := s.jobs[w];
    var p := DataPuts(o, w, k)[k.pos];
    s.(store := s.store[p.slot := p.value], jobs := s.jobs[w := k.(pos := k.pos + 1)])
  }

  function Repaged(s: State, w: Window): seq<LogRecord> {
    if w in s.repaged then s.repaged[w] else []
  }

  /** The events of each completed drain of the window, in order. */
  function Drains(s: State, w: Window): seq<seq<LogRecord>> {
    if w in s.drains then s.drains[w] else []
  }

  function Told(s: State, w: Window): seq<LogRecord> {
    if w in s.told then s.told[w] else []
  }

  function PutManifest(o: Options, s: State, w: Window): State
    requires Bytes(o.logGroup) && w in s.jobs
  {
    var k := s.jobs[w];
    State(s.store[ManSlot(o, w) := o.man.enc(FinalManifest(o, w, k))], s.jobs - {w},
          if k.Draining? then s.paged[w := k.events] else s.paged,
          s.repaged[w := if k.Draining? then [] else Repaged(s, w) + k.events],
          s.drains[w := if k.Draining? then Drains(s, w) + [k.events] else Drains(s, w)],
          s.told[w := if k.Repairing? && Matches(o, w, k.m) then Told(s, w) + k.events else Told(s, w)], s.h)
  }

  ghost function After(o: Options, h: Reconcile.Hashes, s0: Store, ls: seq<Label>): Option<State>
    requires Bytes(o.logGroup)
  {
    if ls == [] then Some(State(s0, map[], map[], map[], map[], map[], h))
    else
      match After(o, h, s0, ls[..|ls| - 1])
      case None => None
      case Some(s) =>
        if Enabled(o, s, ls[|ls| - 1]) then Some(Apply(o, s, ls[|ls| - 1])) else None
  }

  // ----- What every step keeps -----

  /** The listed objects are the window's own, can be read, and hold everything its drain was given. */
  ghost predicate Holds(o: Options, s: State, w: Window, es: seq<ManifestObject>)
    requires Bytes(o.logGroup)
  {
    && Orderly(o, w, es) && w in s.paged
    && ReadListed(o, s.store, es).Some?
    && multiset(s.paged[w]) <= multiset(ReadListed(o, s.store, es).value)
    && AllKnown(s.h, ReadListed(o, s.store, es).value, Repaged(s, w))
  }

  /** The archive knows every event, by id or by content. */
  ghost predicate AllKnown(h: Reconcile.Hashes, archived: seq<LogRecord>, events: seq<LogRecord>) {
    forall e :: e in events ==> Reconcile.Recognized(h, archived, e)
  }

  ghost predicate WindowInv(o: Options, s: State, w: Window)
    requires Bytes(o.logGroup)
  {
    Covered(o, s.store, w) ==>
      JobWindow(o, w) && Holds(o, s, w, FromJson(o, s.store[ManSlot(o, w)]).value.objects)
  }

  ghost predicate JobInv(o: Options, s: State, w: Window, k: Work)
    requires Bytes(o.logGroup)
  {
    && JobWindow(o, w) && k.pos <= |DataPuts(o, w, k)| && LegalNaming(Naming(k))
    && AllPut(s.store, DataPuts(o, w, k)[..k.pos])
    && (k.Draining? ==> !Covered(o, s.store, w))
    && (k.Repairing? ==>
          && NextFree(KeysOf(k.m.objects), k.attempt)
          && (Matches(o, w, k.m) ==>
                Holds(o, s, w, k.m.objects) && k.missing == Missing(s.h, ReadListed(o, s.store, k.m.objects).value, k.events))
          && (Covered(o, s.store, w) ==> FromJson(o, s.store[ManSlot(o, w)]) == Some(k.m)))
  }

  ghost predicate Inv(o: Options, s: State)
    requires Bytes(o.logGroup)
  {
    && (forall w :: Representable(w) ==> WindowInv(o, s, w))
    && (forall w :: w in s.jobs ==> JobInv(o, s, w, s.jobs[w]))
  }

  lemma CoveredMatches(o: Options, s: Store, w: Window)
    requires Bytes(o.logGroup)
    ensures Covered(o, s, w) <==>
            ManSlot(o, w) in s && FromJson(o, s[ManSlot(o, w)]).Some? && Matches(o, w, FromJson(o, s[ManSlot(o, w)]).value)
  {
  }

  lemma JobIsRepresentable(o: Options, w: Window)
    requires JobWindow(o, w)
    ensures Representable(w)
  {
  }

  lemma ManKeysDiffer(o: Options, v: Window, w: Window)
    requires o.Legal() && Representable(v) && Representable(w) && v != w
    ensures ManKey(o, v) != ManKey(o, w)
  {
    hide ManifestKey, Codec.Lawful, ManifestCodec.Lawful;
    if ManKey(o, v) == ManKey(o, w) {
      ManifestKeyInjective(o.prefix, o.account, o.logGroup, v.startMs, v.endMs, o.account, o.logGroup, w.startMs, w.endMs);
    }
  }

  /** Writing an object of one window leaves what another window's manifest lists. */
  lemma OtherListUndisturbed(o: Options, s: Store, x: Slot, value: seq<byte>, w: Window, naming: ObjectNaming, n: nat, v: Window, es: seq<ManifestObject>)
    requires o.Legal() && JobWindow(o, v) && JobWindow(o, w) && v != w && LegalNaming(naming)
    requires ObjectSlot(o, w, naming, n, x) && Orderly(o, v, es)
    ensures ReadListed(o, s[x := value], es) == ReadListed(o, s, es)
  {
    hide ReadListed, Options.Legal, JobWindow, ObjKey;
    BytesOf(o);
    forall e | e in es ensures DataSlot(e.dataKey) != x {
      var naming', n' :| OwnKey(o, v, KeysOf(es), e.dataKey, naming', n');
      if DataSlot(e.dataKey) == x {
        ObjKeyInjective(o, v, naming', n', w, naming, n);
      }
    }
    ListedUndisturbed(o, s, s[x := value], es);
  }

  /** Writing an object of a fresh attempt leaves what the window's own manifest lists. */
  lemma OwnListUndisturbed(o: Options, s: Store, x: Slot, value: seq<byte>, w: Window, attempt: nat, n: nat, es: seq<ManifestObject>)
    requires o.Legal() && JobWindow(o, w) && ObjectSlot(o, w, Layout.Reconcile(attempt), n, x)
    requires Orderly(o, w, es) && NextFree(KeysOf(es), attempt)
    ensures ReadListed(o, s[x := value], es) == ReadListed(o, s, es)
    ensures forall e :: e in es ==> DataSlot(e.dataKey) != x
  {
    hide ReadListed, Options.Legal, JobWindow, ObjKey, Orderly, NextFree;
    BytesOf(o);
    AttemptIsFresh(o, w, es, attempt, n);
    forall e | e in es ensures DataSlot(e.dataKey) != x {
      var k :| 0 <= k < |es| && es[k] == e;
      assert KeysOf(es)[k] == e.dataKey;
    }
    ListedUndisturbed(o, s, s[x := value], es);
  }

  /** Manifest writes do not touch listed objects. */
  lemma ManifestWriteKeepsLists(o: Options, s: Store, key: string, value: seq<byte>, es: seq<ManifestObject>)
    ensures ReadListed(o, s[ManifestSlot(key) := value], es) == ReadListed(o, s, es)
  {
    hide ReadListed;
    ListedUndisturbed(o, s, s[ManifestSlot(key) := value], es);
  }

  // ----- Object PUTs -----

  lemma ObjectPutKeepsOther(o: Options, s: State, t: State, x: Slot, value: seq<byte>, w: Window, naming: ObjectNaming, n: nat, v: Window)
    requires o.Legal() && JobWindow(o, w) && LegalNaming(naming) && ObjectSlot(o, w, naming, n, x) && v != w
    requires t.store == s.store[x := value] && t.paged == s.paged && t.repaged == s.repaged && t.h == s.h
    ensures WindowInv(o, s, v) ==> WindowInv(o, t, v)
    ensures forall k :: JobInv(o, s, v, k) ==> JobInv(o, t, v, k)
  {
    hide ReadListed, Options.Legal, JobWindow, ObjKey, Orderly, NextFree, PiecePuts, FromJson, Matches;
    BytesOf(o);
    if WindowInv(o, s, v) && Covered(o, s.store, v) {
      OtherListUndisturbed(o, s.store, x, value, w, naming, n, v, FromJson(o, s.store[ManSlot(o, v)]).value.objects);
    }
    forall k | JobInv(o, s, v, k) ensures JobInv(o, t, v, k) {
      ObjectPutKeepsPrefix(o, s.store, x, value, w, naming, n, v, k);
      if k.Repairing? && Matches(o, v, k.m) {
        OtherListUndisturbed(o, s.store, x, value, w, naming, n, v, k.m.objects);
      }
    }
  }

  lemma ObjectPutKeepsPrefix(o: Options, s: Store, x: Slot, value: seq<byte>, w: Window, naming: ObjectNaming, n: nat, v: Window, k: Work)
    requires o.Legal() && JobWindow(o, v) && JobWindow(o, w) && v != w && LegalNaming(naming) && LegalNaming(Naming(k))
    requires ObjectSlot(o, w, naming, n, x) && k.pos <= |DataPuts(o, v, k)| && AllPut(s, DataPuts(o, v, k)[..k.pos])
    ensures AllPut(s[x := value], DataPuts(o, v, k)[..k.pos])
  {
    hide Options.Legal, JobWindow, ObjKey, PiecePuts;
    BytesOf(o);
    var ps := DataPuts(o, v, k);
    forall i | 0 <= i < k.pos ensures ps[i].slot != x {
      var m := PieceSlots(o, v, Naming(k), Pieces(o, Records(k)), i);
      if ps[i].slot == x {
        ObjKeyInjective(o, v, Naming(k), m, w, naming, n);
      }
    }
    forall i | 0 <= i < |ps[..k.pos]| ensures ps[..k.pos][i].slot in s[x := value] && s[x := value][ps[..k.pos][i].slot] == ps[..k.pos][i].value {
      assert ps[..k.pos][i] == ps[i];
    }
  }

  lemma ObjectPutKeepsOwn(o: Options, s: State, w: Window)
    requires o.Legal() && w in s.jobs && JobInv(o, s, w, s.jobs[w]) && WindowInv(o, s, w)
    requires s.jobs[w].pos < |DataPuts(o, w, s.jobs[w])|
    ensures var t := PutObject(o, s, w); JobInv(o, t, w, t.jobs[w]) && WindowInv(o, t, w)
  {
    hide ReadListed, Options.Legal, JobWindow, ObjKey, Orderly, NextFree, PiecePuts, FromJson, Matches;
    BytesOf(o);
    var k, t := s.jobs[w], PutObject(o, s, w);
    var p := DataPuts(o, w, k)[k.pos];
    var n := PieceSlots(o, w, Naming(k), Pieces(o, Records(k)), k.pos);
    ExtendPrefix(o, s.store, w, k);
    if k.Repairing? {
      if Matches(o, w, k.m) {
        OwnListUndisturbed(o, s.store, p.slot, p.value, w, k.attempt, n, k.m.objects);
      }
      if Covered(o, s.store, w) {
        CoveredMatches(o, s.store, w);
      }
    }
  }

  lemma ExtendPrefix(o: Options, s: Store, w: Window, k: Work)
    requires o.Legal() && JobWindow(o, w) && LegalNaming(Naming(k)) && k.pos < |DataPuts(o, w, k)|
    requires AllPut(s, DataPuts(o, w, k)[..k.pos])
    ensures var p := DataPuts(o, w, k)[k.pos];
            AllPut(s[p.slot := p.value], DataPuts(o, w, k)[..k.pos + 1])
  {
    hide Options.Legal, JobWindow, PiecePuts;
    BytesOf(o);
    var ps := DataPuts(o, w, k);
    PieceSlotsDistinct(o, w, Naming(k), Pieces(o, Records(k)));
    var p := ps[k.pos];
    var t := s[p.slot := p.value];
    var qs := ps[..k.pos + 1];
    forall i | 0 <= i < |qs| ensures qs[i].slot in t && t[qs[i].slot] == qs[i].value {
      if i < k.pos {
        assert ps[..k.pos][i] == ps[i] && ps[i].slot != ps[k.pos].slot;
      }
    }
  }

  lemma ObjectPutKeepsInv(o: Options, s: State, w: Window)
    requires o.Legal() && Inv(o, s) && w in s.jobs && s.jobs[w].pos < |DataPuts(o, w, s.jobs[w])|
    ensures Inv(o, PutObject(o, s, w))
  {
    hide Options.Legal, JobWindow, JobInv, WindowInv, ObjKey, PiecePuts, Representable;
    BytesOf(o);
    var k, t := s.jobs[w], PutObject(o, s, w);
    JobFacts(o, s, w, k);
    var p := DataPuts(o, w, k)[k.pos];
    var n := PieceSlots(o, w, Naming(k), Pieces(o, Records(k)), k.pos);
    ObjectPutKeepsOwn(o, s, w);
    forall v | v != w && WindowInv(o, s, v) ensures WindowInv(o, t, v) {
      ObjectPutKeepsOther(o, s, t, p.slot, p.value, w, Naming(k), n, v);
    }
    forall v | v in t.jobs ensures JobInv(o, t, v, t.jobs[v]) {
      if v != w {
        ObjectPutKeepsOther(o, s, t, p.slot, p.value, w, Naming(k), n, v);
      }
    }
  }

  lemma JobFacts(o: Options, s: State, w: Window, k: Work)
    requires Bytes(o.logGroup) && JobInv(o, s, w, k)
    ensures JobWindow(o, w) && LegalNaming(Naming(k)) && Representable(w)
  {
    JobIsRepresentable(o, w);
  }

  // ----- Manifest PUTs -----

  lemma ManifestPutKeepsOther(o: Options, s: State, t: State, key: string, value: seq<byte>, v: Window)
    requires o.Legal() && Representable(v) && ManKey(o, v) != key
    requires t.store == s.store[ManifestSlot(key) := value]
    requires v in s.paged ==> v in t.paged && t.paged[v] == s.paged[v]
    requires Repaged(t, v) == Repaged(s, v) && t.h == s.h
    ensures WindowInv(o, s, v) ==> WindowInv(o, t, v)
    ensures forall k :: JobInv(o, s, v, k) ==> JobInv(o, t, v, k)
  {
    hide ReadListed, Options.Legal, JobWindow, ObjKey, Orderly, NextFree, PiecePuts, FromJson, Matches, ManKey;
    BytesOf(o);
    if WindowInv(o, s, v) && Covered(o, s.store, v) {
      ManifestWriteKeepsLists(o, s.store, key, value, FromJson(o, s.store[ManSlot(o, v)]).value.objects);
    }
    forall k | JobInv(o, s, v, k) ensures JobInv(o, t, v, k) {
      ManifestWriteKeepsPuts(o, s.store, key, value, v, k);
      if k.Repairing? {
        ManifestWriteKeepsLists(o, s.store, key, value, k.m.objects);
      }
    }
  }

  lemma ManifestWriteKeepsPuts(o: Options, s: Store, key: string, value: seq<byte>, v: Window, k: Work)
    requires Bytes(o.logGroup) && k.pos <= |DataPuts(o, v, k)| && AllPut(s, DataPuts(o, v, k)[..k.pos])
    ensures AllPut(s[ManifestSlot(key) := value], DataPuts(o, v, k)[..k.pos])
  {
    hide PiecePuts, ObjKey;
    var ps := DataPuts(o, v, k);
    forall i | 0 <= i < |ps[..k.pos]| ensures ps[..k.pos][i].slot != ManifestSlot(key) {
      var n := PieceSlots(o, v, Naming(k), Pieces(o, Records(k)), i);
      assert ps[..k.pos][i] == ps[i];
    }
  }

  lemma DrainCompletes(o: Options, s: State, w: Window)
    requires o.Legal() && w in s.jobs && s.jobs[w].Draining? && JobInv(o, s, w, s.jobs[w])
    requires s.jobs[w].pos == |DataPuts(o, w, s.jobs[w])|
    ensures WindowInv(o, PutManifest(o, s, w), w)
  {
    hide ReadListed, Options.Legal, JobWindow, ObjKey, Orderly, PiecePuts, PieceEntries, Pieces, Matches, ManKey;
    BytesOf(o);
    var k, t := s.jobs[w], PutManifest(o, s, w);
    var ps, pieces := DataPuts(o, w, k), Pieces(o, k.events);
    var m := WindowManifest(o, w, k.events, k.at);
    TakeAll(ps);
    PiecesPartition(o, k.events);
    EntriesReadBack(o, s.store, w, Base, pieces);
    ManifestWriteKeepsLists(o, s.store, ManKey(o, w), o.man.enc(m), m.objects);
    OrderlyBase(o, w, pieces);
    ManifestCovers(o, w, m);
  }

  lemma RepairCompletes(o: Options, s: State, w: Window)
    requires o.Legal() && w in s.jobs && s.jobs[w].Repairing? && JobInv(o, s, w, s.jobs[w])
    requires s.jobs[w].pos == |DataPuts(o, w, s.jobs[w])|
    ensures WindowInv(o, PutManifest(o, s, w), w)
  {
    hide ReadListed, Options.Legal, JobWindow, ObjKey, Orderly, PiecePuts, PieceEntries, Pieces, ManKey;
    BytesOf(o);
    var k, t := s.jobs[w], PutManifest(o, s, w);
    var m := Reconcile.Repaired(o, w, k.m, k.attempt, k.missing, k.at);
    ManifestDecodes(o, m);
    CoveredMatches(o, t.store, w);
    if Covered(o, t.store, w) {
      assert Matches(o, w, k.m);
      var ps, pieces, more := DataPuts(o, w, k), Pieces(o, k.missing), PieceEntries(o, w, Naming(k), Pieces(o, k.missing));
      TakeAll(ps);
      PiecesPartition(o, k.missing);
      EntriesReadBack(o, s.store, w, Naming(k), pieces);
      ReadListedAppend(o, s.store, k.m.objects, more);
      ManifestWriteKeepsLists(o, s.store, ManKey(o, w), o.man.enc(m), m.objects);
      OrderlyAppend(o, w, k.m.objects, k.attempt, pieces);
      RepairKnows(s.h, ReadListed(o, s.store, k.m.objects).value, k.events, Repaged(s, w));
    }
  }

  /** What a repair appends makes the events it was given known, and forgets nothing. */
  lemma RepairKnows(h: Reconcile.Hashes, archived: seq<LogRecord>, events: seq<LogRecord>, earlier: seq<LogRecord>)
    requires AllKnown(h, archived, earlier)
    ensures AllKnown(h, archived + Missing(h, archived, events), earlier + events)
  {
    hide Reconcile.Repage, Reconcile.IdentitySet, Reconcile.Stands;
    Reconcile.RepageFills(h, archived, events);
    forall e | e in earlier ensures Reconcile.Recognized(h, archived + Missing(h, archived, events), e) {
      Reconcile.RecognizedGrows(h, archived, archived + Missing(h, archived, events), e);
    }
  }

  lemma ManifestDecodes(o: Options, m: Manifest)
    requires o.Legal()
    ensures FromJson(o, o.man.enc(m)) == if m.version == MANIFEST_VERSION then Some(m) else None
  {
    assert o.man.dec(o.man.enc(m)) == Some(m);
  }

  lemma ManifestPutKeepsInv(o: Options, s: State, w: Window)
    requires o.Legal() && Inv(o, s) && w in s.jobs && s.jobs[w].pos == |DataPuts(o, w, s.jobs[w])|
    ensures Inv(o, PutManifest(o, s, w))
  {
    hide Options.Legal, JobWindow, JobInv, WindowInv, ManKey, PiecePuts, FinalManifest, Representable;
    BytesOf(o);
    var k, t := s.jobs[w], PutManifest(o, s, w);
    JobFacts(o, s, w, k);
    if k.Draining? {
      DrainCompletes(o, s, w);
    } else {
      RepairCompletes(o, s, w);
    }
    forall v | v != w && Representable(v) ensures (WindowInv(o, s, v) ==> WindowInv(o, t, v)) && forall kk :: JobInv(o, s, v, kk) ==> JobInv(o, t, v, kk) {
      ManKeysDiffer(o, v, w);
      ManifestPutKeepsOther(o, s, t, ManKey(o, w), o.man.enc(FinalManifest(o, w, k)), v);
    }
    forall v | v in t.jobs ensures JobInv(o, t, v, t.jobs[v]) {
      JobFacts(o, s, v, s.jobs[v]);
    }
  }

  // ----- The other steps -----

  lemma StrayKeepsInv(o: Options, s: State, l: Label)
    requires o.Legal() && Inv(o, s) && l.Stray? && Enabled(o, s, l)
    ensures Inv(o, Apply(o, s, l))
  {
    hide Options.Legal, JobWindow, JobInv, WindowInv, ManKey, PiecePuts, Representable;
    BytesOf(o);
    var t := Apply(o, s, l);
    forall v | Representable(v) ensures (WindowInv(o, s, v) ==> WindowInv(o, t, v)) && forall k :: JobInv(o, s, v, k) ==> JobInv(o, t, v, k) {
      if ManKey(o, v) == l.key {
        StrayAtKey(o, s, t, l.bytes, v);
      } else {
        ManifestPutKeepsOther(o, s, t, l.key, l.bytes, v);
      }
    }
    forall v | v in t.jobs ensures JobInv(o, t, v, t.jobs[v]) {
      JobFacts(o, s, v, s.jobs[v]);
    }
  }

  /** Bytes that are no manifest of the window uncover it; a running job is not misled. */
  lemma StrayAtKey(o: Options, s: State, t: State, bytes: seq<byte>, v: Window)
    requires o.Legal() && !CoversWindow(o, bytes, v)
    requires t == s.(store := s.store[ManSlot(o, v) := bytes])
    ensures WindowInv(o, t, v) && forall k :: JobInv(o, s, v, k) ==> JobInv(o, t, v, k)
  {
    hide ReadListed, Options.Legal, JobWindow, ObjKey, Orderly, NextFree, PiecePuts, FromJson, Matches, ManKey;
    BytesOf(o);
    forall k | JobInv(o, s, v, k) ensures JobInv(o, t, v, k) {
      ManifestWriteKeepsPuts(o, s.store, ManKey(o, v), bytes, v, k);
      if k.Repairing? {
        ManifestWriteKeepsLists(o, s.store, ManKey(o, v), bytes, k.m.objects);
      }
    }
  }

  lemma StartKeepsInv(o: Options, s: State, l: Label)
    requires o.Legal() && Inv(o, s) && (l.StartDrain? || l.StartRepair?) && Enabled(o, s, l)
    ensures Inv(o, Apply(o, s, l))
  {
    hide Options.Legal, JobWindow, ObjKey, Orderly, ReadListed, ManKey, PiecePuts, Representable, Matches, FromJson, Missing, NextFree;
    BytesOf(o);
    var w, t := l.w, Apply(o, s, l);
    JobIsRepresentable(o, w);
    assert WindowInv(o, s, w);
    var k := t.jobs[w];
    TakeAll(DataPuts(o, w, k));
    if l.StartRepair? {
      NextFreeBounds(KeysOf(k.m.objects), l.attempt);
      CoveredMatches(o, s.store, w);
    }
    assert JobInv(o, t, w, k);
    hide JobInv, WindowInv;
    forall v ensures WindowInv(o, s, v) ==> WindowInv(o, t, v) {
      JobsDoNotMatter(o, s, t, v);
    }
    forall v, kk | JobInv(o, s, v, kk) ensures JobInv(o, t, v, kk) {
      JobsDoNotMatter(o, s, t, v);
    }
  }

  /** A repair that finds nothing missing shows that the archive knows its events. */
  lemma CleanRepairKeepsInv(o: Options, s: State, l: Label)
    requires o.Legal() && Inv(o, s) && l.CleanRepair? && Enabled(o, s, l)
    ensures Inv(o, Apply(o, s, l))
  {
    hide Options.Legal, JobWindow, ObjKey, Orderly, ReadListed, ManKey, PiecePuts, Matches, FromJson, Missing, NextFree;
    BytesOf(o);
    var w, t := l.w, Apply(o, s, l);
    JobIsRepresentable(o, w);
    hide Representable;
    assert WindowInv(o, s, w);
    var archived := ReadListed(o, s.store, FromJson(o, s.store[ManSlot(o, w)]).value.objects).value;
    if Covered(o, s.store, w) {
      RepairKnows(s.h, archived, l.events, Repaged(s, w));
      assert archived + [] == archived;
    }
    assert WindowInv(o, t, w);
    hide JobInv, WindowInv;
    forall v | v != w ensures (WindowInv(o, s, v) ==> WindowInv(o, t, v)) && forall kk :: JobInv(o, s, v, kk) ==> JobInv(o, t, v, kk) {
      JobsDoNotMatter(o, s, t, v);
    }
    forall v | Representable(v) ensures WindowInv(o, t, v) {
      assert v != w ==> WindowInv(o, s, v);
    }
    forall v | v in t.jobs ensures JobInv(o, t, v, t.jobs[v]) {
      JobsDoNotMatter(o, s, t, v);
    }
  }

  lemma NextFreeBounds(keys: seq<string>, attempt: nat)
    requires NextFree(keys, attempt)
    ensures 1 <= attempt <= 99
  {
  }

  lemma JobsDoNotMatter(o: Options, s: State, t: State, v: Window)
    requires Bytes(o.logGroup) && t.store == s.store && t.paged == s.paged && Repaged(t, v) == Repaged(s, v) && t.h == s.h
    ensures WindowInv(o, s, v) ==> WindowInv(o, t, v)
    ensures forall k :: JobInv(o, s, v, k) ==> JobInv(o, t, v, k)
  {
  }

  lemma StepKeepsInv(o: Options, s: State, l: Label)
    requires o.Legal() && Inv(o, s) && Enabled(o, s, l)
    ensures Inv(o, Apply(o, s, l))
  {
    BytesOf(o);
    hide Options.Legal, JobInv, WindowInv, PiecePuts, JobWindow, Representable, PutObject, PutManifest;
    match l {
      case StartDrain(_, _, _) => StartKeepsInv(o, s, l);
      case StartRepair(_, _, _, _) => StartKeepsInv(o, s, l);
      case CleanRepair(_, _) => CleanRepairKeepsInv(o, s, l);
      case Stray(_, _) => StrayKeepsInv(o, s, l);
      case PutNext(w) =>
        if s.jobs[w].pos < |DataPuts(o, w, s.jobs[w])| {
          ObjectPutKeepsInv(o, s, w);
        } else {
          ManifestPutKeepsInv(o, s, w);
        }
      case Crash =>
        forall v ensures WindowInv(o, s, v) ==> WindowInv(o, Apply(o, s, l), v) {
          JobsDoNotMatter(o, s, Apply(o, s, l), v);
        }
    }
  }

  lemma StepKeepsHashes(o: Options, s: State, l: Label)
    requires Bytes(o.logGroup) && Enabled(o, s, l)
    ensures Apply(o, s, l).h == s.h
  {
    hide PiecePuts, FinalManifest, Missing;
  }

  lemma {:induction false} RunKeepsInv(o: Options, h: Reconcile.Hashes, s0: Store, ls: seq<Label>)
    requires o.Legal() && After(o, h, s0, ls).Some? && forall w :: Representable(w) ==> !Covered(o, s0, w)
    ensures Inv(o, After(o, h, s0, ls).value) && After(o, h, s0, ls).value.h == h
  {
    BytesOf(o);
    hide Options.Legal, Enabled, Apply;
    if ls != [] {
      hide Inv;
      RunKeepsInv(o, h, s0, ls[..|ls| - 1]);
      StepKeepsInv(o, After(o, h, s0, ls[..|ls| - 1]).value, ls[|ls| - 1]);
      StepKeepsHashes(o, After(o, h, s0, ls[..|ls| - 1]).value, ls[|ls| - 1]);
    }
  }
}
