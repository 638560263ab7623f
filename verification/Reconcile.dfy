/**
 * The repair pass: re-page a window that has a manifest, append the events the
 * archive does not know by identity, and update the manifest in place.
 */
module Reconcile {
  import opened Common
  import opened Layout
  import opened Chunk
  import opened Windows
  import opened Drain
  import opened Keys
  import opened Archive

  /** The two hashes identities are made of. */
  datatype Hashes = Hashes(byId: string -> int, byContent: (int, string, string) -> int)

  function Fallback(h: Hashes, r: LogRecord): int {
    h.byContent(r.timestamp, r.stream, r.message)
  }

  /** The event id when there is one, the content otherwise. */
  function Identity(h: Hashes, r: LogRecord): int {
    match r.eventId case Some(id) => h.byId(id) case None => Fallback(h, r)
  }

  /** The archive knows the event, by identity or, for an event with an id, by content. */
  predicate Known(h: Hashes, seen: set<int>, r: LogRecord) {
    Identity(h, r) in seen || (r.eventId.Some? && Fallback(h, r) in seen)
  }

  function IdentitySet(h: Hashes, rs: seq<LogRecord>): set<int> {
    set r | r in rs :: Identity(h, r)
  }

  datatype Pass = Pass(seen: set<int>, missing: seq<LogRecord>)

  /** The events not known when their turn comes, and the grown set. */
  function Repage(h: Hashes, seen: set<int>, es: seq<LogRecord>): Pass {
    if es == [] then Pass(seen, [])
    else
      var p, e := Repage(h, seen, es[..|es| - 1]), es[|es| - 1];
      if Known(h, p.seen, e) then p else Pass(p.seen + {Identity(h, e)}, p.missing + [e])
  }

  lemma {:induction false} RepageSeen(h: Hashes, seen: set<int>, es: seq<LogRecord>)
    ensures Repage(h, seen, es).seen == seen + IdentitySet(h, Repage(h, seen, es).missing)
  {
    if es != [] {
      RepageSeen(h, seen, es[..|es| - 1]);
    }
  }

  // ----- What being known means -----

  /**
   * Record r stands for event e: their ids hash alike, or r has no id and their
   * contents do. The other two cases are collisions between the two hashes.
   */
  ghost predicate Stands(h: Hashes, r: LogRecord, e: LogRecord) {
    match r.eventId
    case Some(id) =>
      || (e.eventId.Some? && h.byId(id) == h.byId(e.eventId.value))
      || h.byId(id) == h.byContent(e.timestamp, e.stream, e.message)
    case None =>
      || h.byContent(r.timestamp, r.stream, r.message) == h.byContent(e.timestamp, e.stream, e.message)
      || (e.eventId.Some? && h.byContent(r.timestamp, r.stream, r.message) == h.byId(e.eventId.value))
  }

  /** Some record stands for the event. */
  ghost predicate Recognized(h: Hashes, rs: seq<LogRecord>, e: LogRecord) {
    exists r :: r in rs && Stands(h, r, e)
  }

  ghost predicate NoCollisions(h: Hashes) {
    && (forall a, b :: h.byId(a) == h.byId(b) ==> a == b)
    && (forall t, s, m, t', s', m' :: h.byContent(t, s, m) == h.byContent(t', s', m') ==> t == t' && s == s' && m == m')
    && (forall a, t, s, m :: h.byId(a) != h.byContent(t, s, m))
  }

  /** Without collisions an event is recognized by its id, or by its content in a record that has none. */
  lemma RecognizedExactly(h: Hashes, rs: seq<LogRecord>, e: LogRecord)
    requires NoCollisions(h)
    ensures Recognized(h, rs, e) <==>
            exists r :: r in rs && if r.eventId.Some? then r.eventId == e.eventId
                                   else r.timestamp == e.timestamp && r.stream == e.stream && r.message == e.message
  {
    forall r | r in rs
      ensures Stands(h, r, e) <==> if r.eventId.Some? then r.eventId == e.eventId
                                   else r.timestamp == e.timestamp && r.stream == e.stream && r.message == e.message
    {
    }
  }

  lemma KnownMeans(h: Hashes, rs: seq<LogRecord>, e: LogRecord)
    ensures Known(h, IdentitySet(h, rs), e) <==> Recognized(h, rs, e)
  {
    forall r | r in rs ensures Identity(h, r) in IdentitySet(h, rs) {
    }
    if Known(h, IdentitySet(h, rs), e) {
      var id := if Identity(h, e) in IdentitySet(h, rs) then Identity(h, e) else Fallback(h, e);
      var r :| r in rs && Identity(h, r) == id;
      assert Stands(h, r, e);
    }
    if Recognized(h, rs, e) {
      var r :| r in rs && Stands(h, r, e);
      assert Identity(h, r) == Identity(h, e) || (e.eventId.Some? && Identity(h, r) == Fallback(h, e));
    }
  }

  /**
   * What a pass must append: nothing but events, each of them new when its turn
   * comes, so that in the end every event is recognized.
   */
  ghost predicate Fills(h: Hashes, archived: seq<LogRecord>, events: seq<LogRecord>, missing: seq<LogRecord>) {
    && multiset(missing) <= multiset(events)
    && (forall k :: 0 <= k < |missing| ==> !Recognized(h, archived + missing[..k], missing[k]))
    && (forall e :: e in events ==> Recognized(h, archived + missing, e))
  }

  lemma RecognizesAll(h: Hashes, archived: seq<LogRecord>, events: seq<LogRecord>, missing: seq<LogRecord>)
    requires Fills(h, archived, events, missing)
    ensures forall e :: e in events ==> Recognized(h, archived + missing, e)
  {
  }

  lemma RecognizedGrows(h: Hashes, a: seq<LogRecord>, b: seq<LogRecord>, e: LogRecord)
    requires Recognized(h, a, e) && forall r :: r in a ==> r in b
    ensures Recognized(h, b, e)
  {
  }

  /** One event more is appended exactly when nothing archived or appended before stands for it. */
  lemma RepageStep(h: Hashes, archived: seq<LogRecord>, es: seq<LogRecord>)
    requires es != []
    ensures var ms := Repage(h, IdentitySet(h, archived), es[..|es| - 1]).missing;
            Repage(h, IdentitySet(h, archived), es).missing ==
            if Recognized(h, archived + ms, es[|es| - 1]) then ms else ms + [es[|es| - 1]]
  {
    hide Known, IdentitySet, Recognized;
    var init := es[..|es| - 1];
    var p := Repage(h, IdentitySet(h, archived), init);
    RepageSeen(h, IdentitySet(h, archived), init);
    IdentitySetAppend(h, archived, p.missing);
    KnownMeans(h, archived + p.missing, es[|es| - 1]);
  }

  lemma {:induction false} RepageFills(h: Hashes, archived: seq<LogRecord>, es: seq<LogRecord>)
    ensures Fills(h, archived, es, Repage(h, IdentitySet(h, archived), es).missing)
  {
    if es == [] {
      assert Repage(h, IdentitySet(h, archived), es).missing == [];
    } else {
      var n := |es| - 1;
      RepageFills(h, archived, es[..n]);
      RepageStep(h, archived, es);
      hide Repage, IdentitySet;
      var ms := Repage(h, IdentitySet(h, archived), es[..n]).missing;
      TakeSnoc(es, n);
      TakeAll(es);
      FillsOneMore(h, archived, es[..n], ms, es[n]);
    }
  }

  lemma FillsOneMore(h: Hashes, archived: seq<LogRecord>, es: seq<LogRecord>, ms: seq<LogRecord>, e: LogRecord)
    requires Fills(h, archived, es, ms)
    ensures Fills(h, archived, es + [e], if Recognized(h, archived + ms, e) then ms else ms + [e])
  {
    hide Stands;
    if !Recognized(h, archived + ms, e) {
      var all := ms + [e];
      forall k | 0 <= k < |all| ensures !Recognized(h, archived + all[..k], all[k]) {
        assert all[..k] == ms[..k];
        if k == |ms| {
          TakeAll(ms);
        }
      }
      assert Stands(h, e, e) by { StandsForItself(h, e); }
      assert e in archived + all;
      forall x | x in es ensures Recognized(h, archived + all, x) {
        RecognizedGrows(h, archived + ms, archived + all, x);
      }
    }
  }

  lemma StandsForItself(h: Hashes, e: LogRecord)
    ensures Stands(h, e, e)
  {
  }

  /** A second pass over recognized events finds nothing. */
  lemma {:induction false} SecondPassFindsNothing(h: Hashes, archived: seq<LogRecord>, es: seq<LogRecord>)
    requires forall e :: e in es ==> Recognized(h, archived, e)
    ensures Repage(h, IdentitySet(h, archived), es) == Pass(IdentitySet(h, archived), [])
  {
    hide Known, IdentitySet, Recognized;
    if es != [] {
      SecondPassFindsNothing(h, archived, es[..|es| - 1]);
      assert es[|es| - 1] in es;
      KnownMeans(h, archived, es[|es| - 1]);
    }
  }

  // ----- The archive side -----

  datatype ReconcileError = MissingObject(key: string) | Corrupt(key: string) | TooManyAttempts

  /** The size-checked decoder where the manifest records a size, a capped plain decode where it does not. */
  function DecodeBody(c: Codec, body: seq<byte>, rawBytes: Option<nat>): Option<seq<byte>> {
    match rawBytes
    case Some(raw) => (match DecompressFrames(c, body, raw) case Ok(plain) => Some(plain) case Err(_) => None)
    case None =>
      match c.unzip(body)
      case Some(plain) => if |plain| <= MAX_DECOMPRESSED_BYTES then Some(plain) else None
      case None => None
  }

  /** Read one listed object. */
  function DecodeListed(o: Options, s: Store, e: ManifestObject): Result<seq<LogRecord>, ReconcileError> {
    if DataSlot(e.dataKey) !in s then Err(MissingObject(e.dataKey))
    else
      match DecodeBody(o.codec, s[DataSlot(e.dataKey)], e.rawBytes)
      case None => Err(Corrupt(e.dataKey))
      case Some(plain) =>
        match AllDecoded(o.codec.ParseLines(plain))
        case None => Err(Corrupt(e.dataKey))
        case Some(rs) => Ok(rs)
  }

  /** The size-checked decoder returns only what a plain reader would. */
  lemma DecodeListedReads(o: Options, s: Store, e: ManifestObject)
    requires DecodeListed(o, s, e).Ok?
    ensures ReadObject(o, s, e.dataKey) == Some(DecodeListed(o, s, e).value)
  {
  }

  /**
   * A listed object decodes exactly when it is there, decompresses to at most
   * 64 GiB, to the recorded size if there is one, and every line is a record.
   */
  lemma DecodeListedExact(o: Options, s: Store, e: ManifestObject)
    ensures DecodeListed(o, s, e).Ok? <==>
            && DataSlot(e.dataKey) in s
            && o.codec.unzip(s[DataSlot(e.dataKey)]).Some?
            && var plain := o.codec.unzip(s[DataSlot(e.dataKey)]).value;
               |plain| <= 68_719_476_736 && (e.rawBytes.Some? ==> |plain| == e.rawBytes.value) && AllDecoded(o.codec.ParseLines(plain)).Some?
  {
    if DataSlot(e.dataKey) in s && e.rawBytes.Some? {
      DecompressExact(o.codec, s[DataSlot(e.dataKey)], e.rawBytes.value);
    }
  }

  /** Collect the identities of everything the manifest lists. */
  method CollectIdentities(o: Options, h: Hashes, s: Store, es: seq<ManifestObject>)
    returns (r: Result<set<int>, ReconcileError>)
    ensures r.Ok? ==> ReadListed(o, s, es).Some? && r.value == IdentitySet(h, ReadListed(o, s, es).value)
    ensures r.Ok? ==> forall e :: Known(h, r.value, e) <==> Recognized(h, ReadListed(o, s, es).value, e)
    ensures r.Ok? <==> forall i :: 0 <= i < |es| ==> DecodeListed(o, s, es[i]).Ok?
  {
    hide DecodeListed, ReadObject, Known, Recognized;
    var seen: set<int> := {};
    TakeAll(es);
    for i := 0 to |es|
      invariant ReadListed(o, s, es[..i]).Some? && seen == IdentitySet(h, ReadListed(o, s, es[..i]).value)
      invariant forall k :: 0 <= k < i ==> DecodeListed(o, s, es[k]).Ok?
    {
      var got := DecodeListed(o, s, es[i]);
      if got.Err? {
        return Err(got.error);
      }
      DecodeListedReads(o, s, es[i]);
      TakeSnoc(es, i);
      EntrySnocReads(o, s, es[..i], es[i]);
      var more := IdentitiesOf(h, got.value);
      IdentitySetAppend(h, ReadListed(o, s, es[..i]).value, got.value);
      seen := seen + more;
    }
    forall e ensures Known(h, seen, e) <==> Recognized(h, ReadListed(o, s, es).value, e) {
      KnownMeans(h, ReadListed(o, s, es).value, e);
    }
    return Ok(seen);
  }

  lemma IdentitySetAppend(h: Hashes, a: seq<LogRecord>, b: seq<LogRecord>)
    ensures IdentitySet(h, a + b) == IdentitySet(h, a) + IdentitySet(h, b)
  {
  }

  method IdentitiesOf(h: Hashes, rs: seq<LogRecord>) returns (ids: set<int>)
    ensures ids == IdentitySet(h, rs)
  {
    ids := {};
    for i := 0 to |rs|
      invariant ids == IdentitySet(h, rs[..i])
    {
      TakeSnoc(rs, i);
      IdentitySetAppend(h, rs[..i], [rs[i]]);
      assert IdentitySet(h, [rs[i]]) == {Identity(h, rs[i])} by {
        assert rs[i] in [rs[i]];
      }
      ids := ids + {Identity(h, rs[i])};
    }
    TakeAll(rs);
  }

  // ----- The plan of a repair -----

  function Repaired(o: Options, w: Window, m: Manifest, attempt: nat, missing: seq<LogRecord>, now: int): Manifest
    requires Bytes(o.logGroup)
  {
    m.(objects := m.objects + PieceEntries(o, w, Layout.Reconcile(attempt), Pieces(o, missing)),
       recordCount := m.recordCount + |missing|,
       reconciledAdded := Some((if m.reconciledAdded.Some? then m.reconciledAdded.value else 0) + |missing|),
       reconciledAt := Some(now))
  }

  /** The PUTs of a repair; none at all when nothing is missing. */
  function RepairPlan(o: Options, w: Window, m: Manifest, attempt: nat, missing: seq<LogRecord>, now: int): seq<Put>
    requires Bytes(o.logGroup)
  {
    if missing == [] then []
    else PiecePuts(o, w, Layout.Reconcile(attempt), Pieces(o, missing))
         + [Put(ManifestSlot(ManKey(o, w)), o.man.enc(Repaired(o, w, m, attempt, missing, now)))]
  }

  /** Push the unknown in-window events of one page. */
  method RepagePage(ww: WindowWriter, h: Hashes, page: seq<LogRecord>, seen0: set<int>, ghost seen: set<int>, ghost before: seq<LogRecord>)
    returns (ok: bool, seen1: set<int>)
    requires ww.Valid()
    requires Pass(seen0, ww.pushed) == Repage(h, seen, InWindow(before, ww.w))
    modifies ww
    ensures ok ==> ww.Valid() && Pass(seen1, ww.pushed) == Repage(h, seen, InWindow(before + page, ww.w))
    ensures !ok ==> ww.Stopped(RotateAll(ww.o, ww.pushed).done)
    ensures !ok ==> ww.pushed <= Repage(h, seen, InWindow(before + page, ww.w)).missing
  {
    hide PiecePuts, PieceEntries, RotateAll, Known, Repage, InWindow, WindowWriter.Valid, WindowWriter.Stopped;
    seen1 := seen0;
    TakeAll(page);
    assert before + [] == before;
    for k := 0 to |page|
      invariant ww.Valid() && Pass(seen1, ww.pushed) == Repage(h, seen, InWindow(before + page[..k], ww.w))
    {
      var ev := page[k];
      TakeSnoc(page, k);
      Assoc(before, page[..k], [ev]);
      InWindowSnoc(before + page[..k], ev, ww.w);
      if ww.w.startMs <= ev.timestamp < ww.w.endMs {
        RepageSnoc(h, seen, InWindow(before + page[..k], ww.w), ev);
        if !Known(h, seen1, ev) {
          seen1 := seen1 + {Identity(h, ev)};
          var pushed := ww.PushRecord(ev);
          if !pushed {
            assert page == page[..k + 1] + page[k + 1..];
            Assoc(before, page[..k + 1], page[k + 1..]);
            RepageGrows(h, seen, before + page[..k + 1], page[k + 1..], ww.w);
            return false, seen1;
          }
        }
      } else {
        assert InWindow(before + page[..k], ww.w) + [] == InWindow(before + page[..k], ww.w);
      }
    }
    return true, seen1;
  }

  lemma RepageSnoc(h: Hashes, seen: set<int>, es: seq<LogRecord>, e: LogRecord)
    ensures var p := Repage(h, seen, es);
            Repage(h, seen, es + [e]) ==
            if Known(h, p.seen, e) then p else Pass(p.seen + {Identity(h, e)}, p.missing + [e])
  {
    assert (es + [e])[..|es|] == es;
  }

  /** Later events only add to what is found missing. */
  lemma RepageGrows(h: Hashes, seen: set<int>, a: seq<LogRecord>, b: seq<LogRecord>, w: Window)
    ensures Repage(h, seen, InWindow(a, w)).missing <= Repage(h, seen, InWindow(a + b, w)).missing
  {
    var more := InWindowPrefix(a, b, w);
    MissingGrows(h, seen, InWindow(a, w), more);
  }

  lemma {:induction false} MissingGrows(h: Hashes, seen: set<int>, es: seq<LogRecord>, more: seq<LogRecord>)
    ensures Repage(h, seen, es).missing <= Repage(h, seen, es + more).missing
    decreases |more|
  {
    hide Known;
    if more == [] {
      assert es + more == es;
    } else {
      var n := |more| - 1;
      MissingGrows(h, seen, es, more[..n]);
      TakeSnoc(more, n);
      TakeAll(more);
      Assoc(es, more[..n], [more[n]]);
      RepageSnoc(h, seen, es + more[..n], more[n]);
    }
  }

  /** Re-page the whole window: push every event not known when its turn comes. */
  method RepageAll(ww: WindowWriter, h: Hashes, pages: seq<seq<LogRecord>>, known: set<int>) returns (ok: bool)
    requires ww.Valid() && ww.pushed == []
    modifies ww
    ensures ok ==> ww.Valid() && ww.pushed == Repage(h, known, InWindow(Flatten(pages), ww.w)).missing
    ensures ok ==> forall archived :: known == IdentitySet(h, archived) ==> Fills(h, archived, InWindow(Flatten(pages), ww.w), ww.pushed)
    ensures !ok ==> ww.Stopped(RotateAll(ww.o, ww.pushed).done)
    ensures !ok ==> ww.pushed <= Repage(h, known, InWindow(Flatten(pages), ww.w)).missing
  {
    hide PiecePuts, PieceEntries, RotateAll, Repage, InWindow, WindowWriter.Valid, WindowWriter.Stopped, IdentitySet, Fills;
    var seen := known;
    NothingInWindow(ww.w);
    RepageNothing(h, known);
    TakeAll(pages);
    for i := 0 to |pages|
      invariant ww.Valid() && Pass(seen, ww.pushed) == Repage(h, known, InWindow(Flatten(pages[..i]), ww.w))
    {
      TakeSnoc(pages, i);
      FlattenSnoc(pages[..i], pages[i]);
      ok, seen := RepagePage(ww, h, pages[i], seen, known, Flatten(pages[..i]));
      if !ok {
        assert pages == pages[..i + 1] + pages[i + 1..];
        FlattenAppend(pages[..i + 1], pages[i + 1..]);
        RepageGrows(h, known, Flatten(pages[..i + 1]), Flatten(pages[i + 1..]), ww.w);
        return false;
      }
    }
    forall archived | known == IdentitySet(h, archived) ensures Fills(h, archived, InWindow(Flatten(pages), ww.w), ww.pushed) {
      RepageFills(h, archived, InWindow(Flatten(pages), ww.w));
    }
    return true;
  }

  /** The PUTs issued for a first part of the missing events are a prefix of the whole plan. */
  lemma IssuedByRepair(o: Options, w: Window, m: Manifest, attempt: nat, pushed: seq<LogRecord>, missing: seq<LogRecord>, now: int)
    requires Bytes(o.logGroup) && pushed <= missing
    ensures var plan, puts := RepairPlan(o, w, m, attempt, missing, now), PiecePuts(o, w, Layout.Reconcile(attempt), RotateAll(o, pushed).done);
            |puts| <= |plan| && puts == plan[..|puts|] && (puts != [] ==> |puts| < |plan|)
  {
    hide PiecePuts, RotateAll, Repaired;
    var naming, more := Layout.Reconcile(attempt), missing[|pushed|..];
    assert missing == pushed + more;
    DoneGrows(o, w, naming, pushed, more);
    var done := RotateAll(o, pushed).done;
    assert RotateAll(o, missing).done <= Pieces(o, missing);
    PutsGrow(o, w, naming, done, Pieces(o, missing));
    if missing == [] {
      NothingToPut(o, w, naming, map[]);
    }
  }

  /** A repair that stopped while pushing has issued a proper prefix of the whole plan. */
  lemma StoppedRepair(o: Options, w: Window, m: Manifest, attempt: nat, pushed: seq<LogRecord>, missing: seq<LogRecord>, now: int, allowed: nat)
    requires Bytes(o.logGroup) && pushed <= missing
    requires allowed < |PiecePuts(o, w, Layout.Reconcile(attempt), RotateAll(o, pushed).done)|
    ensures var plan := RepairPlan(o, w, m, attempt, missing, now);
            allowed < |plan| && plan[..allowed] == PiecePuts(o, w, Layout.Reconcile(attempt), RotateAll(o, pushed).done)[..allowed]
  {
    hide PiecePuts, RotateAll, RepairPlan;
    IssuedByRepair(o, w, m, attempt, pushed, missing, now);
  }

  lemma PrefixOfRepair(o: Options, w: Window, m: Manifest, attempt: nat, missing: seq<LogRecord>, now: int, puts: seq<Put>, n: nat)
    requires Bytes(o.logGroup) && puts <= PiecePuts(o, w, Layout.Reconcile(attempt), Pieces(o, missing)) && n < |puts|
    ensures var plan := RepairPlan(o, w, m, attempt, missing, now);
            n < |plan| && plan[..n] == puts[..n]
  {
    hide PiecePuts, Repaired;
    if missing == [] {
      NothingToPut(o, w, Layout.Reconcile(attempt), map[]);
    }
  }

  datatype RepairOutcome = Failed(error: ReconcileError) | Stopped | Done(appended: nat)

  /** Every listed object can be fetched and decodes at its declared size. */
  predicate AllDecode(o: Options, s: Store, es: seq<ManifestObject>) {
    forall i :: 0 <= i < |es| ==> DecodeListed(o, s, es[i]).Ok?
  }

  /** The scan of object names has met the last attempt there is a name for. */
  predicate AttemptsUsedUp(keys: seq<string>) {
    exists k :: k in keys && AttemptOf(k).Some? && AttemptOf(k).value >= 99
  }

  /**
   * What one repair of a window against a decoded manifest does, for the events
   * CloudWatch would return in all and with only the first allowed PUTs
   * succeeding. It fails, writing nothing, exactly when a listed object does not
   * decode or the attempts are used up. Otherwise the store receives exactly a
   * prefix of the repair plan for the unknown events, the whole of it precisely
   * when the run is done.
   */
  ghost predicate Repairs(
    o: Options, h: Hashes, w: Window, m: Manifest, events: seq<LogRecord>, fetched: bool, s: Store, allowed: nat, now: int,
    t: Store, out: RepairOutcome, attempt: nat, done: nat)
    requires Bytes(o.logGroup)
  {
    && (out.Failed? <==> !AllDecode(o, s, m.objects) || AttemptsUsedUp(KeysOf(m.objects)))
    && (out.Failed? ==> t == s)
    && (!out.Failed? ==>
          && ReadListed(o, s, m.objects).Some? && NextFree(KeysOf(m.objects), attempt)
          && var p := Repage(h, IdentitySet(h, ReadListed(o, s, m.objects).value), events);
             var plan := RepairPlan(o, w, m, attempt, p.missing, now);
             && Fills(h, ReadListed(o, s, m.objects).value, events, p.missing)
             && (out.Done? ==> fetched && out.appended == |p.missing| && allowed >= |plan| && t == ApplyPuts(s, plan))
             && (out.Stopped? ==>
                   && done <= |plan| && done <= allowed && t == ApplyPuts(s, plan[..done])
                   && (fetched ==> done == allowed < |plan|)))
  }

  /** Reconcile one window; fetched is false when paging fails after these pages, before the rest. */
  method ReconcileWindow(
    o: Options, h: Hashes, w: Window, m: Manifest, pages: seq<seq<LogRecord>>, fetched: bool, ghost rest: seq<seq<LogRecord>>,
    s: Store, allowed: nat, now: int)
    returns (t: Store, out: RepairOutcome, ghost attempt: nat, ghost done: nat)
    requires Bytes(o.logGroup) && (fetched ==> rest == [])
    ensures out.Failed? <==>
              !AllDecode(o, s, m.objects) || exists k :: k in KeysOf(m.objects) && AttemptOf(k).Some? && AttemptOf(k).value >= 99
    ensures out.Failed? ==> t == s
    ensures Repairs(o, h, w, m, InWindow(Flatten(pages) + Flatten(rest), w), fetched, s, allowed, now, t, out, attempt, done)
  {
    hide PiecePuts, PieceEntries, Pieces, ManKey, RotateAll, IdentitySet, ReadListed, AttemptOf, Repage, InWindow, DecodeListed, RepairPlan, Fills;
    attempt, done := 1, allowed;
    var ids := CollectIdentities(o, h, s, m.objects);
    if ids.Err? {
      return s, Failed(ids.error), attempt, 0;
    }
    RepageFills(h, ReadListed(o, s, m.objects).value, InWindow(Flatten(pages) + Flatten(rest), w));
    var next := NextAttempt(KeysOf(m.objects));
    if next > 99 {
      return s, Failed(TooManyAttempts), attempt, 0;
    }
    attempt := next;
    ghost var missing := Repage(h, ids.value, InWindow(Flatten(pages) + Flatten(rest), w)).missing;
    var ww := new WindowWriter(o, w, Layout.Reconcile(next), s, allowed);
    var complete := RepageAll(ww, h, pages, ids.value);
    RepageGrows(h, ids.value, Flatten(pages), Flatten(rest), w);
    if !complete {
      StoppedRepair(o, w, m, next, ww.pushed, missing, now, allowed);
      return ww.store, Stopped, attempt, allowed;
    }
    if !fetched {
      IssuedByRepair(o, w, m, next, ww.pushed, missing, now);
      return ww.store, Stopped, attempt, |ww.Issued()|;
    }
    assert Flatten(pages) + [] == Flatten(pages);
    assert ww.pushed == missing;
    t, out := FinishRepair(ww, m, next, missing, now);
  }

  /** Store what is still open and, if anything was appended, the updated manifest. */
  method FinishRepair(ww: WindowWriter, m: Manifest, attempt: nat, ghost missing: seq<LogRecord>, now: int)
    returns (t: Store, out: RepairOutcome)
    requires ww.Valid() && ww.pushed == missing && ww.naming == Layout.Reconcile(attempt)
    modifies ww
    ensures !out.Failed?
    ensures var plan := RepairPlan(ww.o, ww.w, m, attempt, missing, now);
            && (out.Done? ==> out.appended == |missing| && ww.allowed >= |plan| && t == ApplyPuts(ww.base, plan))
            && (out.Stopped? ==> ww.allowed < |plan| && t == ApplyPuts(ww.base, plan[..ww.allowed]))
  {
    hide PiecePuts, PieceEntries, Pieces, ManKey, RotateAll;
    ghost var o, w, puts := ww.o, ww.w, PiecePuts(ww.o, ww.w, ww.naming, Pieces(ww.o, missing));
    var ok := ww.Finish();
    if !ok {
      PrefixOfRepair(o, w, m, attempt, missing, now, puts, ww.allowed);
      return ww.store, Stopped;
    }
    AppendedCount(o, w, ww.naming, missing);
    var appended := ww.records;
    if appended == 0 {
      NothingToPut(o, w, ww.naming, ww.base);
      return ww.store, Done(0);
    }
    if ww.budget == 0 {
      assert RepairPlan(o, w, m, attempt, missing, now)[..|puts|] == puts;
      return ww.store, Stopped;
    }
    var repaired := m.(objects := m.objects + ww.objects,
                       recordCount := m.recordCount + appended,
                       reconciledAdded := Some((if m.reconciledAdded.Some? then m.reconciledAdded.value else 0) + appended),
                       reconciledAt := Some(now));
    assert repaired == Repaired(o, w, m, attempt, missing, now);
    ApplySnoc(ww.base, puts, Put(ManifestSlot(ManKey(o, w)), o.man.enc(repaired)));
    return ww.store[ManifestSlot(ManKey(ww.o, ww.w)) := ww.o.man.enc(repaired)], Done(appended);
  }

  lemma RepageNothing(h: Hashes, seen: set<int>)
    ensures Repage(h, seen, []) == Pass(seen, [])
  {
  }

  lemma AppendedCount(o: Options, w: Window, naming: ObjectNaming, missing: seq<LogRecord>)
    requires Bytes(o.logGroup)
    ensures TotalRecords(PieceEntries(o, w, naming, Pieces(o, missing))) == |missing|
  {
    PiecesPartition(o, missing);
    EntriesCount(o, w, naming, Pieces(o, missing));
  }

  lemma NothingToPut(o: Options, w: Window, naming: ObjectNaming, s: Store)
    requires Bytes(o.logGroup)
    ensures PiecePuts(o, w, naming, Pieces(o, [])) == [] && ApplyPuts(s, PiecePuts(o, w, naming, Pieces(o, []))) == s
  {
  }

  // ----- What a repair achieves -----

  lemma RepairStores(o: Options, w: Window, m: Manifest, attempt: nat, missing: seq<LogRecord>, now: int, s: Store)
    requires o.Legal() && JobWindow(o, w) && 1 <= attempt <= 99 && missing != []
    ensures var t := ApplyPuts(s, RepairPlan(o, w, m, attempt, missing, now));
            && AllPut(t, PiecePuts(o, w, Layout.Reconcile(attempt), Pieces(o, missing)))
            && ManifestSlot(ManKey(o, w)) in t
            && t[ManifestSlot(ManKey(o, w))] == o.man.enc(Repaired(o, w, m, attempt, missing, now))
  {
    hide PiecePuts, Repaired, ManKey, Options.Legal, JobWindow, Pieces;
    BytesOf(o);
    var last := Put(ManifestSlot(ManKey(o, w)), o.man.enc(Repaired(o, w, m, attempt, missing, now)));
    PlanStores(o, w, Layout.Reconcile(attempt), Pieces(o, missing), last, s);
  }

  lemma ListedSurvivesRepair(o: Options, w: Window, m: Manifest, attempt: nat, missing: seq<LogRecord>, now: int, s: Store)
    requires o.Legal() && JobWindow(o, w) && Orderly(o, w, m.objects) && NextFree(KeysOf(m.objects), attempt)
    ensures ReadListed(o, ApplyPuts(s, RepairPlan(o, w, m, attempt, missing, now)), m.objects) == ReadListed(o, s, m.objects)
  {
    hide PiecePuts, Repaired, ManKey, Options.Legal, JobWindow, Pieces, Orderly, NextFree, ReadListed, ApplyPuts, ObjKey;
    BytesOf(o);
    var plan := RepairPlan(o, w, m, attempt, missing, now);
    var t := ApplyPuts(s, plan);
    forall e | e in m.objects
      ensures && (DataSlot(e.dataKey) in s <==> DataSlot(e.dataKey) in t)
              && (DataSlot(e.dataKey) in s ==> s[DataSlot(e.dataKey)] == t[DataSlot(e.dataKey)])
    {
      forall i | 0 <= i < |plan| ensures plan[i].slot != DataSlot(e.dataKey) {
        RepairAvoidsListed(o, w, m, attempt, missing, now, i, e);
      }
      ApplyElsewhere(s, plan, DataSlot(e.dataKey));
    }
    ListedUndisturbed(o, s, t, m.objects);
  }

  lemma RepairAvoidsListed(o: Options, w: Window, m: Manifest, attempt: nat, missing: seq<LogRecord>, now: int, i: nat, e: ManifestObject)
    requires o.Legal() && JobWindow(o, w) && Orderly(o, w, m.objects) && NextFree(KeysOf(m.objects), attempt)
    requires i < |RepairPlan(o, w, m, attempt, missing, now)| && e in m.objects
    ensures RepairPlan(o, w, m, attempt, missing, now)[i].slot != DataSlot(e.dataKey)
  {
    hide PiecePuts, Repaired, ManKey, Options.Legal, JobWindow, Pieces, Orderly, NextFree, ObjKey;
    BytesOf(o);
    var ps := PiecePuts(o, w, Layout.Reconcile(attempt), Pieces(o, missing));
    if i < |ps| {
      var n := PieceSlots(o, w, Layout.Reconcile(attempt), Pieces(o, missing), i);
      AttemptIsFresh(o, w, m.objects, attempt, n);
      var k :| 0 <= k < |m.objects| && m.objects[k] == e;
      assert KeysOf(m.objects)[k] == e.dataKey;
    }
  }

  /**
   * After a completed repair: the listed objects hold the old records plus
   * exactly the missing ones, every in-window event is known, the record count
   * is still the sum over the listed objects, and a second repair of the same
   * events has nothing to do.
   */
  lemma RepairIsCompleteAndIdempotent(
    o: Options, h: Hashes, w: Window, m: Manifest, attempt: nat, events: seq<LogRecord>, now: int, s: Store, archived: seq<LogRecord>)
    requires o.Legal() && JobWindow(o, w) && Orderly(o, w, m.objects) && NextFree(KeysOf(m.objects), attempt)
    requires ReadListed(o, s, m.objects) == Some(archived)
    ensures
      var p := Repage(h, IdentitySet(h, archived), events);
      var t := ApplyPuts(s, RepairPlan(o, w, m, attempt, p.missing, now));
      var n := if p.missing == [] then m else Repaired(o, w, m, attempt, p.missing, now);
      && ReadListed(o, t, n.objects) == Some(archived + p.missing)
      && Orderly(o, w, n.objects)
      && Fills(h, archived, events, p.missing)
      && (m.recordCount == TotalRecords(m.objects) ==> n.recordCount == TotalRecords(n.objects))
      && Repage(h, IdentitySet(h, archived + p.missing), events).missing == []
      && (p.missing == [] ==> t == s)
  {
    RepageFills(h, archived, events);
    hide RepairPlan, PiecePuts, ManKey, Options.Legal, JobWindow, Orderly, NextFree, ReadListed, ObjKey, Known, TotalRecords, Fills;
    BytesOf(o);
    var p := Repage(h, IdentitySet(h, archived), events);
    assert forall e :: e in events ==> Recognized(h, archived + p.missing, e) by { RecognizesAll(h, archived, events, p.missing); }
    SecondPassFindsNothing(h, archived + p.missing, events);
    if p.missing == [] {
      assert archived + [] == archived;
      CleanPlan(o, w, m, attempt, now);
    } else {
      RepairObjects(o, w, m, attempt, p.missing, now, s, archived);
    }
  }

  /** A repair keeps the manifest's identity and counts what it appended, in the total and over all repairs. */
  lemma RepairAddsUp(o: Options, w: Window, m: Manifest, attempt: nat, missing: seq<LogRecord>, now: int)
    requires Bytes(o.logGroup)
    ensures var n := Repaired(o, w, m, attempt, missing, now);
            && m.objects <= n.objects && TotalRecords(n.objects) - TotalRecords(m.objects) == |missing|
            && n.recordCount - m.recordCount == |missing|
            && n.reconciledAdded.Some? && n.reconciledAdded.value - m.reconciledAdded.GetOr(0) == |missing| && n.reconciledAt == Some(now)
            && (n.version, n.account, n.logGroup, n.startMs, n.endMs, n.completedAt) == (m.version, m.account, m.logGroup, m.startMs, m.endMs, m.completedAt)
  {
    hide TotalRecords, PieceEntries, Pieces;
    AppendedCount(o, w, Layout.Reconcile(attempt), missing);
    TotalAppend(m.objects, PieceEntries(o, w, Layout.Reconcile(attempt), Pieces(o, missing)));
  }

  lemma CleanPlan(o: Options, w: Window, m: Manifest, attempt: nat, now: int)
    requires Bytes(o.logGroup)
    ensures RepairPlan(o, w, m, attempt, [], now) == []
  {
  }

  lemma RepairObjects(o: Options, w: Window, m: Manifest, attempt: nat, missing: seq<LogRecord>, now: int, s: Store, archived: seq<LogRecord>)
    requires o.Legal() && JobWindow(o, w) && Orderly(o, w, m.objects) && NextFree(KeysOf(m.objects), attempt)
    requires ReadListed(o, s, m.objects) == Some(archived) && missing != []
    ensures var t, n := ApplyPuts(s, RepairPlan(o, w, m, attempt, missing, now)), Repaired(o, w, m, attempt, missing, now);
            && ReadListed(o, t, n.objects) == Some(archived + missing)
            && Orderly(o, w, n.objects)
            && (m.recordCount == TotalRecords(m.objects) ==> n.recordCount == TotalRecords(n.objects))
  {
    hide RepairPlan, PiecePuts, PieceEntries, Pieces, ManKey, Options.Legal, JobWindow, Orderly, ReadListed, ObjKey, TotalRecords;
    BytesOf(o);
    var t := ApplyPuts(s, RepairPlan(o, w, m, attempt, missing, now));
    var pieces, naming := Pieces(o, missing), Layout.Reconcile(attempt);
    PiecesPartition(o, missing);
    ListedSurvivesRepair(o, w, m, attempt, missing, now, s);
    RepairStores(o, w, m, attempt, missing, now, s);
    EntriesReadBack(o, t, w, naming, pieces);
    ReadListedAppend(o, t, m.objects, PieceEntries(o, w, naming, pieces));
    OrderlyAppend(o, w, m.objects, attempt, pieces);
    AppendedCount(o, w, naming, missing);
    TotalAppend(m.objects, PieceEntries(o, w, naming, pieces));
  }

  // ----- A second repair -----

  predicate WithinCeiling(o: Options, pieces: seq<seq<LogRecord>>) {
    forall i :: 0 <= i < |pieces| ==> |o.codec.Lines(pieces[i])| <= MAX_DECOMPRESSED_BYTES
  }

  /** A stored chunk decodes through its manifest entry exactly when it is within the ceiling. */
  lemma StoredChunkDecodes(o: Options, s: Store, key: string, piece: seq<LogRecord>, ch: EncodedChunk)
    requires o.codec.Lawful() && piece != [] && ChunkFor(o, piece) == Some(ch) && AllPut(s, ObjectPuts(o, key, ch))
    ensures DecodeListed(o, s, ObjectEntry(key, ch)).Ok? <==> |o.codec.Lines(piece)| <= MAX_DECOMPRESSED_BYTES
  {
    ObjectPutStored(o, s, key, ch);
    ChunkText(o, piece, ch);
    hide ChunkFor, AllPut, ObjectPuts, DecompressFrames, Codec.Lines, Codec.ParseLines, AllDecoded;
    DecompressExact(o.codec, ch.body, ch.uncompressedBytes);
  }

  lemma ObjectPutStored(o: Options, s: Store, key: string, ch: EncodedChunk)
    requires AllPut(s, ObjectPuts(o, key, ch))
    ensures DataSlot(key) in s && s[DataSlot(key)] == ch.body
  {
    assert ObjectPuts(o, key, ch)[0] == Put(DataSlot(key), ch.body);
  }

  lemma {:induction false} EntriesDecode(o: Options, s: Store, w: Window, naming: ObjectNaming, pieces: seq<seq<LogRecord>>)
    requires o.Legal() && [] !in pieces && AllPut(s, PiecePuts(o, w, naming, pieces))
    ensures AllDecode(o, s, PieceEntries(o, w, naming, pieces)) <==> WithinCeiling(o, pieces)
    decreases |pieces|
  {
    BytesOf(o);
    if pieces == [] {
      NoPieces(o, s, w, naming);
    } else {
      hide ObjKey, ChunkFor, PiecePuts, PieceEntries, Options.Legal, ObjectEntry, DecodeListed, AllPut, AllDecode, WithinCeiling, ObjectPuts;
      var n := |pieces| - 1;
      assert pieces[n] in pieces;
      ChunkPresent(o, pieces[n]);
      var key, ch := ObjKey(o, w, naming, n), ChunkFor(o, pieces[n]).value;
      TakeSnoc(pieces, n);
      TakeAll(pieces);
      PieceSnoc(o, w, naming, pieces[..n], pieces[n], ch);
      AllPutSplit(s, PiecePuts(o, w, naming, pieces[..n]), ObjectPuts(o, key, ch));
      EntriesDecode(o, s, w, naming, pieces[..n]);
      CodecOf(o);
      StoredChunkDecodes(o, s, key, pieces[n], ch);
      DecodeSnoc(o, s, PieceEntries(o, w, naming, pieces[..n]), ObjectEntry(key, ch));
      CeilingSnoc(o, pieces[..n], pieces[n]);
    }
  }

  lemma DecodeSnoc(o: Options, s: Store, es: seq<ManifestObject>, e: ManifestObject)
    ensures AllDecode(o, s, es + [e]) <==> AllDecode(o, s, es) && DecodeListed(o, s, e).Ok?
  {
    hide DecodeListed;
    DecodeAppend(o, s, es, [e]);
    assert [e][0] == e;
  }

  lemma DecodeAppend(o: Options, s: Store, a: seq<ManifestObject>, b: seq<ManifestObject>)
    ensures AllDecode(o, s, a + b) <==> AllDecode(o, s, a) && AllDecode(o, s, b)
  {
    hide DecodeListed;
    if AllDecode(o, s, a + b) {
      forall i | 0 <= i < |a| ensures DecodeListed(o, s, a[i]).Ok? {
        assert (a + b)[i] == a[i];
      }
      forall i | 0 <= i < |b| ensures DecodeListed(o, s, b[i]).Ok? {
        assert (a + b)[|a| + i] == b[i];
      }
    }
  }

  lemma CeilingSnoc(o: Options, pieces: seq<seq<LogRecord>>, x: seq<LogRecord>)
    ensures WithinCeiling(o, pieces + [x]) <==> WithinCeiling(o, pieces) && |o.codec.Lines(x)| <= MAX_DECOMPRESSED_BYTES
  {
    hide Codec.Lines;
    var all := pieces + [x];
    assert all[|pieces|] == x;
    if WithinCeiling(o, all) {
      forall i | 0 <= i < |pieces| ensures |o.codec.Lines(pieces[i])| <= MAX_DECOMPRESSED_BYTES {
        assert all[i] == pieces[i];
      }
    }
  }

  /** What decodes before a repair decodes after it. */
  lemma DecodeSurvivesRepair(o: Options, w: Window, m: Manifest, attempt: nat, missing: seq<LogRecord>, now: int, s: Store)
    requires o.Legal() && JobWindow(o, w) && Orderly(o, w, m.objects) && NextFree(KeysOf(m.objects), attempt)
    requires Bytes(o.logGroup) && AllDecode(o, s, m.objects)
    ensures AllDecode(o, ApplyPuts(s, RepairPlan(o, w, m, attempt, missing, now)), m.objects)
  {
    hide Options.Legal, JobWindow, Orderly, NextFree, RepairPlan;
    var plan := RepairPlan(o, w, m, attempt, missing, now);
    var t := ApplyPuts(s, plan);
    forall k | 0 <= k < |m.objects| ensures DecodeListed(o, t, m.objects[k]).Ok? {
      var e := m.objects[k];
      assert DecodeListed(o, s, e).Ok?;
      forall i | 0 <= i < |plan| ensures plan[i].slot != DataSlot(e.dataKey) {
        RepairAvoidsListed(o, w, m, attempt, missing, now, i, e);
      }
      ApplyElsewhere(s, plan, DataSlot(e.dataKey));
    }
  }

  /**
   * Repairing again. After a repair that was done, a second one over the same
   * events, however paged, fails exactly when the attempts are used up or an
   * object just written is above the decompression ceiling; otherwise it is done
   * with nothing to append. Either way it leaves the store alone.
   */
  lemma SecondRepairIsIdle(
    o: Options, h: Hashes, w: Window, m: Manifest, events: seq<LogRecord>, s: Store, allowed: nat, now: int,
    t: Store, out: RepairOutcome, attempt: nat, done: nat,
    events2: seq<LogRecord>, allowed2: nat, now2: int, t2: Store, out2: RepairOutcome, attempt2: nat, done2: nat)
    requires o.Legal() && JobWindow(o, w) && Bytes(o.logGroup) && Orderly(o, w, m.objects)
    requires ManifestSlot(ManKey(o, w)) in s && FromJson(o, s[ManifestSlot(ManKey(o, w))]) == Some(m)
    requires Repairs(o, h, w, m, events, true, s, allowed, now, t, out, attempt, done) && out.Done?
    requires ManifestSlot(ManKey(o, w)) in t && FromJson(o, t[ManifestSlot(ManKey(o, w))]).Some?
    requires Repairs(o, h, w, FromJson(o, t[ManifestSlot(ManKey(o, w))]).value, events2, true, t, allowed2, now2, t2, out2, attempt2, done2)
    requires forall e :: e in events2 ==> e in events
    ensures t2 == t && (out2.Failed? || out2 == Done(0))
    ensures var n := FromJson(o, t[ManifestSlot(ManKey(o, w))]).value;
            var missing := Repage(h, IdentitySet(h, ReadListed(o, s, m.objects).value), events).missing;
            out2.Failed? <==> AttemptsUsedUp(KeysOf(n.objects)) || !WithinCeiling(o, Pieces(o, missing))
  {
    hide Options.Legal, JobWindow, Orderly, NextFree, ReadListed, IdentitySet, Repage, ManKey, RepairPlan, FromJson, AllDecode, WithinCeiling, Known, Repaired,
         AttemptsUsedUp, TotalRecords, Pieces, Recognized;
    var archived := ReadListed(o, s, m.objects).value;
    var missing := Repage(h, IdentitySet(h, archived), events).missing;
    var n := if missing == [] then m else Repaired(o, w, m, attempt, missing, now);
    RepairIsCompleteAndIdempotent(o, h, w, m, attempt, events, now, s, archived);
    StoredAfterRepair(o, w, m, attempt, missing, now, s);
    DecodesAfterRepair(o, w, m, attempt, missing, now, s);
    RecognizesAll(h, archived, events, missing);
    SecondPassFindsNothing(h, archived + missing, events2);
    if !out2.Failed? {
      CleanPlan(o, w, n, attempt2, now2);
    }
  }

  lemma StoredAfterRepair(o: Options, w: Window, m: Manifest, attempt: nat, missing: seq<LogRecord>, now: int, s: Store)
    requires o.Legal() && JobWindow(o, w) && Bytes(o.logGroup) && NextFree(KeysOf(m.objects), attempt)
    requires ManifestSlot(ManKey(o, w)) in s && FromJson(o, s[ManifestSlot(ManKey(o, w))]) == Some(m)
    ensures var t := ApplyPuts(s, RepairPlan(o, w, m, attempt, missing, now));
            && ManifestSlot(ManKey(o, w)) in t
            && FromJson(o, t[ManifestSlot(ManKey(o, w))]) == Some(if missing == [] then m else Repaired(o, w, m, attempt, missing, now))
  {
    hide Options.Legal, JobWindow, ManKey, RepairPlan, Pieces, PiecePuts, Repaired;
    if missing == [] {
      CleanPlan(o, w, m, attempt, now);
    } else {
      RepairStores(o, w, m, attempt, missing, now, s);
      RepairedDecodes(o, w, m, attempt, missing, now);
    }
  }

  lemma DecodesAfterRepair(o: Options, w: Window, m: Manifest, attempt: nat, missing: seq<LogRecord>, now: int, s: Store)
    requires o.Legal() && JobWindow(o, w) && Bytes(o.logGroup) && Orderly(o, w, m.objects) && NextFree(KeysOf(m.objects), attempt)
    requires AllDecode(o, s, m.objects)
    ensures var n := if missing == [] then m else Repaired(o, w, m, attempt, missing, now);
            AllDecode(o, ApplyPuts(s, RepairPlan(o, w, m, attempt, missing, now)), n.objects) <==> WithinCeiling(o, Pieces(o, missing))
  {
    hide Options.Legal, JobWindow, Orderly, RepairPlan, PiecePuts, PieceEntries, AllDecode, WithinCeiling, DecodeListed;
    DecodeSurvivesRepair(o, w, m, attempt, missing, now, s);
    PiecesPartition(o, missing);
    if missing == [] {
      NoneOverCeiling(o);
    } else {
      hide Pieces;
      var t, naming := ApplyPuts(s, RepairPlan(o, w, m, attempt, missing, now)), Layout.Reconcile(attempt);
      RepairStores(o, w, m, attempt, missing, now, s);
      EntriesDecode(o, t, w, naming, Pieces(o, missing));
      DecodeAppend(o, t, m.objects, PieceEntries(o, w, naming, Pieces(o, missing)));
    }
  }

  lemma NoneOverCeiling(o: Options)
    ensures WithinCeiling(o, Pieces(o, []))
  {
  }

  // ----- One window of a reconcile run -----

  datatype Action = Drained(drain: Drain.Outcome) | Reconciled(repair: RepairOutcome) | BadManifest
  {
    predicate Complete() {
      (Drained? && drain.Completed?) || (Reconciled? && repair.Done?)
    }
  }

  /** The stored manifest of the window lists readable objects with a record for every event. */
  ghost predicate Accounted(o: Options, h: Hashes, t: Store, w: Window, events: seq<LogRecord>)
    requires Bytes(o.logGroup)
  {
    && ManifestSlot(ManKey(o, w)) in t
    && match FromJson(o, t[ManifestSlot(ManKey(o, w))])
       case None => false
       case Some(n) =>
         && Orderly(o, w, n.objects) && ReadListed(o, t, n.objects).Some?
         && forall e :: e in events ==> Recognized(h, ReadListed(o, t, n.objects).value, e)
  }

  /**
   * Reconcile one window: a window without a manifest is drained, bytes that
   * are no manifest are an error, anything else is repaired. Once complete,
   * every in-window event that CloudWatch returned is accounted for.
   */
  method ProcessForReconcile(
    o: Options, h: Hashes, w: Window, pages: seq<seq<LogRecord>>, fetched: bool, ghost rest: seq<seq<LogRecord>>, s: Store, allowed: nat, now: int)
    returns (t: Store, a: Action)
    requires o.Legal() && JobWindow(o, w) && Bytes(o.logGroup) && (fetched ==> rest == [])
    requires ManifestSlot(ManKey(o, w)) in s && FromJson(o, s[ManifestSlot(ManKey(o, w))]).Some? ==>
               Orderly(o, w, FromJson(o, s[ManifestSlot(ManKey(o, w))]).value.objects)
    ensures a.Drained? <==> ManifestSlot(ManKey(o, w)) !in s
    ensures a.BadManifest? <==> ManifestSlot(ManKey(o, w)) in s && FromJson(o, s[ManifestSlot(ManKey(o, w))]).None?
    ensures a.BadManifest? ==> t == s
    ensures a.Drained? ==> (a.drain.Completed? ==> fetched) && (fetched ==> (a.drain.Completed? <==> allowed >= |DrainPlan(o, w, InWindow(Flatten(pages), w), now)|))
    ensures a.Reconciled? ==>
              var listed := FromJson(o, s[ManifestSlot(ManKey(o, w))]).value.objects;
              a.repair.Failed? <==> !AllDecode(o, s, listed) || AttemptsUsedUp(KeysOf(listed))
    ensures a.Complete() ==> Accounted(o, h, t, w, InWindow(Flatten(pages), w))
  {
    hide ManKey, Orderly, ReadListed, IdentitySet, Known, RepairPlan, DrainPlan, ApplyPuts, Options.Legal, JobWindow, Repage, InWindow, FromJson, AllDecode, AttemptsUsedUp, Accounted, NextFree;
    var slot := ManifestSlot(ManKey(o, w));
    ghost var events := InWindow(Flatten(pages), w);
    if fetched {
      assert Flatten(pages) + Flatten(rest) == Flatten(pages);
    }
    if slot !in s {
      assert !Covered(o, s, w);
      var out;
      ghost var done;
      t, out, done := ProcessWindow(o, w, pages, fetched, rest, s, allowed, now);
      if out.Completed? {
        DrainAccounts(o, h, w, events, now, s);
      }
      return t, Drained(out);
    }
    var m := FromJson(o, s[slot]);
    if m.None? {
      return s, BadManifest;
    }
    var out;
    ghost var attempt, done;
    t, out, attempt, done := ReconcileWindow(o, h, w, m.value, pages, fetched, rest, s, allowed, now);
    if out.Done? {
      RepairAccounts(o, h, w, m.value, attempt, events, now, s);
    }
    return t, Reconciled(out);
  }

  lemma DrainAccounts(o: Options, h: Hashes, w: Window, events: seq<LogRecord>, now: int, s: Store)
    requires o.Legal() && JobWindow(o, w) && Bytes(o.logGroup)
    ensures Accounted(o, h, ApplyPuts(s, DrainPlan(o, w, events, now)), w, events)
  {
    hide PiecePuts, PieceEntries, ManKey, Options.Legal, JobWindow, Pieces, ReadListed, Orderly, IdentitySet;
    var pieces, m, t := Pieces(o, events), WindowManifest(o, w, events, now), ApplyPuts(s, DrainPlan(o, w, events, now));
    DrainStores(o, w, events, now, s);
    PiecesPartition(o, events);
    EntriesReadBack(o, t, w, Base, pieces);
    OrderlyBase(o, w, pieces);
    ManifestCovers(o, w, m);
    forall e | e in events ensures Recognized(h, events, e) {
      StandsForItself(h, e);
    }
  }

  lemma RepairAccounts(o: Options, h: Hashes, w: Window, m: Manifest, attempt: nat, events: seq<LogRecord>, now: int, s: Store)
    requires o.Legal() && JobWindow(o, w) && Bytes(o.logGroup) && Orderly(o, w, m.objects) && NextFree(KeysOf(m.objects), attempt)
    requires ManifestSlot(ManKey(o, w)) in s && FromJson(o, s[ManifestSlot(ManKey(o, w))]) == Some(m)
    requires ReadListed(o, s, m.objects).Some?
    ensures var missing := Repage(h, IdentitySet(h, ReadListed(o, s, m.objects).value), events).missing;
            Accounted(o, h, ApplyPuts(s, RepairPlan(o, w, m, attempt, missing, now)), w, events)
  {
    hide PiecePuts, PieceEntries, ManKey, Options.Legal, JobWindow, Pieces, ReadListed, Orderly, IdentitySet, Known, Repage, RepairPlan, TotalRecords;
    var archived := ReadListed(o, s, m.objects).value;
    var missing := Repage(h, IdentitySet(h, archived), events).missing;
    RepairIsCompleteAndIdempotent(o, h, w, m, attempt, events, now, s, archived);
    if missing != [] {
      RepairStores(o, w, m, attempt, missing, now, s);
      RepairedDecodes(o, w, m, attempt, missing, now);
    }
  }

  lemma RepairedDecodes(o: Options, w: Window, m: Manifest, attempt: nat, missing: seq<LogRecord>, now: int)
    requires o.Legal() && Bytes(o.logGroup) && m.version == MANIFEST_VERSION
    ensures FromJson(o, o.man.enc(Repaired(o, w, m, attempt, missing, now))) == Some(Repaired(o, w, m, attempt, missing, now))
  {
    var n := Repaired(o, w, m, attempt, missing, now);
    assert o.man.dec(o.man.enc(n)) == Some(n);
  }
}
