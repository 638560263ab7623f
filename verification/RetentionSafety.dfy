/**
 * What the retention gate rests on, over whole runs: what is listed stays
 * listed and keeps its bytes, nothing CloudWatch ever returned for a covered
 * window is lost, and the one way to lose it is to overwrite its manifest.
 */
module RetentionSafety {
  import opened Common
  import opened Layout
  import opened Windows
  import opened Drain
  import opened Keys
  import opened Archive
  import opened Retention
  import Reconcile

  // ----- No PUT targets a listed object -----

  lemma PutAvoidsListed(o: Options, s: State, w: Window, v: Window, e: ManifestObject)
    requires o.Legal() && Inv(o, s) && w in s.jobs && s.jobs[w].pos < |DataPuts(o, w, s.jobs[w])|
    requires Representable(v) && Covered(o, s.store, v) && e in FromJson(o, s.store[ManSlot(o, v)]).value.objects
    ensures DataPuts(o, w, s.jobs[w])[s.jobs[w].pos].slot != DataSlot(e.dataKey)
  {
    hide Options.Legal, JobWindow, ObjKey, PiecePuts, Representable, ManKey, NextFree, ReadListed;
    BytesOf(o);
    var k := s.jobs[w];
    assert WindowInv(o, s, v) && JobInv(o, s, w, k);
    var es := FromJson(o, s.store[ManSlot(o, v)]).value.objects;
    var n := PieceSlots(o, w, Naming(k), Pieces(o, Records(k)), k.pos);
    var p := DataPuts(o, w, k)[k.pos];
    if v == w {
      OwnListUndisturbed(o, s.store, p.slot, p.value, w, k.attempt, n, es);
    } else {
      var naming, m :| OwnKey(o, v, KeysOf(es), e.dataKey, naming, m);
      if p.slot == DataSlot(e.dataKey) {
        ObjKeyInjective(o, v, naming, m, w, Naming(k), n);
      }
    }
  }

  /** No PUT of any running job ever targets an object listed in a valid manifest. */
  lemma ListedNeverOverwritten(o: Options, h: Reconcile.Hashes, s0: Store, ls: seq<Label>, w: Window, v: Window, e: ManifestObject)
    requires o.Legal() && After(o, h, s0, ls).Some? && forall u :: Representable(u) ==> !Covered(o, s0, u)
    requires var s := After(o, h, s0, ls).value;
             && w in s.jobs && s.jobs[w].pos < |DataPuts(o, w, s.jobs[w])|
             && Representable(v) && Covered(o, s.store, v) && e in FromJson(o, s.store[ManSlot(o, v)]).value.objects
    ensures var s := After(o, h, s0, ls).value;
            DataPuts(o, w, s.jobs[w])[s.jobs[w].pos].slot != DataSlot(e.dataKey)
  {
    BytesOf(o);
    hide *;
    RunKeepsInv(o, h, s0, ls);
    PutAvoidsListed(o, After(o, h, s0, ls).value, w, v, e);
  }

  // ----- A covered window stays covered, and its listing only grows -----

  /** The step puts stray bytes on the window's manifest key. */
  predicate StraysOn(o: Options, l: Label, w: Window)
    requires Bytes(o.logGroup)
  {
    l.Stray? && l.key == ManKey(o, w)
  }

  function Listed(o: Options, s: Store, w: Window): seq<ManifestObject>
    requires Bytes(o.logGroup) && Covered(o, s, w)
  {
    FromJson(o, s[ManSlot(o, w)]).value.objects
  }

  /** Still covered, with everything listed before listed first, and every listed object's bytes as they were. */
  ghost predicate Keeps(o: Options, s: Store, t: Store, w: Window)
    requires Bytes(o.logGroup) && Covered(o, s, w)
  {
    && Covered(o, t, w) && Listed(o, s, w) <= Listed(o, t, w)
    && forall e :: e in Listed(o, s, w) && DataSlot(e.dataKey) in s ==>
         DataSlot(e.dataKey) in t && t[DataSlot(e.dataKey)] == s[DataSlot(e.dataKey)]
  }

  lemma KeepsOverWrite(o: Options, s: Store, x: Slot, value: seq<byte>, w: Window)
    requires Bytes(o.logGroup) && Covered(o, s, w) && x != ManSlot(o, w)
    requires forall e :: e in Listed(o, s, w) ==> DataSlot(e.dataKey) != x
    ensures Keeps(o, s, s[x := value], w)
  {
    hide ManKey, FromJson;
  }

  lemma ObjectPutGrows(o: Options, s: State, v: Window, w: Window)
    requires o.Legal() && Inv(o, s) && v in s.jobs && s.jobs[v].pos < |DataPuts(o, v, s.jobs[v])|
    requires Bytes(o.logGroup) && Representable(w) && Covered(o, s.store, w)
    ensures Keeps(o, s.store, PutObject(o, s, v).store, w)
  {
    hide Options.Legal, Inv, PiecePuts, ManKey, Covered, Keeps, Representable;
    var k := s.jobs[v];
    var p := DataPuts(o, v, k)[k.pos];
    var n := PieceSlots(o, v, Naming(k), Pieces(o, Records(k)), k.pos);
    forall e | e in Listed(o, s.store, w) ensures DataSlot(e.dataKey) != p.slot {
      PutAvoidsListed(o, s, v, w, e);
    }
    KeepsOverWrite(o, s.store, p.slot, p.value, w);
  }

  lemma InvOfJob(o: Options, s: State, v: Window)
    requires Bytes(o.logGroup) && Inv(o, s) && v in s.jobs
    ensures JobInv(o, s, v, s.jobs[v])
  {
    hide JobInv, WindowInv;
  }

  lemma ManifestPutGrows(o: Options, s: State, v: Window, w: Window)
    requires o.Legal() && Inv(o, s) && v in s.jobs && s.jobs[v].pos == |DataPuts(o, v, s.jobs[v])|
    requires Bytes(o.logGroup) && Representable(w) && Covered(o, s.store, w)
    ensures Keeps(o, s.store, PutManifest(o, s, v).store, w)
  {
    hide Options.Legal, PiecePuts, ManKey, Representable, Inv, JobInv, FinalManifest, Keeps, Covered;
    var k, t := s.jobs[v], PutManifest(o, s, v);
    InvOfJob(o, s, v);
    if v == w {
      OwnManifestGrows(o, s, w, k);
    } else {
      JobFacts(o, s, v, k);
      ManKeysDiffer(o, v, w);
      ListedIsData(o, s.store, w, ManSlot(o, v));
      KeepsOverWrite(o, s.store, ManSlot(o, v), o.man.enc(FinalManifest(o, v, k)), w);
    }
  }

  lemma ListedIsData(o: Options, s: Store, w: Window, x: Slot)
    requires Bytes(o.logGroup) && Covered(o, s, w) && x.ManifestSlot?
    ensures forall e :: e in Listed(o, s, w) ==> DataSlot(e.dataKey) != x
  {
  }

  lemma OwnManifestGrows(o: Options, s: State, w: Window, k: Work)
    requires o.Legal() && Bytes(o.logGroup) && JobInv(o, s, w, k) && Covered(o, s.store, w)
    ensures Keeps(o, s.store, s.store[ManSlot(o, w) := o.man.enc(FinalManifest(o, w, k))], w)
  {
    hide Options.Legal, PiecePuts, PieceEntries, ManKey, Holds, NextFree;
    assert k.Repairing? && FromJson(o, s.store[ManSlot(o, w)]) == Some(k.m);
    ManifestDecodes(o, FinalManifest(o, w, k));
  }

  lemma StepGrows(o: Options, s: State, l: Label, w: Window)
    requires o.Legal() && Inv(o, s) && Enabled(o, s, l)
    requires Bytes(o.logGroup) && Representable(w) && Covered(o, s.store, w) && !StraysOn(o, l, w)
    ensures Keeps(o, s.store, Apply(o, s, l).store, w)
  {
    hide Options.Legal, Inv, PiecePuts, ManKey, Representable, PutObject, PutManifest, Covered, DataPuts;
    match l {
      case PutNext(v) =>
        if s.jobs[v].pos < |DataPuts(o, v, s.jobs[v])| {
          ObjectPutGrows(o, s, v, w);
        } else {
          ManifestPutGrows(o, s, v, w);
        }
      case Stray(key, bytes) => KeepsOverWrite(o, s.store, ManifestSlot(key), bytes, w);
      case StartDrain(_, _, _) => KeepsSelf(o, s.store, w);
      case StartRepair(_, _, _, _) => KeepsSelf(o, s.store, w);
      case CleanRepair(_, _) => KeepsSelf(o, s.store, w);
      case Crash => KeepsSelf(o, s.store, w);
    }
  }

  lemma KeepsSelf(o: Options, s: Store, w: Window)
    requires Bytes(o.logGroup) && Covered(o, s, w)
    ensures Keeps(o, s, s, w)
  {
  }

  lemma KeepsTrans(o: Options, a: Store, b: Store, c: Store, w: Window)
    requires Bytes(o.logGroup) && Covered(o, a, w) && Keeps(o, a, b, w) && Keeps(o, b, c, w)
    ensures Keeps(o, a, c, w)
  {
    hide Covered, FromJson, ManKey, Listed;
    forall e | e in Listed(o, a, w) && DataSlot(e.dataKey) in a
      ensures DataSlot(e.dataKey) in c && c[DataSlot(e.dataKey)] == a[DataSlot(e.dataKey)]
    {
      assert e in Listed(o, b, w);
    }
  }

  /** No stray bytes ever landed on the window's manifest key while the window was covered. */
  ghost predicate Spared(o: Options, h: Reconcile.Hashes, s0: Store, ls: seq<Label>, w: Window)
    requires Bytes(o.logGroup)
  {
    ls == [] ||
    (var init := ls[..|ls| - 1];
     && Spared(o, h, s0, init, w)
     && (StraysOn(o, ls[|ls| - 1], w) && After(o, h, s0, init).Some? ==> !Covered(o, After(o, h, s0, init).value.store, w)))
  }

  /** A window covered at some point of a run that spares it is covered ever after, with all it listed intact. */
  lemma {:induction false} ListingOnlyGrows(o: Options, h: Reconcile.Hashes, s0: Store, ls: seq<Label>, n: nat, w: Window)
    requires o.Legal() && After(o, h, s0, ls).Some? && forall u :: Representable(u) ==> !Covered(o, s0, u)
    requires Bytes(o.logGroup) && Representable(w) && Spared(o, h, s0, ls, w)
    requires n <= |ls| && After(o, h, s0, ls[..n]).Some? && Covered(o, After(o, h, s0, ls[..n]).value.store, w)
    ensures Keeps(o, After(o, h, s0, ls[..n]).value.store, After(o, h, s0, ls).value.store, w)
    decreases |ls|
  {
    hide Options.Legal, Enabled, Apply, Inv, Covered, Keeps, Representable, ManKey;
    if n == |ls| {
      TakeAll(ls);
      KeepsSelf(o, After(o, h, s0, ls).value.store, w);
    } else {
      var init, l := ls[..|ls| - 1], ls[|ls| - 1];
      assert init[..n] == ls[..n];
      ListingOnlyGrows(o, h, s0, init, n, w);
      var a, b := After(o, h, s0, ls[..n]).value.store, After(o, h, s0, init).value;
      assert Covered(o, b.store, w) by { KeepsCovered(o, a, b.store, w); }
      RunKeepsInv(o, h, s0, init);
      StepGrows(o, b, l, w);
      KeepsTrans(o, a, b.store, Apply(o, b, l).store, w);
    }
  }

  lemma KeepsCovered(o: Options, s: Store, t: Store, w: Window)
    requires Bytes(o.logGroup) && Covered(o, s, w) && Keeps(o, s, t, w)
    ensures Covered(o, t, w)
  {
  }

  // ----- Everything ever returned -----

  /** The listed objects read back, hold the events of every drain, and know those of every repair. */
  ghost predicate AllReadable(o: Options, s: State, w: Window)
    requires Bytes(o.logGroup) && Covered(o, s.store, w)
  {
    var archived := ReadListed(o, s.store, Listed(o, s.store, w));
    && archived.Some?
    && multiset(Flatten(Drains(s, w))) <= multiset(archived.value)
    && AllKnown(s.h, archived.value, Told(s, w))
  }

  /** A covered window was drained once, an uncovered one never; a repair under way is of the stored manifest. */
  ghost predicate HistInv(o: Options, s: State, w: Window)
    requires Bytes(o.logGroup)
  {
    && (Covered(o, s.store, w) ==> w in s.paged && Drains(s, w) == [s.paged[w]] && Told(s, w) == Repaged(s, w))
    && (!Covered(o, s.store, w) ==> Drains(s, w) == [] && Told(s, w) == [])
    && (w in s.jobs && s.jobs[w].Repairing? && Matches(o, w, s.jobs[w].m) ==> Covered(o, s.store, w))
  }

  lemma OtherKeepsHistory(o: Options, s: State, t: State, w: Window)
    requires Bytes(o.logGroup) && HistInv(o, s, w)
    requires Covered(o, s.store, w) <==> Covered(o, t.store, w)
    requires (w in t.jobs <==> w in s.jobs) && (w in s.jobs ==> t.jobs[w] == s.jobs[w])
    requires (w in s.paged ==> w in t.paged && t.paged[w] == s.paged[w]) && Repaged(t, w) == Repaged(s, w)
    requires Drains(t, w) == Drains(s, w) && Told(t, w) == Told(s, w)
    ensures HistInv(o, t, w)
  {
  }

  lemma ObjectPutKeepsHistory(o: Options, s: State, v: Window, w: Window)
    requires Bytes(o.logGroup) && HistInv(o, s, w) && v in s.jobs && s.jobs[v].pos < |DataPuts(o, v, s.jobs[v])|
    ensures HistInv(o, PutObject(o, s, v), w)
  {
    hide PiecePuts, ManKey, FromJson, Matches;
    var k := s.jobs[v];
    var n := PieceSlots(o, v, Naming(k), Pieces(o, Records(k)), k.pos);
  }

  lemma ManifestPutKeepsHistory(o: Options, s: State, v: Window, w: Window)
    requires o.Legal() && Bytes(o.logGroup) && Inv(o, s) && HistInv(o, s, w) && Representable(w)
    requires v in s.jobs && s.jobs[v].pos == |DataPuts(o, v, s.jobs[v])|
    ensures HistInv(o, PutManifest(o, s, v), w)
  {
    hide Options.Legal, PiecePuts, ManKey, Representable, Inv, JobInv, HistInv, FinalManifest, CoversWindow, Matches;
    var k, t := s.jobs[v], PutManifest(o, s, v);
    InvOfJob(o, s, v);
    if v == w {
      if k.Draining? {
        OwnDrainHistory(o, s, w);
      } else {
        OwnRepairHistory(o, s, w);
      }
    } else {
      JobFacts(o, s, v, k);
      ManKeysDiffer(o, v, w);
      OtherKeepsHistory(o, s, t, w);
    }
  }

  lemma OwnDrainHistory(o: Options, s: State, w: Window)
    requires o.Legal() && Bytes(o.logGroup) && HistInv(o, s, w) && w in s.jobs && s.jobs[w].Draining?
    requires JobInv(o, s, w, s.jobs[w])
    ensures HistInv(o, PutManifest(o, s, w), w)
  {
    hide Options.Legal, PiecePuts, PieceEntries, ManKey, Matches, FromJson;
    DrainManifestCovers(o, w, s.jobs[w].events, s.jobs[w].at);
    assert [] + [s.jobs[w].events] == [s.jobs[w].events];
  }

  lemma OwnRepairHistory(o: Options, s: State, w: Window)
    requires o.Legal() && Bytes(o.logGroup) && HistInv(o, s, w) && w in s.jobs && s.jobs[w].Repairing?
    requires JobInv(o, s, w, s.jobs[w])
    ensures HistInv(o, PutManifest(o, s, w), w)
  {
    hide Options.Legal, PiecePuts, PieceEntries, ManKey, Holds, NextFree;
    var k, t := s.jobs[w], PutManifest(o, s, w);
    ManifestDecodes(o, FinalManifest(o, w, k));
    CoveredMatches(o, t.store, w);
    CoveredMatches(o, s.store, w);
  }

  lemma DrainManifestCovers(o: Options, w: Window, events: seq<LogRecord>, at: int)
    requires o.Legal() && Bytes(o.logGroup)
    ensures CoversWindow(o, o.man.enc(WindowManifest(o, w, events, at)), w)
    ensures FromJson(o, o.man.enc(WindowManifest(o, w, events, at))) == Some(WindowManifest(o, w, events, at))
  {
    hide Options.Legal, PieceEntries;
    ManifestCovers(o, w, WindowManifest(o, w, events, at));
  }

  lemma StepKeepsHistory(o: Options, s: State, l: Label, w: Window)
    requires o.Legal() && Inv(o, s) && Enabled(o, s, l)
    requires Bytes(o.logGroup) && Representable(w) && HistInv(o, s, w)
    requires StraysOn(o, l, w) ==> !Covered(o, s.store, w)
    ensures HistInv(o, Apply(o, s, l), w)
  {
    hide Options.Legal, Inv, PiecePuts, ManKey, Representable, PutObject, PutManifest, DataPuts, FromJson, Missing, ReadListed, NextFree;
    match l {
      case PutNext(v) =>
        hide HistInv;
        if s.jobs[v].pos < |DataPuts(o, v, s.jobs[v])| {
          ObjectPutKeepsHistory(o, s, v, w);
        } else {
          ManifestPutKeepsHistory(o, s, v, w);
        }
      case Stray(key, bytes) => assert ManKey(o, w) == key ==> !CoversWindow(o, bytes, w);
      case StartDrain(_, _, _) =>
      case StartRepair(v, _, _, _) => CoveredMatches(o, s.store, v);
      case CleanRepair(v, _) => CoveredMatches(o, s.store, v);
      case Crash =>
    }
  }

  lemma {:induction false} RunKeepsHistory(o: Options, h: Reconcile.Hashes, s0: Store, ls: seq<Label>, w: Window)
    requires o.Legal() && After(o, h, s0, ls).Some? && forall u :: Representable(u) ==> !Covered(o, s0, u)
    requires Bytes(o.logGroup) && Representable(w) && Spared(o, h, s0, ls, w)
    ensures HistInv(o, After(o, h, s0, ls).value, w)
  {
    hide Options.Legal, Enabled, Apply, Inv, Covered, Representable, ManKey;
    if ls != [] {
      hide HistInv;
      var init, l := ls[..|ls| - 1], ls[|ls| - 1];
      RunKeepsHistory(o, h, s0, init, w);
      RunKeepsInv(o, h, s0, init);
      StepKeepsHistory(o, After(o, h, s0, init).value, l, w);
    }
  }

  /**
   * In a run that spares a window's manifest key, the window is drained at most
   * once, is covered as soon as it was drained, and everything CloudWatch ever
   * returned to its drains and repairs stays readable or known.
   */
  lemma NothingReturnedIsLost(o: Options, h: Reconcile.Hashes, s0: Store, ls: seq<Label>, w: Window)
    requires o.Legal() && After(o, h, s0, ls).Some? && forall u :: Representable(u) ==> !Covered(o, s0, u)
    requires Bytes(o.logGroup) && Representable(w) && Spared(o, h, s0, ls, w)
    ensures var s := After(o, h, s0, ls).value;
            && |Drains(s, w)| <= 1 && s.h == h
            && (Covered(o, s.store, w) <==> |Drains(s, w)| == 1)
            && (Covered(o, s.store, w) ==> AllReadable(o, s, w) && JobWindow(o, w))
            && (!Covered(o, s.store, w) ==> Told(s, w) == [])
  {
    hide Options.Legal, After, ReadListed, ManKey, FromJson, Representable, JobWindow;
    RunKeepsHistory(o, h, s0, ls, w);
    RunKeepsInv(o, h, s0, ls);
    var s := After(o, h, s0, ls).value;
    assert WindowInv(o, s, w);
    if Covered(o, s.store, w) {
      FlattenSnoc<LogRecord>([], s.paged[w]);
      assert [] + [s.paged[w]] == [s.paged[w]] && Flatten<LogRecord>([]) + s.paged[w] == s.paged[w];
    }
  }

  // ----- Progress: any idle window can be drained -----

  lemma AfterStep(o: Options, h: Reconcile.Hashes, s0: Store, ls: seq<Label>, l: Label)
    requires Bytes(o.logGroup) && After(o, h, s0, ls).Some? && Enabled(o, After(o, h, s0, ls).value, l)
    ensures After(o, h, s0, ls + [l]) == Some(Apply(o, After(o, h, s0, ls).value, l))
  {
    hide Enabled, Apply;
    var longer := ls + [l];
    assert longer[..|longer| - 1] == ls;
  }

  /** The window's manifest is the one its drain of these events writes, and the drain is in the history. */
  ghost predicate JustDrained(o: Options, s: State, t: State, w: Window, events: seq<LogRecord>)
    requires Bytes(o.logGroup)
  {
    && Covered(o, t.store, w) && Listed(o, t.store, w) == PieceEntries(o, w, Base, Pieces(o, events))
    && Drains(t, w) == Drains(s, w) + [events] && Told(t, w) == Told(s, w)
  }

  /** A running drain needs only its own PUTs to complete. */
  lemma {:induction false} PutsComplete(o: Options, h: Reconcile.Hashes, s0: Store, ls: seq<Label>, w: Window) returns (more: seq<Label>)
    requires o.Legal() && Bytes(o.logGroup) && After(o, h, s0, ls).Some?
    requires var s := After(o, h, s0, ls).value;
             w in s.jobs && s.jobs[w].Draining? && s.jobs[w].pos <= |DataPuts(o, w, s.jobs[w])|
    ensures var s, t := After(o, h, s0, ls).value, After(o, h, s0, ls + more);
            t.Some? && JustDrained(o, s, t.value, w, s.jobs[w].events)
    ensures forall l :: l in more ==> !l.Stray?
    decreases |DataPuts(o, w, After(o, h, s0, ls).value.jobs[w])| - After(o, h, s0, ls).value.jobs[w].pos
  {
    hide Options.Legal, PiecePuts, PieceEntries, ManKey, Pieces, After, WindowManifest, FromJson;
    var s, l := After(o, h, s0, ls).value, PutNext(w);
    var k := s.jobs[w];
    AfterStep(o, h, s0, ls, l);
    if k.pos < |DataPuts(o, w, k)| {
      var rest := PutsComplete(o, h, s0, ls + [l], w);
      more := [l] + rest;
      Assoc(ls, [l], rest);
    } else {
      more := [l];
      ManifestPutDrains(o, s, w);
    }
  }

  lemma ManifestPutDrains(o: Options, s: State, w: Window)
    requires o.Legal() && Bytes(o.logGroup) && w in s.jobs && s.jobs[w].Draining?
    ensures JustDrained(o, s, PutManifest(o, s, w), w, s.jobs[w].events)
  {
    hide Options.Legal, PieceEntries, ManKey, Pieces, FromJson;
    DrainManifestCovers(o, w, s.jobs[w].events, s.jobs[w].at);
  }

  /** From every reachable state an idle, uncovered window can be drained, whatever CloudWatch then returns. */
  lemma DrainCanComplete(o: Options, h: Reconcile.Hashes, s0: Store, ls: seq<Label>, w: Window, events: seq<LogRecord>, at: int)
    returns (more: seq<Label>)
    requires o.Legal() && Bytes(o.logGroup) && JobWindow(o, w) && After(o, h, s0, ls).Some?
    requires w !in After(o, h, s0, ls).value.jobs && !Covered(o, After(o, h, s0, ls).value.store, w)
    ensures var s, t := After(o, h, s0, ls).value, After(o, h, s0, ls + more);
            t.Some? && JustDrained(o, s, t.value, w, events)
    ensures forall l :: l in more ==> !l.Stray?
  {
    hide Options.Legal, PiecePuts, ManKey, Pieces, After, JobWindow, Covered;
    var l := StartDrain(w, events, at);
    AfterStep(o, h, s0, ls, l);
    var rest := PutsComplete(o, h, s0, ls + [l], w);
    more := [l] + rest;
    Assoc(ls, [l], rest);
  }

  // ----- Exactly when a returned event can be lost -----

  /** Whatever steps follow that put no further stray bytes on the window's key, all that was returned for it stays readable. */
  ghost predicate Safe(o: Options, h: Reconcile.Hashes, s0: Store, ls: seq<Label>, w: Window)
    requires Bytes(o.logGroup)
  {
    forall more :: Continues(o, h, s0, ls, more, w) ==>
      var t := After(o, h, s0, ls + more).value;
      Covered(o, t.store, w) ==> AllReadable(o, t, w)
  }

  ghost predicate Continues(o: Options, h: Reconcile.Hashes, s0: Store, ls: seq<Label>, more: seq<Label>, w: Window)
    requires Bytes(o.logGroup)
  {
    After(o, h, s0, ls + more).Some? && forall l :: l in more ==> !StraysOn(o, l, w)
  }

  lemma {:induction false} SparedMore(o: Options, h: Reconcile.Hashes, s0: Store, ls: seq<Label>, more: seq<Label>, w: Window)
    requires Bytes(o.logGroup) && Spared(o, h, s0, ls, w) && forall l :: l in more ==> !StraysOn(o, l, w)
    ensures Spared(o, h, s0, ls + more, w)
    decreases |more|
  {
    hide After, Covered, StraysOn;
    if more == [] {
      assert ls + more == ls;
    } else {
      var n := |more| - 1;
      SparedMore(o, h, s0, ls, more[..n], w);
      var all := ls + more;
      assert all[..|all| - 1] == ls + more[..n] && all[|all| - 1] == more[n];
    }
  }

  /**
   * The exact condition. After a run that spared a window for which something
   * was returned, the next step is safe for it if and only if the step does not
   * put stray bytes on its manifest key.
   */
  lemma LostExactlyByStrayBytes(o: Options, h: Reconcile.Hashes, s0: Store, ls: seq<Label>, l: Label, w: Window)
    requires o.Legal() && After(o, h, s0, ls).Some? && forall u :: Representable(u) ==> !Covered(o, s0, u)
    requires Bytes(o.logGroup) && Representable(w) && Spared(o, h, s0, ls, w)
    requires Enabled(o, After(o, h, s0, ls).value, l)
    requires Flatten(Drains(After(o, h, s0, ls).value, w)) != [] || Told(After(o, h, s0, ls).value, w) != []
    ensures Safe(o, h, s0, ls + [l], w) <==> !StraysOn(o, l, w)
  {
    hide Options.Legal, After, Enabled, Covered, AllReadable, Representable, ManKey, Apply;
    var longer := ls + [l];
    if StraysOn(o, l, w) {
      var more := StrayThenLoss(o, h, s0, ls, l, w);
      assert Continues(o, h, s0, longer, more, w);
    } else {
      forall more | Continues(o, h, s0, longer, more, w)
        ensures var t := After(o, h, s0, longer + more).value; Covered(o, t.store, w) ==> AllReadable(o, t, w)
      {
        assert longer + more == ls + ([l] + more);
        SparedMore(o, h, s0, ls, [l] + more, w);
        NothingReturnedIsLost(o, h, s0, longer + more, w);
      }
    }
  }

  /** Stray bytes on a covered window's key, a crash, and a drain that now returns nothing: what was archived is no longer listed. */
  lemma StrayThenLoss(o: Options, h: Reconcile.Hashes, s0: Store, ls: seq<Label>, l: Label, w: Window) returns (more: seq<Label>)
    requires o.Legal() && After(o, h, s0, ls).Some? && forall u :: Representable(u) ==> !Covered(o, s0, u)
    requires Bytes(o.logGroup) && Representable(w) && Spared(o, h, s0, ls, w)
    requires Enabled(o, After(o, h, s0, ls).value, l) && StraysOn(o, l, w)
    requires Flatten(Drains(After(o, h, s0, ls).value, w)) != [] || Told(After(o, h, s0, ls).value, w) != []
    ensures After(o, h, s0, ls + [l] + more).Some? && forall m :: m in more ==> !m.Stray?
    ensures var t := After(o, h, s0, ls + [l] + more).value;
            && Covered(o, t.store, w) && Listed(o, t.store, w) == [] && !AllReadable(o, t, w)
            && Drains(t, w) == Drains(After(o, h, s0, ls).value, w) + [[]]
  {
    hide Options.Legal, After, Representable, ManKey, JobWindow, AllReadable, FromJson, Pieces, PieceEntries;
    NothingReturnedIsLost(o, h, s0, ls, w);
    var s := After(o, h, s0, ls).value;
    AfterStep(o, h, s0, ls, l);
    AfterStep(o, h, s0, ls + [l], Crash);
    var u := After(o, h, s0, ls + [l] + [Crash]).value;
    StrayUncovers(o, s, l, w);
    var rest := DrainCanComplete(o, h, s0, ls + [l] + [Crash], w, [], 0);
    more := [Crash] + rest;
    Assoc(ls + [l], [Crash], rest);
    var t := After(o, h, s0, ls + [l] + more).value;
    NothingInNothing(o, w);
    FlattenSnoc(Drains(s, w), []);
    EmptyListingLoses(o, t, w);
  }

  lemma StrayUncovers(o: Options, s: State, l: Label, w: Window)
    requires Bytes(o.logGroup) && Enabled(o, s, l) && StraysOn(o, l, w) && Representable(w)
    ensures !Covered(o, Apply(o, s, l).store, w)
    ensures Drains(Apply(o, s, l), w) == Drains(s, w) && Told(Apply(o, s, l), w) == Told(s, w)
  {
    hide ManKey, FromJson, Representable;
  }

  lemma NothingInNothing(o: Options, w: Window)
    requires Bytes(o.logGroup)
    ensures PieceEntries(o, w, Base, Pieces(o, [])) == []
  {
  }

  lemma EmptyListingLoses(o: Options, t: State, w: Window)
    requires Bytes(o.logGroup) && Covered(o, t.store, w) && Listed(o, t.store, w) == []
    requires Flatten(Drains(t, w)) != [] || Told(t, w) != []
    ensures !AllReadable(o, t, w)
  {
    assert ReadListed(o, t.store, []) == Some([]);
    if Flatten(Drains(t, w)) != [] {
      assert Flatten(Drains(t, w))[0] in multiset(Flatten(Drains(t, w)));
    } else {
      assert Told(t, w)[0] in Told(t, w);
      assert Reconcile.IdentitySet(t.h, []) == {};
    }
  }

  /**
   * The losing run at an input: from the empty store, a window drained with one
   * event, then overwritten by a manifest of an unknown version, ends covered
   * with the event unlisted.
   */
  lemma OneEventLost(o: Options, h: Reconcile.Hashes, w: Window, e: LogRecord) returns (ls: seq<Label>)
    requires o.Legal() && Bytes(o.logGroup) && JobWindow(o, w)
    ensures After(o, h, map[], ls).Some?
    ensures var t := After(o, h, map[], ls).value;
            && Covered(o, t.store, w) && Drains(t, w) == [[e], []]
            && ReadListed(o, t.store, Listed(o, t.store, w)) == Some([])
  {
    hide Options.Legal, ManKey, JobWindow, FromJson, Pieces, PieceEntries, WindowManifest, Representable;
    JobIsRepresentable(o, w);
    var first := DrainCanComplete(o, h, map[], [], w, [e], 0);
    assert [] + first == first;
    var s := After(o, h, map[], first).value;
    SparedMore(o, h, map[], [], first, w);
    var junk := UnknownVersion(o, w);
    var l := Stray(ManKey(o, w), junk);
    FlattenSnoc<LogRecord>([], [e]);
    assert [] + [[e]] == [[e]];
    assert Flatten(Drains(s, w)) == [e];
    var more := StrayThenLoss(o, h, map[], first, l, w);
    ls := first + [l] + more;
  }

  lemma UnknownVersion(o: Options, w: Window) returns (bytes: seq<byte>)
    requires o.Legal()
    ensures forall v :: !CoversWindow(o, bytes, v)
  {
    var m := Manifest(2, o.account, o.logGroup, w.startMs, w.endMs, [], 0, 0, None, None);
    bytes := o.man.enc(m);
    ManifestDecodes(o, m);
  }

  // ----- The gate -----

  /** Even where stray bytes strike: a covered window reads back as at least the last drain that covered it. */
  lemma CoveredIsReadable(o: Options, h: Reconcile.Hashes, s0: Store, ls: seq<Label>, w: Window)
    requires o.Legal() && After(o, h, s0, ls).Some? && forall u :: Representable(u) ==> !Covered(o, s0, u)
    requires Bytes(o.logGroup) && Representable(w) && Covered(o, After(o, h, s0, ls).value.store, w)
    ensures var s := After(o, h, s0, ls).value;
            var archived := ReadListed(o, s.store, Listed(o, s.store, w));
            && w in s.paged && archived.Some? && multiset(s.paged[w]) <= multiset(archived.value)
            && AllKnown(h, archived.value, Repaged(s, w))
  {
    hide Options.Legal, After, ReadListed, ManKey, FromJson, Representable, JobWindow;
    RunKeepsInv(o, h, s0, ls);
    assert WindowInv(o, After(o, h, s0, ls).value, w);
  }

  /** Each fetch of the gate saw the store at some point of the run. */
  ghost predicate FetchedDuring(o: Options, h: Reconcile.Hashes, s0: Store, ls: seq<Label>, gets: nat -> Store, n: nat)
    requires Bytes(o.logGroup)
  {
    forall i :: 0 <= i < n ==> exists m: nat :: SawAt(o, h, s0, ls, gets(i), m)
  }

  ghost predicate SawAt(o: Options, h: Reconcile.Hashes, s0: Store, ls: seq<Label>, s: Store, m: nat)
    requires Bytes(o.logGroup)
  {
    m <= |ls| && After(o, h, s0, ls[..m]).Some? && s == After(o, h, s0, ls[..m]).value.store
  }

  /**
   * The gate is safe. Let it fetch its manifests one at a time while drains,
   * repairs and crashes go on, and let it find every required window covered.
   * Then the window of every instant since the start of coverage that is more than
   * the retention before now was drained, exactly once, and at the end of the run everything CloudWatch
   * ever returned for that window is readable or known through its manifest,
   * provided no stray bytes landed on its manifest key while it was covered.
   */
  lemma ExpiredEventsAreArchived(
    o: Options, h: Reconcile.Hashes, s0: Store, ls: seq<Label>, gets: nat -> Store, required: seq<Window>, req: Request, ts: int)
    returns (w: Window)
    requires o.Legal() && After(o, h, s0, ls).Some? && forall u :: Representable(u) ==> !Covered(o, s0, u)
    requires Bytes(o.logGroup) && Expired(req, ts) && AllGuarded(o, gets, req, required)
    requires FetchedDuring(o, h, s0, ls, gets, |required|)
    requires forall v :: v in required ==> Spared(o, h, s0, ls, v)
    ensures w in required && w.startMs <= ts < w.endMs
    ensures var s := After(o, h, s0, ls).value;
            && Covered(o, s.store, w) && |Drains(s, w)| == 1
            && s.h == h && AllReadable(o, s, w)
  {
    hide Options.Legal, After, Covered, GridWindow, AllReadable, Keeps, Spared, Expired;
    var i: nat :| Guards(o, gets, req.windowMs, required, i, ts);
    w := required[i];
    GridNonEmpty(w, req.windowMs);
    var m: nat :| SawAt(o, h, s0, ls, gets(i), m);
    ListingOnlyGrows(o, h, s0, ls, m, w);
    KeepsCovered(o, After(o, h, s0, ls[..m]).value.store, After(o, h, s0, ls).value.store, w);
    NothingReturnedIsLost(o, h, s0, ls, w);
  }
}
