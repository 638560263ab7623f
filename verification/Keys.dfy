/** Where a window's PUTs go: no two windows, and no two PUTs of one window, share a slot. */
module Keys {
  import opened Common
  import opened Layout
  import opened Chunk
  import opened Windows
  import opened Drain

  /** A window of this job's grid with representable bounds. */
  ghost predicate JobWindow(o: Options, w: Window) {
    o.windowMs > 0 && GridWindow(w, o.windowMs) && w.endMs <= I64_MAX
  }

  lemma ObjKeyInjective(o: Options, v: Window, n1: ObjectNaming, q1: nat, w: Window, n2: ObjectNaming, q2: nat)
    requires o.Legal() && JobWindow(o, v) && JobWindow(o, w) && LegalNaming(n1) && LegalNaming(n2)
    requires ObjKey(o, v, n1, q1) == ObjKey(o, w, n2, q2)
    ensures v == w && n1 == n2 && q1 == q2
  {
    hide DataKey, ObjectName, GridWindow, Codec.Lawful, ManifestCodec.Lawful, Bytes;
    StartBounds(o, v);
    StartBounds(o, w);
    var a := ChunkLocation(o.account, o.logGroup, o.dateLabel(Day(v.startMs)), ObjectName(v.startMs, n1, q1));
    var b := ChunkLocation(o.account, o.logGroup, o.dateLabel(Day(w.startMs)), ObjectName(w.startMs, n2, q2));
    ObjectNameHasNoSlash(v.startMs, n1, q1);
    ObjectNameHasNoSlash(w.startMs, n2, q2);
    DataKeyInjective(o.prefix, a, b);
    ObjectNameInjective(v.startMs, n1, q1, w.startMs, n2, q2);
    GridWindowFromStart(v, o.windowMs);
    GridWindowFromStart(w, o.windowMs);
  }

  lemma StartBounds(o: Options, w: Window)
    requires JobWindow(o, w)
    ensures 0 <= w.startMs < w.endMs <= I64_MAX
  {
  }

  lemma ManKeyInjective(o: Options, v: Window, w: Window)
    requires o.Legal() && JobWindow(o, v) && JobWindow(o, w) && ManKey(o, v) == ManKey(o, w)
    ensures v == w
  {
    hide ManifestKey, Codec.Lawful, ManifestCodec.Lawful;
    StartBounds(o, v);
    StartBounds(o, w);
    ManifestKeyInjective(o.prefix, o.account, o.logGroup, v.startMs, v.endMs, o.account, o.logGroup, w.startMs, w.endMs);
  }

  /** The slot belongs to object n of a window's run. */
  ghost predicate ObjectSlot(o: Options, w: Window, naming: ObjectNaming, n: nat, x: Slot)
    requires Bytes(o.logGroup)
  {
    !x.ManifestSlot? && x.key == ObjKey(o, w, naming, n)
  }

  lemma {:induction false} PieceSlots(o: Options, w: Window, naming: ObjectNaming, pieces: seq<seq<LogRecord>>, i: nat) returns (n: nat)
    requires Bytes(o.logGroup) && i < |PiecePuts(o, w, naming, pieces)|
    ensures n < |pieces| && ObjectSlot(o, w, naming, n, PiecePuts(o, w, naming, pieces)[i].slot)
  {
    hide ObjKey, ChunkFor;
    var m := |pieces| - 1;
    var front := PiecePuts(o, w, naming, pieces[..m]);
    if i < |front| {
      n := PieceSlots(o, w, naming, pieces[..m], i);
      assert PiecePuts(o, w, naming, pieces)[i] == front[i];
    } else {
      n := m;
    }
  }

  // ----- Which date partition an object is stored under -----

  /** A data PUT of a run stores the chunk of one of its pieces. */
  lemma {:induction false} PieceDataAt(o: Options, w: Window, naming: ObjectNaming, pieces: seq<seq<LogRecord>>, i: nat) returns (n: nat)
    requires Bytes(o.logGroup) && i < |PiecePuts(o, w, naming, pieces)| && PiecePuts(o, w, naming, pieces)[i].slot.DataSlot?
    ensures n < |pieces| && ChunkFor(o, pieces[n]).Some?
    ensures PiecePuts(o, w, naming, pieces)[i] == Put(DataSlot(ObjKey(o, w, naming, n)), ChunkFor(o, pieces[n]).value.body)
  {
    hide ObjKey, ChunkFor;
    var m := |pieces| - 1;
    var front := PiecePuts(o, w, naming, pieces[..m]);
    if i < |front| {
      assert PiecePuts(o, w, naming, pieces)[i] == front[i];
      n := PieceDataAt(o, w, naming, pieces[..m], i);
    } else {
      n := m;
    }
  }

  /** The key parses to this account and group, under the date of day d. */
  ghost predicate UnderDay(o: Options, key: string, d: int) {
    match ParseDataKey(o.prefix, key, o.utf8)
    case Some(loc) => loc.account == o.account && loc.logGroup == o.logGroup && loc.date == o.dateLabel(d)
    case None => false
  }

  lemma ObjKeyParses(o: Options, w: Window, naming: ObjectNaming, n: nat)
    requires o.Legal()
    ensures ParseDataKey(o.prefix, ObjKey(o, w, naming, n), o.utf8) ==
            Some(ChunkLocation(o.account, o.logGroup, o.dateLabel(Day(w.startMs)), ObjectName(w.startMs, naming, n)))
  {
    hide DataKey, ParseDataKey, ObjectName, Codec.Lawful, ManifestCodec.Lawful;
    var loc := ChunkLocation(o.account, o.logGroup, o.dateLabel(Day(w.startMs)), ObjectName(w.startMs, naming, n));
    ObjectNameHasNoSlash(w.startMs, naming, n);
    DataKeyRoundTrip(o.prefix, loc, o.utf8);
  }

  /**
   * Every data object that a drain or a repair of a window stores is the chunk of
   * one of its pieces, under this account and group and the UTC date of every
   * record in the piece.
   */
  lemma StoredUnderItsDate(o: Options, w: Window, naming: ObjectNaming, rs: seq<LogRecord>, i: nat) returns (n: nat, d: int)
    requires o.Legal() && JobWindow(o, w) && forall r :: r in rs ==> w.startMs <= r.timestamp < w.endMs
    requires i < |PiecePuts(o, w, naming, Pieces(o, rs))| && PiecePuts(o, w, naming, Pieces(o, rs))[i].slot.DataSlot?
    ensures var p := PiecePuts(o, w, naming, Pieces(o, rs))[i];
            && n < |Pieces(o, rs)| && ChunkFor(o, Pieces(o, rs)[n]).Some? && p.value == ChunkFor(o, Pieces(o, rs)[n]).value.body
            && UnderDay(o, p.slot.key, d)
            && forall r :: r in Pieces(o, rs)[n] ==> d * 86_400_000 <= r.timestamp < (d + 1) * 86_400_000
  {
    BytesOf(o);
    n := PieceDataAt(o, w, naming, Pieces(o, rs), i);
    d := Day(w.startMs);
    ObjKeyParses(o, w, naming, n);
    hide Options.Legal, Pieces, PiecePuts, ObjKey, ChunkFor, ParseDataKey, ObjectName, GridWindow;
    PiecesPartition(o, rs);
    forall r | r in Pieces(o, rs)[n] ensures d * 86_400_000 <= r.timestamp < (d + 1) * 86_400_000 {
      FlattenMember(Pieces(o, rs), r);
      assert r in rs;
      WindowWithinDay(w, o.windowMs, r.timestamp);
    }
  }

  /** A manifest lies under a key that names its window and, if no earlier segment of it is tagged, its group. */
  lemma ManKeyParses(o: Options, w: Window)
    requires o.Legal() && JobWindow(o, w)
    ensures ParseManifestKeyWindow(ManKey(o, w)) == Some((w.startMs, w.endMs))
    ensures EarlierTag(o.prefix, o.account).None? ==> ParseManifestKeyLogGroup(ManKey(o, w), o.utf8) == Some(o.logGroup)
  {
    hide ManifestKey, ParseManifestKeyWindow, ParseManifestKeyLogGroup, EarlierTag, Codec.Lawful, ManifestCodec.Lawful;
    StartBounds(o, w);
    ManifestKeyWindowRoundTrip(o.prefix, o.account, o.logGroup, w.startMs, w.endMs);
    ManifestKeyGroupRoundTrip(o.prefix, o.account, o.logGroup, w.startMs, w.endMs, o.utf8);
  }

  ghost predicate DistinctSlots(ps: seq<Put>) {
    forall i, j :: 0 <= i < j < |ps| ==> ps[i].slot != ps[j].slot
  }

  lemma {:induction false} PieceSlotsDistinct(o: Options, w: Window, naming: ObjectNaming, pieces: seq<seq<LogRecord>>)
    requires o.Legal() && JobWindow(o, w) && LegalNaming(naming)
    ensures DistinctSlots(PiecePuts(o, w, naming, pieces))
  {
    BytesOf(o);
    hide Options.Legal, JobWindow, ObjKey, ChunkFor;
    if pieces != [] {
      var m := |pieces| - 1;
      PieceSlotsDistinct(o, w, naming, pieces[..m]);
      var front := PiecePuts(o, w, naming, pieces[..m]);
      var last := LastPuts(o, w, naming, pieces);
      hide PiecePuts;
      forall i, j | 0 <= i < |front| && 0 <= j < |last| ensures front[i].slot != last[j].slot {
        var n := PieceSlots(o, w, naming, pieces[..m], i);
        if front[i].slot == last[j].slot {
          ObjKeyInjective(o, w, naming, n, w, naming, m);
        }
      }
      DistinctJoin(front, last);
    }
  }

  /** The PUTs of the last piece come last and are its own. */
  lemma LastPuts(o: Options, w: Window, naming: ObjectNaming, pieces: seq<seq<LogRecord>>) returns (last: seq<Put>)
    requires Bytes(o.logGroup) && pieces != []
    ensures PiecePuts(o, w, naming, pieces) == PiecePuts(o, w, naming, pieces[..|pieces| - 1]) + last
    ensures DistinctSlots(last) && forall j :: 0 <= j < |last| ==> ObjectSlot(o, w, naming, |pieces| - 1, last[j].slot)
  {
    hide ObjKey, ChunkFor, ObjectPuts, DistinctSlots, ObjectSlot;
    var m := |pieces| - 1;
    match ChunkFor(o, pieces[m]) {
      case None =>
        last := [];
        NoSlots();
      case Some(ch) =>
        last := ObjectPuts(o, ObjKey(o, w, naming, m), ch);
        ObjectSlots(o, w, naming, m, ch);
    }
  }

  lemma NoSlots()
    ensures DistinctSlots([])
  {
  }

  lemma ObjectSlots(o: Options, w: Window, naming: ObjectNaming, m: nat, ch: EncodedChunk)
    requires Bytes(o.logGroup)
    ensures var ps := ObjectPuts(o, ObjKey(o, w, naming, m), ch);
            DistinctSlots(ps) && forall j :: 0 <= j < |ps| ==> ObjectSlot(o, w, naming, m, ps[j].slot)
  {
    hide ObjKey;
  }

  lemma DistinctJoin(a: seq<Put>, b: seq<Put>)
    requires DistinctSlots(a) && DistinctSlots(b) && forall i, j :: 0 <= i < |a| && 0 <= j < |b| ==> a[i].slot != b[j].slot
    ensures DistinctSlots(a + b)
  {
    var s := a + b;
    forall i, j | 0 <= i < j < |s| ensures s[i].slot != s[j].slot {
      assert i < |a| ==> s[i] == a[i];
      assert i >= |a| ==> s[i] == b[i - |a|];
      assert j < |a| ==> s[j] == a[j];
      assert j >= |a| ==> s[j] == b[j - |a|];
    }
  }

  lemma BytesOf(o: Options)
    requires o.Legal()
    ensures Bytes(o.logGroup) && o.windowMs > 0
  {
  }

  /** Slots of different windows are different. */
  lemma WindowsDisjoint(o: Options, v: Window, nv: ObjectNaming, a: seq<seq<LogRecord>>, i: nat, w: Window, nw: ObjectNaming, b: seq<seq<LogRecord>>, j: nat)
    requires o.Legal() && JobWindow(o, v) && JobWindow(o, w) && v != w && LegalNaming(nv) && LegalNaming(nw)
    requires i < |PiecePuts(o, v, nv, a)| && j < |PiecePuts(o, w, nw, b)|
    ensures PiecePuts(o, v, nv, a)[i].slot != PiecePuts(o, w, nw, b)[j].slot
  {
    hide Options.Legal, JobWindow, ObjKey, PiecePuts;
    BytesOf(o);
    var m := PieceSlots(o, v, nv, a, i);
    var n := PieceSlots(o, w, nw, b, j);
    if PiecePuts(o, v, nv, a)[i].slot == PiecePuts(o, w, nw, b)[j].slot {
      ObjKeyInjective(o, v, nv, m, w, nw, n);
    }
  }

  // ----- Applying PUTs -----

  /** A slot no PUT names keeps its contents. */
  lemma {:induction false} ApplyElsewhere(s: Store, ps: seq<Put>, x: Slot)
    requires forall i :: 0 <= i < |ps| ==> ps[i].slot != x
    ensures x in ApplyPuts(s, ps) <==> x in s
    ensures x in s ==> ApplyPuts(s, ps)[x] == s[x]
  {
    if ps != [] {
      ApplyElsewhere(s, ps[..|ps| - 1], x);
    }
  }

  lemma {:induction false} ApplyAt(s: Store, ps: seq<Put>, i: nat)
    requires DistinctSlots(ps) && i < |ps|
    ensures ps[i].slot in ApplyPuts(s, ps) && ApplyPuts(s, ps)[ps[i].slot] == ps[i].value
  {
    if i < |ps| - 1 {
      ApplyAt(s, ps[..|ps| - 1], i);
    }
  }

  /** A complete manifest of this group and window covers the window. */
  lemma ManifestCovers(o: Options, w: Window, m: Manifest)
    requires o.Legal() && m.version == MANIFEST_VERSION && m.account == o.account && m.logGroup == o.logGroup
    requires m.startMs == w.startMs && m.endMs == w.endMs
    ensures CoversWindow(o, o.man.enc(m), w) && FromJson(o, o.man.enc(m)) == Some(m)
  {
    assert o.man.dec(o.man.enc(m)) == Some(m);
  }
}
