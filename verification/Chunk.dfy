/**
 * The chunk format: records in, concatenated compressed frames plus a byte
 * index (S4IX) and a timestamp index (S4LT) out, and the way back.
 *
 * JSON and zstd are parameters (Codec); what is assumed of them is Lawful.
 */
module Chunk {
  import opened Common

  datatype Codec = Codec(
    enc: LogRecord -> seq<byte>,
    dec: seq<byte> -> Option<LogRecord>,
    zip: seq<byte> -> seq<byte>,
    unzip: seq<byte> -> Option<seq<byte>>)
  {
    /**
     * JSON: a record decodes from its own line, and a line holds no raw control
     * character (section 7 of RFC 8259). zstd: concatenated frames decompress
     * to the concatenation of their contents (section 3.1 of RFC 8878).
     */
    ghost predicate Lawful() {
      && (forall r :: dec(enc(r)) == Some(r) && enc(r) != [] && NEWLINE !in enc(r) && CARRIAGE_RETURN !in enc(r))
      && (forall plains :: unzip(Zipped(plains)) == Some(Flatten(plains)))
    }

    function Zipped(plains: seq<seq<byte>>): seq<byte> {
      if plains == [] then [] else zip(plains[0]) + Zipped(plains[1..])
    }

    /** One terminated JSONL line. */
    function Line(r: LogRecord): seq<byte> {
      enc(r) + [NEWLINE]
    }

    /** The JSONL text of a sequence of records. */
    function Lines(rs: seq<LogRecord>): seq<byte> {
      if rs == [] then [] else Line(rs[0]) + Lines(rs[1..])
    }

    function Plains(frames: seq<seq<LogRecord>>): seq<seq<byte>> {
      if frames == [] then [] else [Lines(frames[0])] + Plains(frames[1..])
    }

    /** What a reader makes of a text: one decode attempt per non-empty line. */
    function ParseLines(b: seq<byte>): seq<Option<LogRecord>> {
      DecodeAll(NonEmptyLines(b))
    }

    function DecodeAll(ls: seq<seq<byte>>): seq<Option<LogRecord>> {
      if ls == [] then [] else [dec(ls[0])] + DecodeAll(ls[1..])
    }

    lemma DecodeCons(l: seq<byte>, ls: seq<seq<byte>>)
      ensures DecodeAll([l] + ls) == [dec(l)] + DecodeAll(ls)
    {
      assert ([l] + ls)[0] == l && ([l] + ls)[1..] == ls;
    }

    lemma ParseNothing()
      ensures ParseLines([]) == []
    {
    }

    /** The first line of a text contributes its decode, or nothing when empty. */
    lemma ParseFirstLine(b: seq<byte>)
      requires b != []
      ensures var i := FirstNewline(b);
              var rest := if i < |b| then b[i + 1..] else [];
              ParseLines(b) == (if b[..i] == [] then [] else [dec(b[..i])]) + ParseLines(rest)
    {
      var i := FirstNewline(b);
      var rest := if i < |b| then b[i + 1..] else [];
      if i > 0 {
        assert NonEmptyLines(b) == [b[..i]] + NonEmptyLines(rest);
        DecodeCons(b[..i], NonEmptyLines(rest));
      }
    }

    lemma {:induction false} LinesAppend(a: seq<LogRecord>, b: seq<LogRecord>)
      ensures Lines(a + b) == Lines(a) + Lines(b)
    {
      if a == [] {
        assert a + b == b;
      } else {
        LinesAppend(a[1..], b);
        assert (a + b)[0] == a[0] && (a + b)[1..] == a[1..] + b;
        Assoc(Line(a[0]), Lines(a[1..]), Lines(b));
      }
    }

    lemma {:induction false} ZippedAppend(a: seq<seq<byte>>, b: seq<seq<byte>>)
      ensures Zipped(a + b) == Zipped(a) + Zipped(b)
    {
      if a == [] {
        assert a + b == b;
      } else {
        ZippedAppend(a[1..], b);
        assert (a + b)[0] == a[0] && (a + b)[1..] == a[1..] + b;
        Assoc(zip(a[0]), Zipped(a[1..]), Zipped(b));
      }
    }

    lemma {:induction false} PlainsAppend(a: seq<seq<LogRecord>>, b: seq<seq<LogRecord>>)
      ensures Plains(a + b) == Plains(a) + Plains(b)
    {
      if a == [] {
        assert a + b == b;
      } else {
        PlainsAppend(a[1..], b);
        assert (a + b)[0] == a[0] && (a + b)[1..] == a[1..] + b;
        Assoc([Lines(a[0])], Plains(a[1..]), Plains(b));
      }
    }

    lemma {:induction false} PlainsFlatten(frames: seq<seq<LogRecord>>)
      ensures Flatten(Plains(frames)) == Lines(Flatten(frames))
    {
      if frames != [] {
        PlainsFlatten(frames[1..]);
        LinesAppend(frames[0], Flatten(frames[1..]));
        assert Plains(frames)[1..] == Plains(frames[1..]);
      }
    }

    lemma {:induction false} LinesNonEmpty(rs: seq<LogRecord>)
      ensures Lines(rs) == [] <==> rs == []
    {
    }

    /** Reading a JSONL text back gives exactly the records written. */
    lemma {:induction false} ParseLinesInverts(rs: seq<LogRecord>)
      requires Lawful()
      ensures ParseLines(Lines(rs)) == Intact(rs)
    {
      if rs != [] {
        ParseLinesInverts(rs[1..]);
        LineThenRest(enc(rs[0]), Lines(rs[1..]));
        DecodeCons(enc(rs[0]), NonEmptyLines(Lines(rs[1..])));
      }
    }
  }

  /** The parse result of a text in which every line decodes. */
  function Intact(rs: seq<LogRecord>): seq<Option<LogRecord>> {
    if rs == [] then [] else [Some(rs[0])] + Intact(rs[1..])
  }

  /** The records among parse results. */
  function Decoded(os: seq<Option<LogRecord>>): seq<LogRecord> {
    if os == [] then []
    else (match os[0] case Some(r) => [r] case None => []) + Decoded(os[1..])
  }

  lemma {:induction false} DecodedIntact(rs: seq<LogRecord>)
    ensures Decoded(Intact(rs)) == rs
  {
    if rs != [] {
      DecodedIntact(rs[1..]);
      var os := Intact(rs);
      assert os[0] == Some(rs[0]) && os[1..] == Intact(rs[1..]);
      assert rs == [rs[0]] + rs[1..];
    }
  }

  /** S4IX entry: where one frame lies in the plaintext and in the body. */
  datatype FrameEntry = FrameEntry(originalOffset: nat, originalSize: nat, compressedOffset: nat, compressedSize: nat)

  /** S4LT entry: inclusive timestamp range of one frame. */
  datatype TsEntry = TsEntry(minTs: I64, maxTs: I64)

  datatype EncodedChunk = EncodedChunk(
    body: seq<byte>,
    entries: seq<FrameEntry>,
    tsEntries: seq<TsEntry>,
    recordCount: nat,
    uncompressedBytes: nat,
    minTimestamp: I64,
    maxTimestamp: I64)

  function MinTs(rs: seq<LogRecord>): I64 {
    if rs == [] then I64_MAX else Min(MinTs(rs[..|rs| - 1]), rs[|rs| - 1].timestamp)
  }

  function MaxTs(rs: seq<LogRecord>): I64 {
    if rs == [] then I64_MIN else Max(MaxTs(rs[..|rs| - 1]), rs[|rs| - 1].timestamp)
  }

  /** MinTs and MaxTs are attained and bound every record. */
  lemma {:induction false} TightBounds(rs: seq<LogRecord>)
    ensures forall r :: r in rs ==> MinTs(rs) <= r.timestamp <= MaxTs(rs)
    ensures rs != [] ==> exists r :: r in rs && r.timestamp == MinTs(rs)
    ensures rs != [] ==> exists r :: r in rs && r.timestamp == MaxTs(rs)
  {
    if rs != [] {
      var init, last := rs[..|rs| - 1], rs[|rs| - 1];
      TightBounds(init);
      assert rs == init + [last];
      assert last in rs;
      if init != [] {
        var lo :| lo in init && lo.timestamp == MinTs(init);
        var hi :| hi in init && hi.timestamp == MaxTs(init);
        assert lo in rs && hi in rs;
      }
    }
  }

  lemma {:induction false} MinMaxAppend(a: seq<LogRecord>, b: seq<LogRecord>)
    ensures MinTs(a + b) == Min(MinTs(a), MinTs(b))
    ensures MaxTs(a + b) == Max(MaxTs(a), MaxTs(b))
    decreases |b|
  {
    if b == [] {
      assert a + b == a;
    } else {
      MinMaxAppend(a, b[..|b| - 1]);
      assert (a + b)[..|a + b| - 1] == a + b[..|b| - 1];
    }
  }

  /** The fields of a chunk writer between calls. */
  datatype Writer = Writer(
    frameTarget: nat,
    pending: seq<byte>,
    pendingMin: I64,
    pendingMax: I64,
    pendingRecords: nat,
    body: seq<byte>,
    entries: seq<FrameEntry>,
    tsEntries: seq<TsEntry>,
    originalOff: nat,
    recordCount: nat,
    minTs: I64,
    maxTs: I64)
  {
    function UncompressedLen(): nat {
      originalOff + |pending|
    }

    function RecordCount(): nat {
      recordCount + pendingRecords
    }
  }

  function NewWriter(frameTarget: nat): Writer {
    Writer(frameTarget, [], I64_MAX, I64_MIN, 0, [], [], [], 0, 0, I64_MAX, I64_MIN)
  }

  /** Close the pending frame: compress it and index it. */
  function CutFrame(c: Codec, w: Writer): Writer {
    if w.pending == [] then w
    else
      var z := c.zip(w.pending);
      Writer(w.frameTarget, [], I64_MAX, I64_MIN, 0,
             w.body + z,
             w.entries + [FrameEntry(w.originalOff, |w.pending|, |w.body|, |z|)],
             w.tsEntries + [TsEntry(w.pendingMin, w.pendingMax)],
             w.originalOff + |w.pending|,
             w.recordCount + w.pendingRecords,
             Min(w.minTs, w.pendingMin),
             Max(w.maxTs, w.pendingMax))
  }

  /** Append one record to the pending frame. */
  function Append(c: Codec, w: Writer, r: LogRecord): Writer {
    w.(pending := w.pending + c.Line(r),
       pendingMin := Min(w.pendingMin, r.timestamp),
       pendingMax := Max(w.pendingMax, r.timestamp),
       pendingRecords := w.pendingRecords + 1)
  }

  function Push(c: Codec, w: Writer, r: LogRecord): Writer {
    var v := Append(c, w, r);
    if |v.pending| >= v.frameTarget then CutFrame(c, v) else v
  }

  function Encode(c: Codec, w: Writer): Option<EncodedChunk> {
    var v := CutFrame(c, w);
    if v.entries == [] then None
    else Some(EncodedChunk(v.body, v.entries, v.tsEntries, v.recordCount, v.originalOff, v.minTs, v.maxTs))
  }

  function PushAll(c: Codec, w: Writer, rs: seq<LogRecord>): Writer {
    if rs == [] then w else Push(c, PushAll(c, w, rs[..|rs| - 1]), rs[|rs| - 1])
  }

  // ----- What a writer holds: closed frames of records and a pending tail -----

  datatype Framing = Framing(frames: seq<seq<LogRecord>>, tail: seq<LogRecord>)
  {
    function Records(): seq<LogRecord> {
      Flatten(frames) + tail
    }

    function Closed(): seq<seq<LogRecord>> {
      if tail == [] then frames else frames + [tail]
    }
  }

  function FrameEntries(c: Codec, frames: seq<seq<LogRecord>>): (es: seq<FrameEntry>)
    ensures |es| == |frames|
  {
    if frames == [] then []
    else
      var init, last := frames[..|frames| - 1], frames[|frames| - 1];
      FrameEntries(c, init) +
      [FrameEntry(|Flatten(c.Plains(init))|, |c.Lines(last)|, |c.Zipped(c.Plains(init))|, |c.zip(c.Lines(last))|)]
  }

  function TsEntries(frames: seq<seq<LogRecord>>): seq<TsEntry> {
    seq(|frames|, i requires 0 <= i < |frames| => TsEntry(MinTs(frames[i]), MaxTs(frames[i])))
  }

  /** The writer holds exactly this framing. */
  ghost predicate Holds(c: Codec, w: Writer, f: Framing) {
    && [] !in f.frames
    && w.pending == c.Lines(f.tail)
    && w.pendingMin == MinTs(f.tail) && w.pendingMax == MaxTs(f.tail)
    && w.pendingRecords == |f.tail|
    && w.body == c.Zipped(c.Plains(f.frames))
    && w.entries == FrameEntries(c, f.frames)
    && w.tsEntries == TsEntries(f.frames)
    && w.originalOff == |Flatten(c.Plains(f.frames))|
    && w.recordCount == |Flatten(f.frames)|
    && w.minTs == MinTs(Flatten(f.frames)) && w.maxTs == MaxTs(Flatten(f.frames))
  }

  lemma CutFrameHolds(c: Codec, w: Writer, f: Framing)
    requires Holds(c, w, f)
    ensures Holds(c, CutFrame(c, w), Framing(f.Closed(), []))
    ensures Framing(f.Closed(), []).Records() == f.Records()
  {
    c.LinesNonEmpty(f.tail);
    if f.tail != [] {
      var fs := f.frames + [f.tail];
      assert fs[..|fs| - 1] == f.frames;
      c.PlainsAppend(f.frames, [f.tail]);
      assert c.Plains([f.tail]) == [c.Lines(f.tail)];
      c.ZippedAppend(c.Plains(f.frames), [c.Lines(f.tail)]);
      assert c.Zipped([c.Lines(f.tail)]) == c.zip(c.Lines(f.tail)) + c.Zipped([]);
      FlattenSnoc(c.Plains(f.frames), c.Lines(f.tail));
      FlattenSnoc(f.frames, f.tail);
      MinMaxAppend(Flatten(f.frames), f.tail);
      assert TsEntries(fs) == TsEntries(f.frames) + [TsEntry(MinTs(f.tail), MaxTs(f.tail))];
    }
  }

  function PushFraming(c: Codec, target: nat, f: Framing, r: LogRecord): Framing {
    var t := f.tail + [r];
    if |c.Lines(t)| >= target then Framing(f.frames + [t], []) else Framing(f.frames, t)
  }

  lemma PushHolds(c: Codec, w: Writer, f: Framing, r: LogRecord)
    requires Holds(c, w, f)
    ensures Holds(c, Push(c, w, r), PushFraming(c, w.frameTarget, f, r))
    ensures PushFraming(c, w.frameTarget, f, r).Records() == f.Records() + [r]
    ensures Push(c, w, r).frameTarget == w.frameTarget
  {
    var v := Append(c, w, r);
    var g := Framing(f.frames, f.tail + [r]);
    c.LinesAppend(f.tail, [r]);
    assert c.Lines([r]) == c.Line(r) + c.Lines([]);
    assert v.pending == c.Lines(g.tail);
    assert g.tail[..|g.tail| - 1] == f.tail;
    assert Holds(c, v, g);
    CutFrameHolds(c, v, g);
    assert g.Records() == f.Records() + [r];
  }

  /** How a push sequence is cut into frames. */
  function FramingOf(c: Codec, target: nat, rs: seq<LogRecord>): Framing {
    if rs == [] then Framing([], [])
    else PushFraming(c, target, FramingOf(c, target, rs[..|rs| - 1]), rs[|rs| - 1])
  }

  lemma {:induction false} PushAllHolds(c: Codec, target: nat, rs: seq<LogRecord>)
    ensures var w := PushAll(c, NewWriter(target), rs);
            Holds(c, w, FramingOf(c, target, rs)) && w.frameTarget == target
    ensures FramingOf(c, target, rs).Records() == rs
  {
    if rs != [] {
      var init := rs[..|rs| - 1];
      PushAllHolds(c, target, init);
      hide Holds, Push, PushFraming, Framing.Records;
      PushHolds(c, PushAll(c, NewWriter(target), init), FramingOf(c, target, init), rs[|rs| - 1]);
      assert rs == init + [rs[|rs| - 1]];
    }
  }

  /** The frames of the object a push sequence encodes to. */
  function FramesOf(c: Codec, target: nat, rs: seq<LogRecord>): seq<seq<LogRecord>> {
    FramingOf(c, target, rs).Closed()
  }

  /** The object is present exactly when something was pushed, and has the indexes of its frames. */
  lemma EncodeShape(c: Codec, target: nat, rs: seq<LogRecord>)
    ensures var w := PushAll(c, NewWriter(target), rs);
            var frames := FramesOf(c, target, rs);
            && [] !in frames
            && Flatten(frames) == rs
            && (Encode(c, w) == None <==> rs == [])
            && (rs != [] ==> Encode(c, w) == Some(EncodedChunk(
                    c.Zipped(c.Plains(frames)), FrameEntries(c, frames), TsEntries(frames),
                    |rs|, |c.Lines(rs)|, MinTs(rs), MaxTs(rs))))
            && w.UncompressedLen() == |c.Lines(rs)|
            && w.RecordCount() == |rs|
  {
    PushAllHolds(c, target, rs);
    var w, f := PushAll(c, NewWriter(target), rs), FramingOf(c, target, rs);
    CutFrameHolds(c, w, f);
    c.PlainsFlatten(f.Closed());
    c.PlainsFlatten(f.frames);
    c.LinesAppend(Flatten(f.frames), f.tail);
    assert Flatten(f.Closed()) + [] == Flatten(f.Closed());
  }

  /** A piece that had not reached the target before its last record. */
  ghost predicate NotBefore(c: Codec, target: nat, piece: seq<LogRecord>) {
    |piece| >= 2 ==> |c.Lines(piece[..|piece| - 1])| < target
  }

  /** Closed pieces have reached the target, none before its last record; the open one has not. */
  ghost predicate Tight(c: Codec, target: nat, closed: seq<seq<LogRecord>>, open: seq<LogRecord>) {
    && (forall i :: 0 <= i < |closed| ==> |c.Lines(closed[i])| >= target && NotBefore(c, target, closed[i]))
    && (open != [] ==> |c.Lines(open)| < target) && NotBefore(c, target, open)
  }

  lemma TightStep(c: Codec, target: nat, closed: seq<seq<LogRecord>>, open: seq<LogRecord>, r: LogRecord)
    requires Tight(c, target, closed, open)
    ensures |c.Lines(open + [r])| >= target ==> Tight(c, target, closed + [open + [r]], [])
    ensures |c.Lines(open + [r])| < target ==> Tight(c, target, closed, open + [r])
  {
    var t := open + [r];
    assert t[..|t| - 1] == open;
    assert NotBefore(c, target, t);
    hide Codec.Lines, NotBefore;
    assert NotBefore(c, target, []) by { EmptyIsNotBefore(c, target); }
  }

  lemma EmptyIsNotBefore(c: Codec, target: nat)
    ensures NotBefore(c, target, [])
  {
  }

  /**
   * Where frames end: every frame but the last has reached the target, and none
   * had before its last record.
   */
  lemma FramesAreTight(c: Codec, target: nat, rs: seq<LogRecord>)
    ensures var frames := FramesOf(c, target, rs);
            && (forall i :: 0 <= i < |frames| - 1 ==> |c.Lines(frames[i])| >= target)
            && (forall i :: 0 <= i < |frames| && |frames[i]| >= 2 ==> |c.Lines(frames[i][..|frames[i]| - 1])| < target)
  {
    hide Codec.Lines, FramingOf;
    FramingIsTight(c, target, rs);
    var f := FramingOf(c, target, rs);
    assert forall i :: 0 <= i < |f.Closed()| ==> NotBefore(c, target, f.Closed()[i]);
  }

  lemma {:induction false} FramingIsTight(c: Codec, target: nat, rs: seq<LogRecord>)
    ensures Tight(c, target, FramingOf(c, target, rs).frames, FramingOf(c, target, rs).tail)
  {
    if rs != [] {
      hide Codec.Lines, Tight;
      FramingIsTight(c, target, rs[..|rs| - 1]);
      var f := FramingOf(c, target, rs[..|rs| - 1]);
      TightStep(c, target, f.frames, f.tail, rs[|rs| - 1]);
    }
  }

  // ----- Reading back -----

  const BOMB_SLACK_BYTES: nat := 1024
  const MAX_DECOMPRESSED_BYTES: nat := 0x10_0000_0000

  datatype ReadError = IndexMismatch(frames: nat, tsFrames: nat) | Bomb(cap: nat) | SizeMismatch(expected: nat, got: nat) | Io

  /** Decompress, refusing output beyond the claimed size plus slack. */
  function DecompressFrames(c: Codec, input: seq<byte>, expected: nat): Result<seq<byte>, ReadError> {
    if expected > MAX_DECOMPRESSED_BYTES then Err(Bomb(MAX_DECOMPRESSED_BYTES))
    else
      var cap := expected + BOMB_SLACK_BYTES;
      match c.unzip(input)
      case None => Err(Io)
      case Some(plain) =>
        var out := if |plain| > cap then plain[..cap] else plain;
        if |out| >= cap then Err(Bomb(cap))
        else if |out| != expected then Err(SizeMismatch(expected, |out|))
        else Ok(out)
  }

  /** Decoding succeeds exactly when the input decompresses to the claimed size, within the ceiling of 64 GiB. */
  lemma DecompressExact(c: Codec, input: seq<byte>, expected: nat)
    ensures DecompressFrames(c, input, expected).Ok? <==> c.unzip(input).Some? && |c.unzip(input).value| == expected <= 68_719_476_736
    ensures DecompressFrames(c, input, expected).Ok? ==> Some(DecompressFrames(c, input, expected).value) == c.unzip(input)
  {
  }

  ghost predicate AllParse(c: Codec, b: seq<byte>, rs: seq<LogRecord>) {
    c.ParseLines(b) == Intact(rs)
  }

  function CompressedEnd(e: FrameEntry): nat {
    e.compressedOffset + e.compressedSize
  }

  lemma {:induction false} EntryAt(c: Codec, frames: seq<seq<LogRecord>>, i: nat)
    requires i < |frames|
    ensures var e := FrameEntries(c, frames)[i];
            && e == FrameEntry(|Flatten(c.Plains(frames[..i]))|, |c.Lines(frames[i])|,
                               |c.Zipped(c.Plains(frames[..i]))|, |c.zip(c.Lines(frames[i]))|)
  {
    var init := frames[..|frames| - 1];
    if i < |frames| - 1 {
      EntryAt(c, init, i);
      assert init[..i] == frames[..i];
    } else {
      assert init == frames[..i];
    }
  }

  lemma SplitAtFrame(c: Codec, frames: seq<seq<LogRecord>>, i: nat)
    requires i < |frames|
    ensures c.Zipped(c.Plains(frames)) ==
            c.Zipped(c.Plains(frames[..i])) + c.zip(c.Lines(frames[i])) + c.Zipped(c.Plains(frames[i + 1..]))
    ensures Flatten(c.Plains(frames)) ==
            Flatten(c.Plains(frames[..i])) + c.Lines(frames[i]) + Flatten(c.Plains(frames[i + 1..]))
  {
    var a, m, z := frames[..i], [frames[i]], frames[i + 1..];
    var rest := m + z;
    assert frames == a + rest;
    c.PlainsAppend(a, rest);
    c.ZippedAppend(c.Plains(a), c.Plains(rest));
    FlattenAppend(c.Plains(a), c.Plains(rest));
    assert rest[1..] == z && rest[0] == frames[i];
    assert c.Plains(rest)[0] == c.Lines(frames[i]) && c.Plains(rest)[1..] == c.Plains(z);
    Assoc(c.Zipped(c.Plains(a)), c.zip(c.Lines(frames[i])), c.Zipped(c.Plains(z)));
    Assoc(Flatten(c.Plains(a)), c.Lines(frames[i]), Flatten(c.Plains(z)));
  }

  /** Frame i starts where the previous one ends, in the plaintext and in the body. */
  predicate Follows(es: seq<FrameEntry>, i: nat)
    requires i < |es|
  {
    if i == 0 then es[0].originalOffset == 0 && es[0].compressedOffset == 0
    else es[i].originalOffset == es[i - 1].originalOffset + es[i - 1].originalSize
         && es[i].compressedOffset == CompressedEnd(es[i - 1])
  }

  /** Index entries tile: no gap or overlap between frames, and the last one ends both texts. */
  ghost predicate Tiles(es: seq<FrameEntry>, originalLen: nat, compressedLen: nat) {
    && (forall i :: 0 <= i < |es| ==> Follows(es, i))
    && (if es == [] then originalLen == 0 && compressedLen == 0
        else es[|es| - 1].originalOffset + es[|es| - 1].originalSize == originalLen
             && CompressedEnd(es[|es| - 1]) == compressedLen)
  }

  /** Entry i ends where the texts of the first i + 1 frames end. */
  lemma EntryEnd(c: Codec, frames: seq<seq<LogRecord>>, i: nat)
    requires i < |frames|
    ensures var e := FrameEntries(c, frames)[i];
            && e.originalOffset + e.originalSize == |Flatten(c.Plains(frames[..i + 1]))|
            && CompressedEnd(e) == |c.Zipped(c.Plains(frames[..i + 1]))|
  {
    EntryAt(c, frames, i);
    var upTo := frames[..i + 1];
    SplitAtFrame(c, upTo, i);
    assert upTo[..i] == frames[..i] && upTo[i + 1..] == [];
  }

  lemma EntryFollows(c: Codec, frames: seq<seq<LogRecord>>, i: nat)
    requires i < |frames|
    ensures Follows(FrameEntries(c, frames), i)
  {
    EntryAt(c, frames, i);
    if i == 0 {
      assert frames[..0] == [];
    } else {
      EntryEnd(c, frames, i - 1);
    }
  }

  lemma EntriesTile(c: Codec, frames: seq<seq<LogRecord>>)
    ensures Tiles(FrameEntries(c, frames), |Flatten(c.Plains(frames))|, |c.Zipped(c.Plains(frames))|)
  {
    forall i | 0 <= i < |frames| ensures Follows(FrameEntries(c, frames), i) {
      EntryFollows(c, frames, i);
    }
    if frames != [] {
      EntryEnd(c, frames, |frames| - 1);
      assert frames[..|frames|] == frames;
    }
  }

  /** Frame i of a body: its byte range decompresses, alone, to the text of its records. */
  lemma FrameReadsBack(c: Codec, frames: seq<seq<LogRecord>>, i: nat)
    requires c.Lawful() && i < |frames|
    ensures var body, e := c.Zipped(c.Plains(frames)), FrameEntries(c, frames)[i];
            && CompressedEnd(e) <= |body|
            && e.originalSize == |c.Lines(frames[i])|
            && c.unzip(body[e.compressedOffset..CompressedEnd(e)]) == Some(c.Lines(frames[i]))
    ensures AllParse(c, c.Lines(frames[i]), frames[i])
  {
    var body, e := c.Zipped(c.Plains(frames)), FrameEntries(c, frames)[i];
    EntryAt(c, frames, i);
    SplitAtFrame(c, frames, i);
    assert body[e.compressedOffset..CompressedEnd(e)] == c.zip(c.Lines(frames[i]));
    var one := [c.Lines(frames[i])];
    assert c.Zipped(one) == c.zip(one[0]) + c.Zipped(one[1..]) == c.zip(one[0]);
    assert Flatten(one) == one[0] + Flatten(one[1..]) == one[0];
    c.ParseLinesInverts(frames[i]);
  }

  /** Frame i of an encoded chunk reads back, alone, as these records, within tight time bounds. */
  ghost predicate FrameIntact(c: Codec, ch: EncodedChunk, i: nat, rs: seq<LogRecord>) {
    && i < |ch.entries| && i < |ch.tsEntries|
    && CompressedEnd(ch.entries[i]) <= |ch.body|
    && ch.entries[i].originalSize == |c.Lines(rs)|
    && c.unzip(ch.body[ch.entries[i].compressedOffset..CompressedEnd(ch.entries[i])]) == Some(c.Lines(rs))
    && AllParse(c, c.Lines(rs), rs)
    && ch.tsEntries[i] == TsEntry(MinTs(rs), MaxTs(rs))
  }

  /**
   * The chunk round trip. For every push sequence and frame target: the frames
   * tile body and plaintext; the two indexes are 1:1 with tight timestamp
   * bounds; every frame alone, and the body as one stream, read back as the
   * records pushed.
   */
  lemma ChunkRoundTrip(c: Codec, target: nat, rs: seq<LogRecord>)
    requires c.Lawful() && rs != []
    ensures Encode(c, PushAll(c, NewWriter(target), rs)).Some?
    ensures
      var ch := Encode(c, PushAll(c, NewWriter(target), rs)).value;
      var frames := FramesOf(c, target, rs);
      && Flatten(frames) == rs && [] !in frames
      && |ch.entries| == |ch.tsEntries| == |frames|
      && Tiles(ch.entries, ch.uncompressedBytes, |ch.body|)
      && (forall i :: 0 <= i < |frames| ==> FrameIntact(c, ch, i, frames[i]))
      && c.unzip(ch.body) == Some(c.Lines(rs)) && AllParse(c, c.Lines(rs), rs)
      && ch.recordCount == |rs| && ch.uncompressedBytes == |c.Lines(rs)|
      && ch.minTimestamp == MinTs(rs) && ch.maxTimestamp == MaxTs(rs)
  {
    EncodeShape(c, target, rs);
    var ch := Encode(c, PushAll(c, NewWriter(target), rs)).value;
    var frames := FramesOf(c, target, rs);
    EntriesTile(c, frames);
    c.PlainsFlatten(frames);
    forall i | 0 <= i < |frames| ensures FrameIntact(c, ch, i, frames[i]) {
      FrameReadsBack(c, frames, i);
    }
    c.ParseLinesInverts(rs);
  }

  // ----- The imperative forms -----

  /** The writer as the code keeps it: fields updated in place by push and cut. */
  class ChunkWriter {
    const codec: Codec
    const frameTarget: nat
    var pending: seq<byte>
    var pendingMin: I64
    var pendingMax: I64
    var pendingRecords: nat
    var body: seq<byte>
    var entries: seq<FrameEntry>
    var tsEntries: seq<TsEntry>
    var originalOff: nat
    var recordCount: nat
    var minTs: I64
    var maxTs: I64

    function State(): Writer
      reads this
    {
      Writer(frameTarget, pending, pendingMin, pendingMax, pendingRecords, body, entries, tsEntries,
             originalOff, recordCount, minTs, maxTs)
    }

    constructor (c: Codec, target: nat)
      ensures codec == c && frameTarget == target && State() == NewWriter(target)
    {
      codec, frameTarget := c, target;
      pending, pendingMin, pendingMax, pendingRecords := [], I64_MAX, I64_MIN, 0;
      body, entries, tsEntries, originalOff, recordCount := [], [], [], 0, 0;
      minTs, maxTs := I64_MAX, I64_MIN;
    }

    method PushRecord(r: LogRecord)
      modifies this
      ensures State() == Push(codec, old(State()), r)
    {
      pending := pending + codec.Line(r);
      pendingMin := Min(pendingMin, r.timestamp);
      pendingMax := Max(pendingMax, r.timestamp);
      pendingRecords := pendingRecords + 1;
      if |pending| >= frameTarget {
        Cut();
      }
    }

    method Cut()
      modifies this
      ensures State() == CutFrame(codec, old(State()))
    {
      if pending == [] {
        return;
      }
      var compressed := codec.zip(pending);
      IndexFrame(|compressed|);
      body := body + compressed;
      recordCount := recordCount + pendingRecords;
      minTs := Min(minTs, pendingMin);
      maxTs := Max(maxTs, pendingMax);
      pending, pendingMin, pendingMax, pendingRecords := [], I64_MAX, I64_MIN, 0;
    }

    /** Index the pending frame, which will take size bytes at the end of the body. */
    method IndexFrame(size: nat)
      modifies this`entries, this`tsEntries, this`originalOff
      ensures entries == old(entries) + [FrameEntry(old(originalOff), |pending|, |body|, size)]
      ensures tsEntries == old(tsEntries) + [TsEntry(pendingMin, pendingMax)]
      ensures originalOff == old(originalOff) + |pending|
    {
      entries := entries + [FrameEntry(originalOff, |pending|, |body|, size)];
      tsEntries := tsEntries + [TsEntry(pendingMin, pendingMax)];
      originalOff := originalOff + |pending|;
    }

    /** Encode from local copies: the writer itself is unchanged, so a failed PUT can retry. */
    method EncodeChunk() returns (chunk: Option<EncodedChunk>)
      ensures chunk == Encode(codec, State())
    {
      var es, ts, bd, off, n, lo, hi := entries, tsEntries, body, originalOff, recordCount, minTs, maxTs;
      if pending != [] {
        var compressed := codec.zip(pending);
        es := es + [FrameEntry(off, |pending|, |bd|, |compressed|)];
        ts := ts + [TsEntry(pendingMin, pendingMax)];
        off := off + |pending|;
        bd := bd + compressed;
        n := n + pendingRecords;
        lo := Min(lo, pendingMin);
        hi := Max(hi, pendingMax);
      }
      if es == [] {
        return None;
      }
      return Some(EncodedChunk(bd, es, ts, n, off, lo, hi));
    }
  }

  /** Line iterator over a decompressed text. */
  class RecordLines {
    const codec: Codec
    var rest: seq<byte>

    constructor (c: Codec, bytes: seq<byte>)
      ensures codec == c && rest == bytes
    {
      codec, rest := c, bytes;
    }

    /** Yields the decode of the next non-empty line, and consumes exactly it. */
    method Next() returns (item: Option<Option<LogRecord>>)
      modifies this
      ensures item.None? <==> codec.ParseLines(old(rest)) == []
      ensures item.None? ==> rest == []
      ensures item.Some? ==> codec.ParseLines(old(rest)) == [item.value] + codec.ParseLines(rest)
    {
      hide NonEmptyLines;
      while rest != []
        invariant codec.ParseLines(rest) == codec.ParseLines(old(rest))
        decreases |rest|
      {
        codec.ParseFirstLine(rest);
        var i := FirstNewline(rest);
        var line := rest[..i];
        rest := if i < |rest| then rest[i + 1..] else [];
        if line != [] {
          return Some(codec.dec(line));
        }
      }
      codec.ParseNothing();
      return None;
    }
  }
}
