/** The S4LT timestamp sidecar, byte for byte: magic, version, count, then 16 bytes a frame, little-endian. */
module TsIndexFormat {
  import opened Common
  import opened Chunk

  const MAGIC: seq<byte> := [83, 52, 76, 84]
  const VERSION: nat := 1
  const HEADER_BYTES: nat := 16
  const ENTRY_BYTES: nat := 16
  const MAX_FRAMES: nat := 16 * 1024 * 1024
  const TWO_64: nat := 0x1_0000_0000_0000_0000

  datatype TsIndexError =
    | TooShort(len: nat)
    | BadMagic(magic: seq<byte>)
    | UnsupportedVersion(version: nat)
    | EntryCountMismatch(claimed: nat, remaining: nat)
    | TooManyFrames(got: nat)
    | InvalidEntry(idx: nat, minTs: I64, maxTs: I64)

  // ----- Little-endian integers -----

  function Power256(k: nat): nat {
    if k == 0 then 1 else 256 * Power256(k - 1)
  }

  function PutLe(n: nat, k: nat): (bs: seq<byte>)
    ensures |bs| == k
  {
    if k == 0 then [] else [(n % 256) as byte] + PutLe(n / 256, k - 1)
  }

  function GetLe(bs: seq<byte>): nat {
    if bs == [] then 0 else bs[0] as nat + 256 * GetLe(bs[1..])
  }

  lemma {:induction false} GetPut(n: nat, k: nat)
    requires n < Power256(k)
    ensures GetLe(PutLe(n, k)) == n
  {
    if k > 0 {
      GetPut(n / 256, k - 1);
      assert PutLe(n, k)[1..] == PutLe(n / 256, k - 1);
    }
  }

  lemma {:induction false} PutGet(bs: seq<byte>)
    ensures GetLe(bs) < Power256(|bs|)
    ensures PutLe(GetLe(bs), |bs|) == bs
  {
    if bs != [] {
      PutGet(bs[1..]);
      var n := GetLe(bs);
      ModAt(n, 256, GetLe(bs[1..]), bs[0] as int);
      assert bs == [bs[0]] + bs[1..];
    }
  }

  /** Two's complement. */
  function ToU64(x: I64): (u: nat)
    ensures u < TWO_64
  {
    if x < 0 then x + TWO_64 else x
  }

  function FromU64(u: nat): I64
    requires u < TWO_64
  {
    if u > I64_MAX then u - TWO_64 else u
  }

  lemma Power8()
    ensures Power256(8) == TWO_64 && Power256(4) == 0x1_0000_0000
  {
    assert Power256(2) == 65536;
    assert Power256(4) == 65536 * 65536;
    assert Power256(6) == 65536 * 65536 * 65536;
  }

  function PutI64(x: I64): seq<byte> {
    PutLe(ToU64(x), 8)
  }

  function GetI64(bs: seq<byte>): I64
    requires |bs| == 8
  {
    PutGet(bs);
    Power8();
    FromU64(GetLe(bs))
  }

  lemma I64RoundTrip(x: I64)
    ensures GetI64(PutI64(x)) == x
  {
    Power8();
    GetPut(ToU64(x), 8);
  }

  lemma I64BytesRoundTrip(bs: seq<byte>)
    requires |bs| == 8
    ensures PutI64(GetI64(bs)) == bs
  {
    Power8();
    PutGet(bs);
    assert ToU64(FromU64(GetLe(bs))) == GetLe(bs);
  }

  // ----- The format -----

  function PutEntry(e: TsEntry): (bs: seq<byte>)
    ensures |bs| == ENTRY_BYTES
  {
    PutI64(e.minTs) + PutI64(e.maxTs)
  }

  function PutEntries(es: seq<TsEntry>): (bs: seq<byte>)
    ensures |bs| == ENTRY_BYTES * |es|
  {
    if es == [] then [] else PutEntries(es[..|es| - 1]) + PutEntry(es[|es| - 1])
  }

  function Header(n: nat): (bs: seq<byte>)
    ensures |bs| == HEADER_BYTES
  {
    MAGIC + PutLe(VERSION, 4) + PutLe(n, 8)
  }

  function EncodeTsIndex(es: seq<TsEntry>): seq<byte> {
    Header(|es|) + PutEntries(es)
  }

  predicate Decodable(es: seq<TsEntry>) {
    |es| <= MAX_FRAMES && forall i :: 0 <= i < |es| ==> es[i].minTs <= es[i].maxTs
  }

  method EncodeIndex(es: seq<TsEntry>) returns (buf: seq<byte>)
    ensures buf == EncodeTsIndex(es)
  {
    buf := MAGIC;
    buf := buf + PutLe(VERSION, 4);
    buf := buf + PutLe(|es|, 8);
    for i := 0 to |es|
      invariant buf == Header(|es|) + PutEntries(es[..i])
    {
      hide PutEntries, Header, PutI64;
      assert es[..i + 1] == es[..i] + [es[i]];
      PutEntriesSnoc(es[..i], es[i]);
      Assoc(buf, PutI64(es[i].minTs), PutI64(es[i].maxTs));
      Assoc(Header(|es|), PutEntries(es[..i]), PutEntry(es[i]));
      buf := buf + PutI64(es[i].minTs);
      buf := buf + PutI64(es[i].maxTs);
    }
    assert es[..|es|] == es;
  }

  /** The entry at slot i of a text. */
  function EntryAtSlot(input: seq<byte>, i: nat): TsEntry
    requires HEADER_BYTES + ENTRY_BYTES * (i + 1) <= |input|
  {
    var p := HEADER_BYTES + ENTRY_BYTES * i;
    TsEntry(GetI64(input[p..p + 8]), GetI64(input[p + 8..p + 16]))
  }

  lemma {:induction false} PutEntriesSlot(es: seq<TsEntry>, i: nat)
    requires i < |es|
    ensures PutEntries(es)[ENTRY_BYTES * i..ENTRY_BYTES * (i + 1)] == PutEntry(es[i])
  {
    var init := es[..|es| - 1];
    if i < |init| {
      PutEntriesSlot(init, i);
      assert PutEntries(es)[..ENTRY_BYTES * |init|] == PutEntries(init);
    }
  }

  /** Slot i of an encoding holds entry i. */
  lemma EncodedSlot(es: seq<TsEntry>, i: nat)
    requires i < |es|
    ensures HEADER_BYTES + ENTRY_BYTES * (i + 1) <= |EncodeTsIndex(es)|
    ensures EntryAtSlot(EncodeTsIndex(es), i) == es[i]
  {
    var b, p := EncodeTsIndex(es), HEADER_BYTES + ENTRY_BYTES * i;
    PutEntriesSlot(es, i);
    assert b[p..p + 16] == PutEntry(es[i]);
    assert b[p..p + 8] == b[p..p + 16][..8] == PutI64(es[i].minTs);
    assert b[p + 8..p + 16] == b[p..p + 16][8..] == PutI64(es[i].maxTs);
    I64RoundTrip(es[i].minTs);
    I64RoundTrip(es[i].maxTs);
  }

  lemma {:induction false} PowerPositive(k: nat)
    ensures Power256(k) > 0
  {
    if k > 0 {
      PowerPositive(k - 1);
    }
  }

  lemma DivTwice(n: nat, p: nat)
    requires p > 0
    ensures (n / 256) / p == n / (256 * p)
  {
    var q := n / 256;
    var d, r := q / p, q % p;
    assert q == d * p + r;
    assert n == 256 * q + n % 256;
    assert n == d * (256 * p) + (256 * r + n % 256);
    ModAt(n, 256 * p, d, 256 * r + n % 256);
  }

  /** Little-endian: byte j is the j-th digit of the number to base 256. */
  lemma {:induction false} PutLeAt(n: nat, k: nat, j: nat)
    requires j < k
    ensures Power256(j) > 0 && PutLe(n, k)[j] as int == (n / Power256(j)) % 256
  {
    PowerPositive(j);
    if j > 0 {
      PutLeAt(n / 256, k - 1, j - 1);
      DivTwice(n, Power256(j - 1));
    }
  }

  /** The first sixteen bytes: "S4LT", version 1, the entry count. */
  lemma HeaderLayout(es: seq<TsEntry>)
    ensures var b := EncodeTsIndex(es);
            |b| == 16 + 16 * |es| && b[..8] == [83, 52, 76, 84, 1, 0, 0, 0] && b[8..16] == PutLe(|es|, 8)
  {
    VersionBytes();
    hide PutLe, PutEntries;
    var b := EncodeTsIndex(es);
    assert b[..16] == Header(|es|);
    assert b[..8] == b[..16][..8] && b[8..16] == b[..16][8..];
  }

  lemma VersionBytes()
    ensures PutLe(VERSION, 4) == [1, 0, 0, 0]
  {
  }

  /** Then for each entry its minimum and maximum in two's complement, eight bytes each. */
  lemma EntryLayout(es: seq<TsEntry>, i: nat)
    requires i < |es|
    ensures var b, e := EncodeTsIndex(es), es[i];
            && 32 + 16 * i <= |b|
            && b[16 + 16 * i..24 + 16 * i] == PutLe(if e.minTs < 0 then e.minTs + 0x1_0000_0000_0000_0000 else e.minTs, 8)
            && b[24 + 16 * i..32 + 16 * i] == PutLe(if e.maxTs < 0 then e.maxTs + 0x1_0000_0000_0000_0000 else e.maxTs, 8)
  {
    hide PutLe, PutEntries, Header;
    var b, p := EncodeTsIndex(es), 16 + 16 * i;
    PutEntriesSlot(es, i);
    assert b[p..p + 16] == PutEntry(es[i]);
    assert b[p..p + 8] == b[p..p + 16][..8] && b[p + 8..p + 16] == b[p..p + 16][8..];
  }

  /** Encodings are injective, so an accepted text has one meaning. */
  lemma EncodeInjective(a: seq<TsEntry>, b: seq<TsEntry>)
    requires EncodeTsIndex(a) == EncodeTsIndex(b)
    ensures a == b
  {
    assert |a| == |b|;
    forall i | 0 <= i < |a| ensures a[i] == b[i] {
      EncodedSlot(a, i);
      EncodedSlot(b, i);
    }
  }

  lemma HeaderFields(n: nat, rest: seq<byte>)
    requires n < TWO_64
    ensures var b := Header(n) + rest;
            b[..4] == MAGIC && GetLe(b[4..8]) == VERSION && GetLe(b[8..16]) == n
  {
    var b := Header(n) + rest;
    Power8();
    GetPut(VERSION, 4);
    GetPut(n, 8);
    assert b[4..8] == PutLe(VERSION, 4);
    assert b[8..16] == PutLe(n, 8);
  }

  lemma HeaderFromFields(b: seq<byte>)
    requires |b| >= HEADER_BYTES && b[..4] == MAGIC && GetLe(b[4..8]) == VERSION
    ensures Header(GetLe(b[8..16])) == b[..16]
  {
    PutGet(b[4..8]);
    PutGet(b[8..16]);
    assert b[..16] == b[..4] + b[4..8] + b[8..16];
  }

  /** The input is the encoding of some decodable index. */
  ghost predicate Encodes(input: seq<byte>, es: seq<TsEntry>) {
    Decodable(es) && EncodeTsIndex(es) == input
  }

  lemma SlotBytes(input: seq<byte>, i: nat)
    requires HEADER_BYTES + ENTRY_BYTES * (i + 1) <= |input|
    ensures PutEntry(EntryAtSlot(input, i)) == input[HEADER_BYTES + ENTRY_BYTES * i..HEADER_BYTES + ENTRY_BYTES * (i + 1)]
  {
    hide PutI64, GetI64;
    var p := HEADER_BYTES + ENTRY_BYTES * i;
    I64BytesRoundTrip(input[p..p + 8]);
    I64BytesRoundTrip(input[p + 8..p + 16]);
    assert input[p..p + 16] == input[p..p + 8] + input[p + 8..p + 16];
  }

  lemma DecodeEntry(input: seq<byte>, es: seq<TsEntry>)
    requires HEADER_BYTES + ENTRY_BYTES * (|es| + 1) <= |input|
    requires PutEntries(es) == input[HEADER_BYTES..HEADER_BYTES + ENTRY_BYTES * |es|]
    ensures PutEntries(es + [EntryAtSlot(input, |es|)]) == input[HEADER_BYTES..HEADER_BYTES + ENTRY_BYTES * (|es| + 1)]
  {
    hide EntryAtSlot, PutEntry, PutEntries;
    var n, e := |es|, EntryAtSlot(input, |es|);
    var mid, hi := HEADER_BYTES + ENTRY_BYTES * n, HEADER_BYTES + ENTRY_BYTES * (n + 1);
    assert PutEntries(es + [e]) == PutEntries(es) + PutEntry(e) by {
      PutEntriesSnoc(es, e);
    }
    assert PutEntries(es) + PutEntry(e) == input[HEADER_BYTES..hi] by {
      SlotBytes(input, n);
      JoinSlices(input, HEADER_BYTES, mid, hi, PutEntries(es), PutEntry(e));
    }
  }

  lemma JoinSlices(b: seq<byte>, lo: nat, mid: nat, hi: nat, x: seq<byte>, y: seq<byte>)
    requires lo <= mid <= hi <= |b| && x == b[lo..mid] && y == b[mid..hi]
    ensures x + y == b[lo..hi]
  {
  }

  lemma PutEntriesSnoc(es: seq<TsEntry>, e: TsEntry)
    ensures PutEntries(es + [e]) == PutEntries(es) + PutEntry(e)
  {
    assert (es + [e])[..|es|] == es;
  }

  lemma EncodedHeader(input: seq<byte>, es: seq<TsEntry>)
    requires Encodes(input, es)
    ensures |input| == HEADER_BYTES + ENTRY_BYTES * |es| && |es| <= MAX_FRAMES
    ensures input[..4] == MAGIC && GetLe(input[4..8]) == VERSION && GetLe(input[8..16]) == |es|
  {
    HeaderFields(|es|, PutEntries(es));
  }

  lemma EncodedEntryOrdered(input: seq<byte>, es: seq<TsEntry>, i: nat)
    requires Encodes(input, es) && i < |es|
    ensures HEADER_BYTES + ENTRY_BYTES * (i + 1) <= |input|
    ensures EntryAtSlot(input, i).minTs <= EntryAtSlot(input, i).maxTs
  {
    EncodedSlot(es, i);
  }

  lemma Assemble(input: seq<byte>, es: seq<TsEntry>)
    requires |input| == HEADER_BYTES + ENTRY_BYTES * |es|
    requires input[..4] == MAGIC && GetLe(input[4..8]) == VERSION && GetLe(input[8..16]) == |es|
    requires PutEntries(es) == input[HEADER_BYTES..HEADER_BYTES + ENTRY_BYTES * |es|]
    ensures EncodeTsIndex(es) == input
  {
    HeaderFromFields(input);
    assert input == input[..16] + input[16..];
  }

  /** Magic and version are right. */
  predicate GoodHeader(input: seq<byte>) {
    |input| >= HEADER_BYTES && input[..4] == MAGIC && GetLe(input[4..8]) == VERSION
  }

  /** The header announces the entries that follow. */
  predicate GoodCount(input: seq<byte>) {
    GoodHeader(input) && GetLe(input[8..16]) <= MAX_FRAMES && |input| - HEADER_BYTES == GetLe(input[8..16]) * ENTRY_BYTES
  }

  /** What each error reports of its input; no two errors have a cause in common. */
  predicate Cause(input: seq<byte>, e: TsIndexError) {
    match e
    case TooShort(len) => len == |input| < HEADER_BYTES
    case BadMagic(magic) => |input| >= HEADER_BYTES && magic == input[..4] && magic != MAGIC
    case UnsupportedVersion(version) =>
      |input| >= HEADER_BYTES && input[..4] == MAGIC && version == GetLe(input[4..8]) && version != VERSION
    case TooManyFrames(got) => GoodHeader(input) && got == GetLe(input[8..16]) && got > MAX_FRAMES
    case EntryCountMismatch(claimed, remaining) =>
      && GoodHeader(input) && claimed == GetLe(input[8..16]) && claimed <= MAX_FRAMES
      && remaining == |input| - HEADER_BYTES && remaining != claimed * ENTRY_BYTES
    case InvalidEntry(idx, minTs, maxTs) =>
      && GoodCount(input) && idx < GetLe(input[8..16]) && minTs > maxTs
      && HEADER_BYTES + ENTRY_BYTES * (idx + 1) <= |input| && EntryAtSlot(input, idx) == TsEntry(minTs, maxTs)
      && forall k :: 0 <= k < idx ==> EntryAtSlot(input, k).minTs <= EntryAtSlot(input, k).maxTs
  }

  /** The cause of an error determines which error it is. */
  lemma OneCause(input: seq<byte>, a: TsIndexError, b: TsIndexError)
    requires Cause(input, a) && Cause(input, b)
    ensures a == b
  {
    hide GetLe, EntryAtSlot;
  }

  /**
   * Decoding accepts exactly the encodings of decodable indexes, and returns
   * the index encoded: the inverse of encoding in both directions.
   */
  method DecodeIndex(input: seq<byte>) returns (r: Result<seq<TsEntry>, TsIndexError>)
    ensures r.Ok? ==> Encodes(input, r.value)
    ensures r.Err? ==> forall es :: !Encodes(input, es)
    ensures r.Err? ==> Cause(input, r.error)
    ensures r.Ok? ==> |r.value| <= 16_777_216
    ensures r.Err? && r.error.TooManyFrames? ==> r.error.got > 16_777_216
  {
    hide Encodes, Cause, GetLe;
    var count := DecodeHeader(input);
    if count.Err? {
      r := Err(count.error);
    } else {
      r := DecodeEntries(input, count.value);
    }
    FrameLimit(input, r);
  }

  lemma FrameLimit(input: seq<byte>, r: Result<seq<TsEntry>, TsIndexError>)
    requires r.Ok? ==> Encodes(input, r.value)
    requires r.Err? ==> Cause(input, r.error)
    ensures r.Ok? ==> |r.value| <= 16_777_216
    ensures r.Err? && r.error.TooManyFrames? ==> r.error.got > 16_777_216
  {
    hide EncodeTsIndex, GetLe;
  }

  /** The checks made before any entry is read. */
  method DecodeHeader(input: seq<byte>) returns (r: Result<nat, TsIndexError>)
    ensures r.Ok? ==> GoodCount(input) && r.value == GetLe(input[8..16])
    ensures r.Err? ==> Cause(input, r.error) && forall es :: !Encodes(input, es)
  {
    hide Encodes, GetLe, EntryAtSlot;
    forall es | Encodes(input, es)
      ensures |input| == HEADER_BYTES + ENTRY_BYTES * |es| && |es| <= MAX_FRAMES
      ensures input[..4] == MAGIC && GetLe(input[4..8]) == VERSION && GetLe(input[8..16]) == |es|
    {
      EncodedHeader(input, es);
    }
    if |input| < HEADER_BYTES {
      return Err(TooShort(|input|));
    }
    var magic := input[..4];
    if magic != MAGIC {
      return Err(BadMagic(magic));
    }
    var version := GetLe(input[4..8]);
    if version != VERSION {
      return Err(UnsupportedVersion(version));
    }
    var n := GetLe(input[8..16]);
    if n > MAX_FRAMES {
      return Err(TooManyFrames(n));
    }
    if |input| - HEADER_BYTES != n * ENTRY_BYTES {
      return Err(EntryCountMismatch(n, |input| - HEADER_BYTES));
    }
    return Ok(n);
  }

  method DecodeEntries(input: seq<byte>, n: nat) returns (r: Result<seq<TsEntry>, TsIndexError>)
    requires GoodCount(input) && n == GetLe(input[8..16])
    ensures r.Ok? ==> Encodes(input, r.value)
    ensures r.Err? ==> Cause(input, r.error) && forall es :: !Encodes(input, es)
  {
    hide EncodeTsIndex, PutEntries, GetLe, EntryAtSlot, Encodes;
    var entries: seq<TsEntry> := [];
    NoEntries();
    for idx := 0 to n
      invariant |entries| == idx
      invariant PutEntries(entries) == input[HEADER_BYTES..HEADER_BYTES + ENTRY_BYTES * idx]
      invariant Decodable(entries)
      invariant forall k :: 0 <= k < idx ==> EntryAtSlot(input, k).minTs <= EntryAtSlot(input, k).maxTs
    {
      DecodeEntry(input, entries);
      var e := EntryAtSlot(input, idx);
      if e.minTs > e.maxTs {
        forall es | Encodes(input, es) ensures false {
          EncodedHeader(input, es);
          EncodedEntryOrdered(input, es, idx);
        }
        return Err(InvalidEntry(idx, e.minTs, e.maxTs));
      }
      entries := entries + [e];
    }
    Assemble(input, entries);
    ItEncodes(input, entries);
    return Ok(entries);
  }

  lemma ItEncodes(input: seq<byte>, es: seq<TsEntry>)
    requires Decodable(es) && EncodeTsIndex(es) == input
    ensures Encodes(input, es)
  {
  }

  lemma NoEntries()
    ensures PutEntries([]) == []
  {
  }
}
