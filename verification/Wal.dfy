/** Write-ahead log segments: appended lines, fsync, and what a crash leaves to be scanned. */
module Wal {
  import opened Common

  /** One accepted event with the buffer-key context replay needs. */
  datatype WalEntry = WalEntry(logGroup: string, timestamp: I64, stream: string, message: string, ingestionTime: Option<I64>)

  function EntryOf(group: string, r: LogRecord): WalEntry {
    WalEntry(group, r.timestamp, r.stream, r.message, r.ingestionTime)
  }

  function RecordOf(e: WalEntry): LogRecord {
    LogRecord(e.timestamp, e.stream, e.message, e.ingestionTime, None)
  }

  /** A record without an event id comes back from its log entry, and an entry from its record. */
  lemma EntryRoundTrip(group: string, r: LogRecord, e: WalEntry)
    ensures EntryOf(group, r).logGroup == group
    ensures r.eventId == None ==> RecordOf(EntryOf(group, r)) == r
    ensures EntryOf(e.logGroup, RecordOf(e)) == e && RecordOf(e).eventId == None
  {
  }

  datatype EntryCodec = EntryCodec(enc: WalEntry -> seq<byte>, dec: seq<byte> -> Option<WalEntry>)
  {
    /** A JSON object decodes from its own text, holds no raw newline, and from no proper prefix of it. */
    ghost predicate Lawful() {
      && (forall e :: dec(enc(e)) == Some(e) && NEWLINE !in enc(e) && enc(e) != [])
      && (forall e, n :: 0 <= n < |enc(e)| ==> dec(enc(e)[..n]) == None)
    }

    function Line(e: WalEntry): seq<byte> {
      enc(e) + [NEWLINE]
    }

    function Text(es: seq<WalEntry>): seq<byte> {
      if es == [] then [] else Line(es[0]) + Text(es[1..])
    }

    /** The intact lines of a segment file; torn or corrupt ones are skipped. */
    function Scan(bytes: seq<byte>): seq<WalEntry> {
      Intact(NonEmptyLines(bytes))
    }

    function Intact(ls: seq<seq<byte>>): seq<WalEntry> {
      if ls == [] then []
      else (match dec(ls[0]) case Some(e) => [e] case None => []) + Intact(ls[1..])
    }

    lemma IntactCons(l: seq<byte>, ls: seq<seq<byte>>)
      ensures Intact([l] + ls) == (match dec(l) case Some(e) => [e] case None => []) + Intact(ls)
    {
      assert ([l] + ls)[0] == l && ([l] + ls)[1..] == ls;
    }

    lemma ScanLine(l: seq<byte>, rest: seq<byte>)
      requires NEWLINE !in l && l != []
      ensures Scan(l + [NEWLINE] + rest) == (match dec(l) case Some(e) => [e] case None => []) + Scan(rest)
    {
      LineThenRest(l, rest);
      IntactCons(l, NonEmptyLines(rest));
    }

    lemma ScanUnterminated(l: seq<byte>)
      requires NEWLINE !in l && l != []
      ensures Scan(l) == match dec(l) case Some(e) => [e] case None => []
    {
      UnterminatedLine(l);
      IntactCons(l, []);
      assert [l] + [] == [l];
    }

    lemma {:induction false} TextAppend(a: seq<WalEntry>, b: seq<WalEntry>)
      ensures Text(a + b) == Text(a) + Text(b)
    {
      if a == [] {
        assert a + b == b;
      } else {
        TextAppend(a[1..], b);
        assert (a + b)[0] == a[0] && (a + b)[1..] == a[1..] + b;
        Assoc(Line(a[0]), Text(a[1..]), Text(b));
      }
    }

    /** How many entries survive when only the first n bytes of the file do. */
    function Survivors(es: seq<WalEntry>, n: nat): (k: nat)
      ensures k <= |es|
    {
      if es == [] || n < |enc(es[0])| then 0
      else if n <= |enc(es[0])| then 1
      else 1 + Survivors(es[1..], n - |Line(es[0])|)
    }

    static lemma TakeBeyond(a: seq<byte>, b: seq<byte>, n: nat)
      requires |a| <= n <= |a| + |b|
      ensures (a + b)[..n] == a + b[..n - |a|]
    {
    }

    /** A cut inside the first line, or just before its newline. */
    lemma TornFirst(es: seq<WalEntry>, n: nat)
      requires Lawful() && es != [] && n <= |enc(es[0])|
      ensures n <= |Text(es)| && Scan(Text(es)[..n]) == es[..Survivors(es, n)]
    {
      var e := es[0];
      var cut := Text(es)[..n];
      assert cut == enc(e)[..n];
      if n == 0 {
        assert cut == [];
      } else {
        hide Scan;
        ScanUnterminated(cut);
        assert enc(e)[..|enc(e)|] == enc(e);
      }
    }

    lemma TextOfFirst(es: seq<WalEntry>, n: nat)
      requires es != [] && n > |enc(es[0])|
      ensures Text(es) == Line(es[0]) + Text(es[1..]) && |Line(es[0])| == |enc(es[0])| + 1
      ensures Survivors(es, n) == 1 + Survivors(es[1..], n - |Line(es[0])|)
    {
    }

    lemma TornNothing(n: nat)
      requires n <= |Text([])|
      ensures Scan(Text([])[..n]) == []
    {
      var none: seq<byte> := [];
      assert Text([])[..n] == none && NonEmptyLines(none) == [];
    }

    /** Cutting the file anywhere loses a suffix of its entries and invents nothing. */
    lemma {:induction false} ScanAfterTear(es: seq<WalEntry>, n: nat)
      requires Lawful() && n <= |Text(es)|
      ensures Scan(Text(es)[..n]) == es[..Survivors(es, n)]
    {
      hide Scan, Lawful;
      if es == [] {
        TornNothing(n);
      } else if n <= |enc(es[0])| {
        TornFirst(es, n);
      } else {
        var e, rest := es[0], es[1..];
        TextOfFirst(es, n);
        hide Text, Survivors, Line;
        var m := n - |Line(e)|;
        ScanAfterTear(rest, m);
        TakeBeyond(Line(e), Text(rest), n);
        LineScans(e, Text(rest)[..m]);
        FirstAndMore(es, Survivors(rest, m));
      }
    }

    static lemma FirstAndMore(es: seq<WalEntry>, k: nat)
      requires es != [] && k < |es|
      ensures es[..1 + k] == [es[0]] + es[1..][..k]
    {
    }

    lemma LineScans(e: WalEntry, rest: seq<byte>)
      requires Lawful()
      ensures Scan(Line(e) + rest) == [e] + Scan(rest)
    {
      hide Scan;
      ScanLine(enc(e), rest);
    }

    /** Entries written completely within the surviving bytes are all among the survivors. */
    lemma {:induction false} SurvivorsCoverSynced(es: seq<WalEntry>, synced: nat, n: nat)
      requires synced <= |es| && |Text(es[..synced])| <= n
      ensures synced <= Survivors(es, n)
    {
      if synced > 0 {
        assert es[..synced][0] == es[0] && es[..synced][1..] == es[1..][..synced - 1];
        assert n >= |Line(es[0])| + |Text(es[1..][..synced - 1])|;
        SurvivorsCoverSynced(es[1..], synced - 1, n - |Line(es[0])|);
      }
    }

    /**
     * The torn-tail theorem: whatever byte prefix of a segment survives a
     * crash, if it is at least the fsynced part the scan returns a prefix of
     * the appended entries that holds every fsynced one.
     */
    lemma TornTailRecovery(es: seq<WalEntry>, synced: nat, n: nat)
      requires Lawful() && synced <= |es| && |Text(es[..synced])| <= n <= |Text(es)|
      ensures synced <= Survivors(es, n) <= |es|
      ensures Scan(Text(es)[..n]) == es[..Survivors(es, n)]
      ensures n == |Text(es)| ==> Scan(Text(es)) == es
    {
      ScanAfterTear(es, n);
      SurvivorsCoverSynced(es, synced, n);
      if n == |Text(es)| {
        assert Text(es)[..n] == Text(es) && es[..|es|] == es;
        SurvivorsCoverSynced(es, |es|, n);
      }
    }

    /**
     * A failed append that left part of a line behind (torn), then a successful
     * append of e: the two share one line, which is read as one entry or none.
     */
    lemma JoinedLine(es: seq<WalEntry>, torn: seq<byte>, e: WalEntry)
      requires Lawful() && NEWLINE !in torn
      ensures Scan(Text(es) + torn + Line(e)) == es + [e] <==> dec(torn + enc(e)) == Some(e)
      ensures dec(torn + enc(e)) == None ==> Scan(Text(es) + torn + Line(e)) == es
    {
      var joined := torn + enc(e);
      assert Text(es) + torn + Line(e) == Text(es) + (joined + [NEWLINE] + []);
      ScanAppend(es, joined + [NEWLINE] + []);
      ScanLine(joined, []);
      var tail := match dec(joined) case Some(x) => [x] case None => [];
      assert Scan(joined + [NEWLINE] + []) == tail + [] == tail;
      if es + tail == es + [e] {
        assert (es + tail)[|es|..] == tail && (es + [e])[|es|..] == [e];
      }
    }

    /** A non-empty beginning of one JSON object followed by another is no JSON object. */
    ghost predicate NoJoin() {
      forall e, f, n :: 0 < n <= |enc(f)| ==> dec(enc(f)[..n] + enc(e)) == None
    }

    /**
     * After a failed append that left the first n bytes of its line behind, the
     * next entry is recovered if and only if n is zero; otherwise it is lost,
     * although its own append and fsync succeeded.
     */
    lemma AppendAfterPartialWrite(es: seq<WalEntry>, f: WalEntry, n: nat, e: WalEntry)
      requires Lawful() && NoJoin() && n <= |enc(f)|
      ensures Scan(Text(es) + enc(f)[..n] + Line(e)) == es + [e] <==> n == 0
      ensures n > 0 ==> Scan(Text(es) + enc(f)[..n] + Line(e)) == es
    {
      JoinedLine(es, enc(f)[..n], e);
      if n == 0 {
        assert enc(f)[..0] + enc(e) == enc(e);
      }
    }

    lemma {:induction false} ScanAppend(es: seq<WalEntry>, rest: seq<byte>)
      requires Lawful()
      ensures Scan(Text(es) + rest) == es + Scan(rest)
    {
      if es == [] {
        assert Text(es) + rest == rest;
      } else {
        hide Scan;
        ScanAppend(es[1..], rest);
        Assoc(Line(es[0]), Text(es[1..]), rest);
        ScanLine(enc(es[0]), Text(es[1..]) + rest);
        Assoc([es[0]], es[1..], Scan(rest));
        assert es == [es[0]] + es[1..];
      }
    }
  }

  /** An append-only segment file with its durable length. */
  class WalSegment {
    const codec: EntryCodec
    var file: seq<byte>
    var dirty: bool
    ghost var entries: seq<WalEntry>
    /** Entries known to be on disk. */
    ghost var synced: nat

    ghost predicate Valid()
      reads this
    {
      && file == codec.Text(entries)
      && synced <= |entries|
      && (!dirty ==> synced == |entries|)
    }

    constructor Create(c: EntryCodec)
      ensures codec == c && Valid() && entries == [] && !dirty
    {
      codec, file, dirty := c, [], false;
      entries, synced := [], 0;
    }

    /** One write of a whole line; a failed write may leave its first bytes behind. */
    method Append(e: WalEntry, ioFails: bool, written: nat) returns (ok: bool)
      requires Valid() && written <= |codec.Line(e)|
      modifies this
      ensures ok == !ioFails && synced == old(synced)
      ensures file == old(file) + if ok then codec.Line(e) else codec.Line(e)[..written]
      ensures entries == if ok then old(entries) + [e] else old(entries)
      ensures dirty == (ok || old(dirty))
      ensures Valid() <==> ok || written == 0
    {
      if ioFails {
        file := file + codec.Line(e)[..written];
        return false;
      }
      codec.TextAppend(entries, [e]);
      assert codec.Text([e]) == codec.Line(e) + codec.Text([]);
      file := file + codec.Line(e);
      dirty := true;
      entries := entries + [e];
      return true;
    }

    /** Group commit: after Ok every appended entry survives any crash. */
    method Sync(ioFails: bool) returns (ok: bool)
      requires Valid()
      modifies this
      ensures Valid() && file == old(file) && entries == old(entries)
      ensures ok <==> !old(dirty) || !ioFails
      ensures ok ==> !dirty && synced == |entries|
      ensures !ok ==> dirty == old(dirty) && synced == old(synced)
    {
      if !dirty {
        return true;
      }
      if ioFails {
        return false;
      }
      dirty := false;
      synced := |entries|;
      return true;
    }
  }

  datatype SegmentEntries = SegmentEntries(path: string, entries: seq<WalEntry>)

  /** Parse every segment file of the directory, in the given (sorted) order. */
  method ScanDir(c: EntryCodec, files: seq<(string, seq<byte>)>) returns (out: seq<SegmentEntries>)
    ensures |out| == |files|
    ensures forall i :: 0 <= i < |files| ==> out[i] == SegmentEntries(files[i].0, c.Scan(files[i].1))
  {
    out := [];
    for i := 0 to |files|
      invariant |out| == i
      invariant forall k :: 0 <= k < i ==> out[k] == SegmentEntries(files[k].0, c.Scan(files[k].1))
    {
      var entries := ScanFile(c, files[i].1);
      out := out + [SegmentEntries(files[i].0, entries)];
    }
  }

  method ScanFile(c: EntryCodec, bytes: seq<byte>) returns (entries: seq<WalEntry>)
    ensures entries == c.Scan(bytes)
  {
    entries := [];
    var lines := NonEmptyLines(bytes);
    for i := 0 to |lines|
      invariant c.Intact(lines) == entries + c.Intact(lines[i..])
    {
      assert lines[i..][0] == lines[i] && lines[i..][1..] == lines[i + 1..];
      var d := c.dec(lines[i]);
      if d.Some? {
        Assoc(entries, [d.value], c.Intact(lines[i + 1..]));
        entries := entries + [d.value];
      }
    }
    assert lines[|lines|..] == [] && entries + [] == entries;
  }
}
