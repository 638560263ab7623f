/**
 * Segment files byte by byte: whatever bytes a crash leaves, the protocol's
 * crash and boot steps describe it, and what a scan of the files returns is
 * what the replay of the machine starts from.
 */
module GatewayReplay {
  import opened Common
  import opened Wal
  import opened Bags
  import opened Gateway

  /** A segment file: its bytes, of which the first durable are sure to survive a crash. */
  datatype File = File(bytes: seq<byte>, durable: nat)

  /** However the file is cut at or past its durable bytes, the scan finds a prefix of the entries with all the fsynced ones. */
  ghost predicate Backs(c: EntryCodec, f: File, s: Segment) {
    f.durable <= |f.bytes| && forall n: nat :: f.durable <= n <= |f.bytes| ==> Recovers(c, f, s, n)
  }

  ghost predicate Recovers(c: EntryCodec, f: File, s: Segment, n: nat) {
    n <= |f.bytes| && exists k: nat :: Survive(c, f, s, n, k)
  }

  ghost predicate Survive(c: EntryCodec, f: File, s: Segment, n: nat, k: nat)
    requires n <= |f.bytes|
  {
    s.synced <= k <= |s.entries| && c.Scan(f.bytes[..n]) == s.entries[..k]
  }

  /** The file of a live segment holds the text of its entries, durable up to the last fsync. */
  lemma LiveFileBacks(c: EntryCodec, s: Segment)
    requires c.Lawful() && s.synced <= |s.entries|
    ensures Backs(c, File(c.Text(s.entries), |c.Text(s.entries[..s.synced])|), s)
  {
    var f := File(c.Text(s.entries), |c.Text(s.entries[..s.synced])|);
    assert s.entries == s.entries[..s.synced] + s.entries[s.synced..];
    c.TextAppend(s.entries[..s.synced], s.entries[s.synced..]);
    forall n: nat | f.durable <= n <= |f.bytes| ensures Recovers(c, f, s, n) {
      c.TornTailRecovery(s.entries, s.synced, n);
      assert Survive(c, f, s, n, c.Survivors(s.entries, n));
    }
  }

  /** The files on disk back the segments of the machine. */
  ghost predicate AllBacked(c: EntryCodec, files: map<nat, File>, disk: map<nat, Segment>) {
    files.Keys == disk.Keys && forall id :: id in disk ==> Backs(c, files[id], disk[id])
  }

  /** A byte cut of every file, at or past what is durable. */
  predicate LegalCuts(files: map<nat, File>, cuts: map<nat, nat>) {
    cuts.Keys == files.Keys && forall id :: id in files ==> files[id].durable <= cuts[id] <= |files[id].bytes|
  }

  /** The files a crash leaves: each cut, and some deleted ones back with their bytes. */
  function CutFiles(files: map<nat, File>, buried: map<nat, File>, cuts: map<nat, nat>, revived: set<nat>): map<nat, File>
    requires LegalCuts(files, cuts) && revived <= buried.Keys
  {
    map id | id in files.Keys + revived ::
      if id in files then File(files[id].bytes[..cuts[id]], cuts[id]) else File(buried[id].bytes, |buried[id].bytes|)
  }

  /** A deleted file still scans to what it held. */
  ghost predicate Remembers(c: EntryCodec, buried: map<nat, File>, graveyard: map<nat, Segment>) {
    buried.Keys == graveyard.Keys && forall id :: id in graveyard ==> c.Scan(buried[id].bytes) == graveyard[id].entries
  }

  /** How many entries of each segment survive the cuts. */
  ghost function KeptBy(c: EntryCodec, files: map<nat, File>, disk: map<nat, Segment>, cuts: map<nat, nat>): (keep: map<nat, nat>)
    requires LegalCuts(files, cuts) && files.Keys == disk.Keys
    requires forall id :: id in disk ==> Recovers(c, files[id], disk[id], cuts[id])
    ensures keep.Keys == disk.Keys && forall id :: id in disk ==> Survive(c, files[id], disk[id], cuts[id], keep[id])
  {
    map id | id in disk :: CountKept(c, files[id], disk[id], cuts[id])
  }

  ghost function CountKept(c: EntryCodec, f: File, s: Segment, n: nat): (k: nat)
    requires Recovers(c, f, s, n)
    ensures Survive(c, f, s, n, k)
  {
    var k: nat :| Survive(c, f, s, n, k);
    k
  }

  lemma WholeFileBacks(c: EntryCodec, bytes: seq<byte>, entries: seq<WalEntry>)
    requires c.Scan(bytes) == entries
    ensures Backs(c, File(bytes, |bytes|), Segment(entries, |entries|))
  {
    var f, s := File(bytes, |bytes|), Segment(entries, |entries|);
    forall n: nat | f.durable <= n <= |f.bytes| ensures Recovers(c, f, s, n) {
      TakeAll(bytes);
      TakeAll(entries);
      assert Survive(c, f, s, n, |entries|);
    }
  }

  // ----- The scan at boot -----

  /** All entries the files hold, file by file. */
  function Scanned(c: EntryCodec, files: seq<(string, seq<byte>)>): seq<WalEntry> {
    if files == [] then [] else Scanned(c, files[..|files| - 1]) + c.Scan(files[|files| - 1].1)
  }

  /** The listing of the directory: one file for each segment, scanning to its entries. */
  ghost predicate Directory(c: EntryCodec, files: seq<(string, seq<byte>)>, ids: seq<nat>, disk: map<nat, Segment>) {
    && |ids| == |files| && (forall i, j :: 0 <= i < j < |ids| ==> ids[i] != ids[j])
    && (forall id :: id in disk <==> id in ids)
    && (forall i :: 0 <= i < |ids| ==> c.Scan(files[i].1) == disk[ids[i]].entries)
  }

  /** What a scan of the directory returns is exactly what a boot of the machine replays. */
  lemma {:induction false} ScanIsTodo(c: EntryCodec, files: seq<(string, seq<byte>)>, ids: seq<nat>, disk: map<nat, Segment>)
    requires Directory(c, files, ids, disk)
    ensures Lists(disk, Scanned(c, files))
    decreases |files|
  {
    if files == [] {
      assert disk == map[];
    } else {
      var n := |files| - 1;
      var id := ids[n];
      DirectoryShrinks(c, files, ids, disk);
      hide Directory, Sum;
      ScanIsTodo(c, files[..n], ids[..n], disk - {id});
      SumAt(disk, EntryBag, id);
    }
  }

  lemma DirectoryShrinks(c: EntryCodec, files: seq<(string, seq<byte>)>, ids: seq<nat>, disk: map<nat, Segment>)
    requires Directory(c, files, ids, disk) && files != []
    ensures ids[|ids| - 1] in disk && c.Scan(files[|files| - 1].1) == disk[ids[|ids| - 1]].entries
    ensures Directory(c, files[..|files| - 1], ids[..|ids| - 1], disk - {ids[|ids| - 1]})
  {
    hide EntryCodec.Scan;
    var n := |ids| - 1;
    assert ids[n] in ids;
    InitOfDistinct(ids);
    forall i | 0 <= i < n ensures c.Scan(files[..n][i].1) == (disk - {ids[n]})[ids[..n][i]].entries {
      assert ids[i] in ids && ids[..n][i] == ids[i] && files[..n][i] == files[i];
    }
  }

  lemma InitOfDistinct(ids: seq<nat>)
    requires ids != [] && forall i, j :: 0 <= i < j < |ids| ==> ids[i] != ids[j]
    ensures forall id :: id in ids[..|ids| - 1] <==> id in ids && id != ids[|ids| - 1]
  {
    var n := |ids| - 1;
    TakeSnoc(ids, n);
    TakeAll(ids);
    forall id ensures id in ids[..n] <==> id in ids && id != ids[n] {
      if id in ids[..n] {
        var i :| 0 <= i < n && ids[..n][i] == id;
        assert ids[i] == id;
      }
    }
  }

}
