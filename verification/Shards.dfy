/** Stream-sharded paging: the round-robin split, and why interleaved pages archive the same events. */
module Shards {
  import opened Common

  function CeilDiv(a: nat, b: nat): nat
    requires b > 0
  {
    if a == 0 then 0 else (a - 1) / b + 1
  }

  function ShardCount(len: nat, requested: nat, maxPerShard: nat): nat
    requires len > 0
  {
    Min(Max(Max(requested, 1), CeilDiv(len, Max(maxPerShard, 1))), len)
  }

  /** The names at positions congruent to j modulo n. */
  function Shard(streams: seq<string>, j: nat, n: nat): seq<string>
    requires j < n
  {
    if streams == [] then []
    else
      var last := |streams| - 1;
      Shard(streams[..last], j, n) + (if last % n == j then [streams[last]] else [])
  }

  /** Round-robin partition into the number of shards the API limit asks for. */
  method PartitionStreams(streams: seq<string>, requested: nat, maxPerShard: nat) returns (shards: seq<seq<string>>)
    ensures streams == [] ==> shards == []
    ensures streams != [] ==> |shards| == ShardCount(|streams|, requested, maxPerShard) && FewestShards(|streams|, requested, Max(maxPerShard, 1), |shards|)
    ensures forall j :: 0 <= j < |shards| ==> shards[j] == Shard(streams, j, |shards|)
    ensures forall i :: 0 <= i < |streams| ==> DealtTo(streams, shards, i)
  {
    if streams == [] {
      return [];
    }
    var n := ShardCount(|streams|, requested, maxPerShard);
    assert n >= 1;
    hide ShardCount, FewestShards, DealtTo;
    shards := seq(n, _ => []);
    for i := 0 to |streams|
      invariant |shards| == n
      invariant forall j :: 0 <= j < n ==> shards[j] == Shard(streams[..i], j, n)
    {
      assert streams[..i + 1][..i] == streams[..i];
      shards := shards[i % n := shards[i % n] + [streams[i]]];
    }
    assert streams[..|streams|] == streams;
    CountIsFewest(|streams|, requested, maxPerShard);
    DealtInTurn(streams, shards);
  }

  /** Stream i is number i / n of shard i modulo n. */
  ghost predicate DealtTo(streams: seq<string>, shards: seq<seq<string>>, i: nat) {
    i < |streams| && shards != [] && i / |shards| < |shards[i % |shards|]| && shards[i % |shards|][i / |shards|] == streams[i]
  }

  lemma DealtInTurn(streams: seq<string>, shards: seq<seq<string>>)
    requires shards != [] && forall j :: 0 <= j < |shards| ==> shards[j] == Shard(streams, j, |shards|)
    ensures forall i :: 0 <= i < |streams| ==> DealtTo(streams, shards, i)
  {
    hide Shard;
    forall i | 0 <= i < |streams| ensures DealtTo(streams, shards, i) {
      ShardAt(streams, |shards|, i);
    }
  }

  /**
   * As many shards as requested and as the limit per shard needs, but no more
   * than there are streams; fewer would not do.
   */
  ghost predicate FewestShards(len: nat, requested: nat, limit: nat, n: nat) {
    && 1 <= n <= len && len <= n * limit && (n >= requested || n == len)
    && forall k: nat :: 1 <= k < n ==> k < requested || TooFew(k, limit, len)
  }

  ghost predicate TooFew(k: nat, limit: nat, len: nat) {
    k * limit < len
  }

  lemma CountIsFewest(len: nat, requested: nat, maxPerShard: nat)
    requires len > 0
    ensures FewestShards(len, requested, Max(maxPerShard, 1), ShardCount(len, requested, maxPerShard))
  {
    var m, n := Max(maxPerShard, 1), ShardCount(len, requested, maxPerShard);
    EnoughShards(len, requested, m);
    forall k: nat | 1 <= k < n && k >= requested ensures TooFew(k, m, len) {
      CeilDivLeast(len, m, k);
    }
  }

  lemma CeilDivLeast(a: nat, b: nat, k: nat)
    requires a > 0 && b > 0 && k < CeilDiv(a, b)
    ensures k * b < a
  {
    MulMono(k, (a - 1) / b, b);
  }

  lemma {:induction false} ShardAt(streams: seq<string>, n: nat, i: nat)
    requires n > 0 && i < |streams|
    ensures i / n < |Shard(streams, i % n, n)| && Shard(streams, i % n, n)[i / n] == streams[i]
  {
    var last, j := |streams| - 1, i % n;
    if i < last {
      ShardAt(streams[..last], n, i);
    } else {
      var c := |Shard(streams[..last], j, n)|;
      ShardExtent(streams[..last], j, n);
      NextSlot(last, n, j, c);
      ModAt(last, n, c, j);
    }
  }

  /** A shard of size c ends at position (c-1)n+j and would next take position cn+j. */
  predicate Extent(c: nat, n: nat, j: nat, len: nat) {
    (c > 0 ==> (c - 1) * n + j < len) && len <= c * n + j
  }

  lemma ExtentGrows(c: nat, n: nat, j: nat, m: nat)
    requires j < n && Extent(c, n, j, m)
    ensures Extent(if m % n == j then c + 1 else c, n, j, m + 1)
  {
    if m % n == j {
      NextSlot(m, n, j, c);
      assert (c + 1) * n == c * n + n;
    } else if m == c * n + j {
      ModAt(m, n, c, j);
    }
  }

  lemma NextSlot(m: nat, n: nat, j: nat, c: nat)
    requires j < n && m % n == j && Extent(c, n, j, m)
    ensures m == c * n + j
  {
    var q := m / n;
    assert m == q * n + j;
    assert (c + 1) * n == c * n + n;
    if q < c {
      MulMono(q, c - 1, n);
    } else if q > c {
      MulMono(c + 1, q, n);
    }
  }

  lemma {:induction false} ShardExtent(streams: seq<string>, j: nat, n: nat)
    requires j < n
    ensures Extent(|Shard(streams, j, n)|, n, j, |streams|)
  {
    if streams != [] {
      hide Extent;
      var m := |streams| - 1;
      ShardExtent(streams[..m], j, n);
      ExtentGrows(|Shard(streams[..m], j, n)|, n, j, m);
    }
  }

  /** No shard is empty and none exceeds the API limit. */
  lemma ShardSizes(streams: seq<string>, requested: nat, maxPerShard: nat, j: nat)
    requires streams != [] && maxPerShard >= 1 && j < ShardCount(|streams|, requested, maxPerShard)
    ensures var n := ShardCount(|streams|, requested, maxPerShard);
            1 <= |Shard(streams, j, n)| <= maxPerShard
  {
    var n, len := ShardCount(|streams|, requested, maxPerShard), |streams|;
    var c := |Shard(streams, j, n)|;
    ShardExtent(streams, j, n);
    EnoughShards(len, requested, maxPerShard);
    hide ShardCount, Shard;
    SizeBounds(c, n, j, len, maxPerShard);
  }

  lemma EnoughShards(len: nat, requested: nat, maxPerShard: nat)
    requires len > 0 && maxPerShard >= 1
    ensures var n := ShardCount(len, requested, maxPerShard);
            n <= len && len <= n * maxPerShard
  {
    var n := ShardCount(len, requested, maxPerShard);
    CeilDivCovers(len, maxPerShard);
    hide CeilDiv;
    if n == len {
      MulMono(1, maxPerShard, n);
    } else {
      MulMono(CeilDiv(len, maxPerShard), n, maxPerShard);
    }
  }

  lemma SizeBounds(c: nat, n: nat, j: nat, len: nat, limit: nat)
    requires Extent(c, n, j, len) && j < n <= len <= n * limit
    ensures 1 <= c <= limit
  {
    if c > limit {
      MulMono(limit, c - 1, n);
    }
  }

  lemma MulMono(a: int, b: int, k: int)
    requires a <= b && 0 <= k
    ensures a * k <= b * k && k * a <= k * b
  {
    assert (b - a) * k >= 0;
  }

  lemma CeilDivCovers(a: nat, b: nat)
    requires b > 0
    ensures a <= CeilDiv(a, b) * b
  {
    if a > 0 {
      assert a - 1 == ((a - 1) / b) * b + (a - 1) % b;
      assert CeilDiv(a, b) * b == ((a - 1) / b) * b + b;
    }
  }

  /** Membership: a name is in shard j exactly when it stands at a position congruent to j. */
  lemma {:induction false} ShardMembers(streams: seq<string>, j: nat, n: nat, s: string)
    requires j < n
    ensures s in Shard(streams, j, n) <==> exists i :: 0 <= i < |streams| && streams[i] == s && i % n == j
  {
    if streams != [] {
      var last := |streams| - 1;
      var init := streams[..last];
      ShardMembers(init, j, n, s);
      if i :| 0 <= i < |streams| && streams[i] == s && i % n == j {
        if i < last {
          assert init[i] == s;
        }
      }
      if s in Shard(init, j, n) {
        var i :| 0 <= i < |init| && init[i] == s && i % n == j;
        assert streams[i] == s;
      }
      if last % n == j && streams[last] == s {
        assert s in Shard(streams, j, n);
      }
    }
  }

  ghost predicate Distinct(streams: seq<string>) {
    forall i, j :: 0 <= i < j < |streams| ==> streams[i] != streams[j]
  }

  function Names(shard: seq<string>): set<string> {
    set s | s in shard
  }

  function AllNames(shards: seq<seq<string>>): set<string> {
    if shards == [] then {} else Names(shards[0]) + AllNames(shards[1..])
  }

  ghost predicate Disjoint(shards: seq<seq<string>>) {
    forall i, j :: 0 <= i < j < |shards| ==> Names(shards[i]) !! Names(shards[j])
  }

  lemma {:induction false} InAllNames(shards: seq<seq<string>>, s: string)
    ensures s in AllNames(shards) <==> exists j :: 0 <= j < |shards| && s in shards[j]
  {
    if shards != [] {
      InAllNames(shards[1..], s);
      if j :| 0 <= j < |shards| && s in shards[j] {
        if j > 0 {
          assert s in shards[1..][j - 1];
        }
      }
      if s in AllNames(shards[1..]) {
        var j :| 0 <= j < |shards[1..]| && s in shards[1..][j];
        assert s in shards[j + 1];
      }
    }
  }

  /** The shards are a disjoint, complete split of the listed names. */
  lemma PartitionIsDisjointAndComplete(streams: seq<string>, n: nat, shards: seq<seq<string>>)
    requires n > 0 && Distinct(streams)
    requires |shards| == n && forall j :: 0 <= j < n ==> shards[j] == Shard(streams, j, n)
    ensures Disjoint(shards)
    ensures AllNames(shards) == Names(streams)
  {
    forall i, j | 0 <= i < j < n ensures Names(shards[i]) !! Names(shards[j]) {
      forall s | s in Names(shards[i]) && s in Names(shards[j]) ensures false {
        ShardMembers(streams, i, n, s);
        ShardMembers(streams, j, n, s);
      }
    }
    forall s ensures s in AllNames(shards) <==> s in Names(streams) {
      InAllNames(shards, s);
      if s in streams {
        var i :| 0 <= i < |streams| && streams[i] == s;
        ShardMembers(streams, i % n, n, s);
        assert s in shards[i % n];
      }
      if j :| 0 <= j < n && s in shards[j] {
        ShardMembers(streams, j, n, s);
      }
    }
  }

  // ----- Pages -----

  /** What one paging pass returns when it asks for some stream names only. */
  function Select(events: seq<LogRecord>, names: set<string>): seq<LogRecord> {
    if events == [] then []
    else (if events[0].stream in names then [events[0]] else []) + Select(events[1..], names)
  }

  lemma {:induction false} SelectUnion(events: seq<LogRecord>, a: set<string>, b: set<string>)
    requires a !! b
    ensures multiset(Select(events, a + b)) == multiset(Select(events, a)) + multiset(Select(events, b))
  {
    if events != [] {
      SelectUnion(events[1..], a, b);
    }
  }

  lemma {:induction false} SelectAll(events: seq<LogRecord>, names: set<string>)
    requires forall e :: e in events ==> e.stream in names
    ensures Select(events, names) == events
  {
    if events != [] {
      SelectAll(events[1..], names);
      assert events == [events[0]] + events[1..];
    }
  }

  /** q is the pages of all shards, merged in some completion order. */
  ghost predicate Interleaving(q: seq<seq<LogRecord>>, ps: seq<seq<seq<LogRecord>>>) {
    if q == [] then forall j :: 0 <= j < |ps| ==> ps[j] == []
    else exists j :: 0 <= j < |ps| && ps[j] != [] && ps[j][0] == q[0] && Interleaving(q[1..], ps[j := ps[j][1..]])
  }

  /** All events of all shards' pages. */
  function PageBag(ps: seq<seq<seq<LogRecord>>>): multiset<LogRecord> {
    if ps == [] then multiset{} else multiset(Flatten(ps[0])) + PageBag(ps[1..])
  }

  lemma {:induction false} PageBagDrop(ps: seq<seq<seq<LogRecord>>>, j: nat)
    requires j < |ps| && ps[j] != []
    ensures PageBag(ps) == multiset(ps[j][0]) + PageBag(ps[j := ps[j][1..]])
  {
    var qs := ps[j := ps[j][1..]];
    if j == 0 {
      assert qs[1..] == ps[1..];
    } else {
      PageBagDrop(ps[1..], j - 1);
      assert qs[1..] == ps[1..][j - 1 := ps[j][1..]];
    }
  }

  lemma {:induction false} PageBagEmpty(ps: seq<seq<seq<LogRecord>>>)
    requires forall j :: 0 <= j < |ps| ==> ps[j] == []
    ensures PageBag(ps) == multiset{}
  {
    if ps != [] {
      PageBagEmpty(ps[1..]);
    }
  }

  lemma {:induction false} InterleavingKeepsEvents(q: seq<seq<LogRecord>>, ps: seq<seq<seq<LogRecord>>>)
    requires Interleaving(q, ps)
    ensures multiset(Flatten(q)) == PageBag(ps)
  {
    if q == [] {
      PageBagEmpty(ps);
    } else {
      var j :| 0 <= j < |ps| && ps[j] != [] && ps[j][0] == q[0] && Interleaving(q[1..], ps[j := ps[j][1..]]);
      InterleavingKeepsEvents(q[1..], ps[j := ps[j][1..]]);
      PageBagDrop(ps, j);
    }
  }

  lemma {:induction false} ShardPagesCover(events: seq<LogRecord>, shards: seq<seq<string>>, ps: seq<seq<seq<LogRecord>>>)
    requires |ps| == |shards| && Disjoint(shards)
    requires forall j :: 0 <= j < |ps| ==> multiset(Flatten(ps[j])) == multiset(Select(events, Names(shards[j])))
    ensures PageBag(ps) == multiset(Select(events, AllNames(shards)))
  {
    if shards == [] {
      NothingSelected(events);
    } else {
      ShardPagesCover(events, shards[1..], ps[1..]);
      forall s | s in Names(shards[0]) ensures s !in AllNames(shards[1..]) {
        InAllNames(shards[1..], s);
        assert forall j :: 0 <= j < |shards[1..]| ==> shards[1..][j] == shards[j + 1];
      }
      SelectUnion(events, Names(shards[0]), AllNames(shards[1..]));
    }
  }

  lemma {:induction false} NothingSelected(events: seq<LogRecord>)
    ensures Select(events, {}) == []
  {
    if events != [] {
      NothingSelected(events[1..]);
    }
  }

  /**
   * Whatever order the shards' pages complete in, a sharded window sees exactly
   * the events an unsharded one does, provided every event's stream was listed.
   */
  lemma ShardedPagingSeesSameEvents(
    events: seq<LogRecord>, streams: seq<string>, n: nat, shards: seq<seq<string>>,
    ps: seq<seq<seq<LogRecord>>>, q: seq<seq<LogRecord>>)
    requires n > 0 && Distinct(streams)
    requires forall e :: e in events ==> e.stream in streams
    requires |shards| == n && forall j :: 0 <= j < n ==> shards[j] == Shard(streams, j, n)
    requires |ps| == n
    requires forall j :: 0 <= j < n ==> multiset(Flatten(ps[j])) == multiset(Select(events, Names(shards[j])))
    requires Interleaving(q, ps)
    ensures multiset(Flatten(q)) == multiset(events)
  {
    PartitionIsDisjointAndComplete(streams, n, shards);
    InterleavingKeepsEvents(q, ps);
    ShardPagesCover(events, shards, ps);
    SelectAll(events, Names(streams));
  }
}
