/** Types and sequence facts shared by every component of the S4 Logs model. */
module Common {

  datatype Option<+T> = None | Some(value: T)
  {
    function GetOr(default: T): T {
      if Some? then value else default
    }
  }

  datatype Result<+T, +E> = Ok(value: T) | Err(error: E)

  const I64_MAX: int := 0x7FFF_FFFF_FFFF_FFFF
  const I64_MIN: int := -0x8000_0000_0000_0000

  /** A signed 64-bit value; every timestamp is epoch milliseconds of this type. */
  type I64 = x: int | I64_MIN <= x <= I64_MAX

  newtype byte = x: int | 0 <= x < 256

  const NEWLINE: byte := 10
  const CARRIAGE_RETURN: byte := 13

  const DAY_MS: int := 86_400_000

  /** One event as stored on a JSONL line. */
  datatype LogRecord = LogRecord(
    timestamp: I64,
    stream: string,
    message: string,
    ingestionTime: Option<I64>,
    eventId: Option<string>)

  /** The UTC date partition of a timestamp, as a day number (floor division). */
  function Day(ts: int): int {
    ts / DAY_MS
  }

  function Min(a: int, b: int): int {
    if a <= b then a else b
  }

  function Max(a: int, b: int): int {
    if a <= b then b else a
  }

  /** Two's-complement saturation: the i64 nearest to x. */
  function Saturate(x: int): I64 {
    if x < I64_MIN then I64_MIN else if x > I64_MAX then I64_MAX else x
  }

  function Flatten<T>(ss: seq<seq<T>>): seq<T> {
    if ss == [] then [] else ss[0] + Flatten(ss[1..])
  }

  lemma TakeSnoc<T>(s: seq<T>, i: nat)
    requires i < |s|
    ensures s[..i + 1] == s[..i] + [s[i]]
    ensures s[..i + 1][..i] == s[..i] && s[..i + 1][i] == s[i]
  {
  }

  lemma TakeAll<T>(s: seq<T>)
    ensures s[..|s|] == s && s[0..] == s && s[..0] == [] && s[|s|..] == []
  {
  }

  lemma Assoc<T>(x: seq<T>, y: seq<T>, z: seq<T>)
    ensures x + y + z == x + (y + z)
  {
  }

  lemma BagAssoc<T>(x: multiset<T>, y: multiset<T>, z: multiset<T>)
    ensures x + (y + z) == x + y + z && x + (y + z) == y + (x + z)
  {
  }

  lemma {:induction false} FlattenAppend<T>(a: seq<seq<T>>, b: seq<seq<T>>)
    ensures Flatten(a + b) == Flatten(a) + Flatten(b)
  {
    if a == [] {
      assert a + b == b;
    } else {
      FlattenAppend(a[1..], b);
      assert (a + b)[0] == a[0] && (a + b)[1..] == a[1..] + b;
      Assoc(a[0], Flatten(a[1..]), Flatten(b));
    }
  }

  lemma FlattenSnoc<T>(a: seq<seq<T>>, x: seq<T>)
    ensures Flatten(a + [x]) == Flatten(a) + x
  {
    FlattenAppend(a, [x]);
    assert [x][1..] == [];
  }

  lemma {:induction false} FlattenMember<T>(ss: seq<seq<T>>, x: T)
    ensures x in Flatten(ss) <==> exists i :: 0 <= i < |ss| && x in ss[i]
  {
    if ss != [] {
      FlattenMember(ss[1..], x);
      if x in Flatten(ss) && x !in ss[0] {
        var i :| 0 <= i < |ss[1..]| && x in ss[1..][i];
        assert x in ss[i + 1];
      }
      if i :| 0 <= i < |ss| && x in ss[i] {
        if i > 0 {
          assert x in ss[1..][i - 1];
        }
      }
    }
  }

  /** The non-empty pieces between newline bytes; a final piece needs no terminator. */
  function NonEmptyLines(b: seq<byte>): seq<seq<byte>>
    decreases |b|
  {
    if b == [] then []
    else
      var i := FirstNewline(b);
      var rest := if i < |b| then NonEmptyLines(b[i + 1..]) else [];
      if i == 0 then rest else [b[..i]] + rest
  }

  /** Position of the first newline byte, or the length when there is none. */
  function FirstNewline(b: seq<byte>): (i: nat)
    ensures i <= |b|
    ensures i < |b| ==> b[i] == NEWLINE
    ensures NEWLINE !in b[..i]
  {
    if b == [] || b[0] == NEWLINE then 0
    else
      var j := FirstNewline(b[1..]);
      assert b[..j + 1] == [b[0]] + b[1..][..j];
      j + 1
  }

  lemma {:induction false} FirstNewlineIs(x: seq<byte>, rest: seq<byte>)
    requires NEWLINE !in x
    requires rest == [] || rest[0] == NEWLINE
    ensures FirstNewline(x + rest) == |x|
  {
    if x == [] {
      assert x + rest == rest;
    } else {
      assert (x + rest)[1..] == x[1..] + rest;
      FirstNewlineIs(x[1..], rest);
    }
  }

  /** A terminated line is split off whole, whatever follows it. */
  lemma LineThenRest(x: seq<byte>, rest: seq<byte>)
    requires NEWLINE !in x && x != []
    ensures NonEmptyLines(x + [NEWLINE] + rest) == [x] + NonEmptyLines(rest)
  {
    var b := x + [NEWLINE] + rest;
    assert b == x + ([NEWLINE] + rest);
    FirstNewlineIs(x, [NEWLINE] + rest);
    assert b[..|x|] == x && b[|x| + 1..] == rest;
  }

  /** A blank line is skipped. */
  lemma BlankLine(rest: seq<byte>)
    ensures NonEmptyLines([10] + rest) == NonEmptyLines(rest)
  {
    assert ([NEWLINE] + rest)[1..] == rest;
  }

  /** A piece without a terminator is one final line. */
  lemma UnterminatedLine(x: seq<byte>)
    requires NEWLINE !in x
    ensures NonEmptyLines(x) == if x == [] then [] else [x]
  {
    if x != [] {
      FirstNewlineIs(x, []);
      assert x + [] == x && x[..|x|] == x;
    }
  }

  /** Byte-wise lexicographic order, as Rust compares strings. */
  predicate StrLe(a: string, b: string) {
    if a == [] then true
    else if b == [] then false
    else a[0] < b[0] || (a[0] == b[0] && StrLe(a[1..], b[1..]))
  }

  /** The strings differ first at i, where a is smaller. */
  ghost predicate SmallerAt(a: string, b: string, i: nat) {
    i < |a| && i < |b| && a[..i] == b[..i] && a[i] < b[i]
  }

  lemma SmallerInTail(a: string, b: string, i: nat)
    requires a != [] && b != [] && a[0] == b[0]
    ensures SmallerAt(a, b, i + 1) <==> SmallerAt(a[1..], b[1..], i)
  {
    if i < |a| && i < |b| {
      assert a[..i + 1] == [a[0]] + a[1..][..i] && b[..i + 1] == [b[0]] + b[1..][..i];
      assert a[1..][..i] == a[..i + 1][1..] && b[1..][..i] == b[..i + 1][1..];
    }
  }

  lemma PrefixInTail(a: string, b: string)
    requires a != [] && b != [] && a[0] == b[0]
    ensures a <= b <==> a[1..] <= b[1..]
  {
    assert a == [a[0]] + a[1..] && b == [b[0]] + b[1..];
  }

  /** A beginning of the other string, or smaller at the first difference. */
  lemma {:induction false} StrLeMeans(a: string, b: string)
    ensures StrLe(a, b) <==> a <= b || exists i: nat :: SmallerAt(a, b, i)
    decreases |a|
  {
    if a != [] && b != [] {
      if a[0] == b[0] {
        StrLeMeans(a[1..], b[1..]);
        PrefixInTail(a, b);
        hide SmallerAt;
        if i: nat :| SmallerAt(a[1..], b[1..], i) {
          SmallerInTail(a, b, i);
        }
        if i: nat :| SmallerAt(a, b, i) {
          NotAtHead(a, b, i);
          SmallerInTail(a, b, i - 1);
        }
      } else {
        SmallerAtHead(a, b);
      }
    }
  }

  lemma NotAtHead(a: string, b: string, i: nat)
    requires SmallerAt(a, b, i) && a[0] == b[0]
    ensures i > 0
  {
  }

  lemma SmallerAtHead(a: string, b: string)
    requires a != [] && b != [] && a[0] != b[0]
    ensures (exists i: nat :: SmallerAt(a, b, i)) <==> a[0] < b[0]
    ensures !(a <= b)
  {
    assert a[..0] == b[..0];
    assert a[0] < b[0] ==> SmallerAt(a, b, 0);
    if i: nat :| SmallerAt(a, b, i) {
      SameHead(a, b, i);
    }
  }

  lemma SameHead(a: string, b: string, i: nat)
    requires SmallerAt(a, b, i)
    ensures i > 0 ==> a[0] == b[0]
  {
    assert i > 0 ==> a[..i][0] == a[0] && b[..i][0] == b[0];
  }

  lemma {:induction false} StrLeTotal(a: string, b: string)
    ensures StrLe(a, b) || StrLe(b, a)
    ensures StrLe(a, b) && StrLe(b, a) ==> a == b
    decreases |a|
  {
    if a != [] && b != [] {
      StrLeTotal(a[1..], b[1..]);
      if a[0] == b[0] && a[1..] == b[1..] {
        assert a == [a[0]] + a[1..] == [b[0]] + b[1..] == b;
      }
    }
  }

  lemma {:induction false} StrLeTransitive(a: string, b: string, c: string)
    requires StrLe(a, b) && StrLe(b, c)
    ensures StrLe(a, c)
    decreases |a|
  {
    if a != [] && a[0] == b[0] == c[0] {
      StrLeTransitive(a[1..], b[1..], c[1..]);
    }
  }

  /** Quotient and remainder are unique. */
  lemma ModAt(x: int, m: int, q: int, r: int)
    requires m > 0 && x == q * m + r && 0 <= r < m
    ensures x / m == q && x % m == r
  {
    var d := x / m - q;
    assert x == (x / m) * m + x % m;
    assert d * m == r - x % m;
    MulAtLeast(d, m);
  }

  lemma MulAtLeast(d: int, m: int)
    requires m > 0
    ensures d >= 1 ==> d * m >= m
    ensures d <= -1 ==> d * m <= -m
  {
  }

  lemma ModPlusMultiple(q: int, m: int, k: int)
    requires m > 0
    ensures (q * m + k) % m == k % m
  {
    assert k == (k / m) * m + k % m;
    assert q * m + k == (q + k / m) * m + k % m;
    ModAt(q * m + k, m, q + k / m, k % m);
  }
}
