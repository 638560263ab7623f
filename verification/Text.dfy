/** String pieces the key layout is built from: separators, decimal numbers, prefixes and suffixes. */
module Text {
  import opened Common

  function SplitOn(s: string, sep: char): (ps: seq<string>)
    ensures |ps| >= 1
  {
    if s == [] then [[]]
    else
      var r := SplitOn(s[1..], sep);
      if s[0] == sep then [[]] + r else [[s[0]] + r[0]] + r[1..]
  }

  /** Put one character before the pieces of the rest. */
  function SplitCons(c: char, r: seq<string>, sep: char): seq<string>
    requires |r| >= 1
  {
    if c == sep then [[]] + r else [[c] + r[0]] + r[1..]
  }

  lemma SplitFirst(s: string, sep: char)
    requires s != []
    ensures SplitOn(s, sep) == SplitCons(s[0], SplitOn(s[1..], sep), sep)
  {
  }

  lemma SplitConsAppend(c: char, r: seq<string>, t: seq<string>, sep: char)
    requires |r| >= 1
    ensures SplitCons(c, r + t, sep) == SplitCons(c, r, sep) + t
  {
    assert (r + t)[0] == r[0] && (r + t)[1..] == r[1..] + t;
  }

  /** Splitting commutes with joining at a separator. */
  lemma {:induction false} SplitJoin(a: string, b: string, sep: char)
    ensures SplitOn(a + [sep] + b, sep) == SplitOn(a, sep) + SplitOn(b, sep)
  {
    var s := a + [sep] + b;
    if a == [] {
      assert s[1..] == b;
    } else {
      hide SplitOn, SplitCons;
      SplitJoin(a[1..], b, sep);
      SplitFirst(s, sep);
      SplitFirst(a, sep);
      assert s[0] == a[0] && s[1..] == a[1..] + [sep] + b;
      SplitConsAppend(a[0], SplitOn(a[1..], sep), SplitOn(b, sep), sep);
    }
  }

  lemma {:induction false} SplitNone(a: string, sep: char)
    requires sep !in a
    ensures SplitOn(a, sep) == [a]
  {
    if a != [] {
      SplitNone(a[1..], sep);
      assert a == [a[0]] + a[1..];
    }
  }

  lemma {:induction false} SplitSome(a: string, sep: char)
    ensures sep in a <==> |SplitOn(a, sep)| >= 2
  {
    if a != [] {
      SplitSome(a[1..], sep);
    }
  }

  /** Number of pieces is additive, less one. */
  lemma {:induction false} SplitCount(a: string, b: string, sep: char)
    ensures |SplitOn(a + b, sep)| == |SplitOn(a, sep)| + |SplitOn(b, sep)| - 1
  {
    if a == [] {
      assert a + b == b;
    } else {
      SplitCount(a[1..], b, sep);
      assert (a + b)[0] == a[0] && (a + b)[1..] == a[1..] + b;
    }
  }

  function StripPrefix(s: string, p: string): Option<string> {
    if p <= s then Some(s[|p|..]) else None
  }

  function StripSuffix(s: string, p: string): Option<string> {
    if |p| <= |s| && s[|s| - |p|..] == p then Some(s[..|s| - |p|]) else None
  }

  lemma StripPrefixOf(p: string, s: string)
    ensures StripPrefix(p + s, p) == Some(s)
  {
    assert (p + s)[|p|..] == s;
  }

  lemma StripSuffixOf(s: string, p: string)
    ensures StripSuffix(s + p, p) == Some(s)
  {
    assert (s + p)[|s|..] == p && (s + p)[..|s|] == s;
  }

  /** The text after the last separator (all of it when there is none). */
  function AfterLast(s: string, sep: char): (r: string)
    ensures |r| <= |s| && sep !in r
    ensures sep !in s ==> r == s
    ensures sep in s ==> |r| < |s|
  {
    if s == [] || s[|s| - 1] == sep then []
    else AfterLast(s[..|s| - 1], sep) + [s[|s| - 1]]
  }

  lemma {:induction false} AfterLastJoin(a: string, b: string, sep: char)
    requires sep !in b
    ensures AfterLast(a + [sep] + b, sep) == b
  {
    var s := a + [sep] + b;
    if b != [] {
      AfterLastJoin(a, b[..|b| - 1], sep);
      assert s[..|s| - 1] == a + [sep] + b[..|b| - 1];
      assert b == b[..|b| - 1] + [b[|b| - 1]];
    }
  }

  function RSplitOnce(s: string, sep: char): Option<(string, string)> {
    if sep !in s then None
    else
      var r := AfterLast(s, sep);
      Some((s[..|s| - |r| - 1], r))
  }

  lemma RSplitOnceJoin(a: string, b: string, sep: char)
    requires sep !in b
    ensures RSplitOnce(a + [sep] + b, sep) == Some((a, b))
  {
    var s := a + [sep] + b;
    AfterLastJoin(a, b, sep);
    assert s[|a|] == sep;
    assert s[..|a|] == a;
  }

  /** Split at the first separator. */
  function SplitOnce(s: string, sep: char): Option<(string, string)> {
    if s == [] then None
    else if s[0] == sep then Some(([], s[1..]))
    else
      match SplitOnce(s[1..], sep)
      case None => None
      case Some(p) => Some(([s[0]] + p.0, p.1))
  }

  lemma {:induction false} SplitOnceJoin(a: string, b: string, sep: char)
    requires sep !in a
    ensures SplitOnce(a + [sep] + b, sep) == Some((a, b))
  {
    var s := a + [sep] + b;
    if a == [] {
      assert s[1..] == b;
    } else {
      SplitOnceJoin(a[1..], b, sep);
      assert s[0] == a[0] && s[1..] == a[1..] + [sep] + b;
      assert a == [a[0]] + a[1..];
    }
  }

  // ----- Decimal numbers -----

  predicate IsDigit(c: char) {
    '0' <= c <= '9'
  }

  function DigitChar(n: nat): (c: char)
    requires n < 10
    ensures IsDigit(c) && DigitOf(c) == n
  {
    ('0' as int + n) as char
  }

  function DigitOf(c: char): (n: nat)
    requires IsDigit(c)
    ensures n < 10
  {
    c as int - '0' as int
  }

  ghost predicate AllDigits(s: string) {
    forall i :: 0 <= i < |s| ==> IsDigit(s[i])
  }

  function Decimal(n: nat): (s: string)
    ensures s != []
    ensures AllDigits(s)
  {
    if n < 10 then [DigitChar(n)] else Decimal(n / 10) + [DigitChar(n % 10)]
  }

  function DecimalInt(n: int): string {
    if n < 0 then "-" + Decimal(-n) else Decimal(n)
  }

  function Zeros(k: nat): (s: string)
    ensures |s| == k && AllDigits(s)
  {
    if k == 0 then [] else ['0'] + Zeros(k - 1)
  }

  /** Zero-padded to at least the given width. */
  function Padded(n: nat, width: nat): (s: string)
    ensures AllDigits(s) && |s| >= width && s != []
  {
    var d := Decimal(n);
    if |d| >= width then d else Zeros(width - |d|) + d
  }

  function DigitsValue(s: string): Option<nat> {
    if s == [] then Some(0)
    else if !IsDigit(s[|s| - 1]) then None
    else
      match DigitsValue(s[..|s| - 1])
      case None => None
      case Some(v) => Some(10 * v + DigitOf(s[|s| - 1]))
  }

  function ParseNat(s: string): Option<nat> {
    if s == [] then None else DigitsValue(s)
  }

  /** Integer parsing as the standard library does it: optional sign, digits, range check. */
  function ParseI64(s: string): Option<int> {
    if s == [] then None
    else
      var v := if s[0] == '-' || s[0] == '+' then ParseNat(s[1..]) else ParseNat(s);
      match v
      case None => None
      case Some(n) =>
        var m: int := n;
        var x := if s[0] == '-' then -m else m;
        if I64_MIN <= x <= I64_MAX then Some(x) else None
  }

  lemma {:induction false} DecimalRoundTrip(n: nat)
    ensures DigitsValue(Decimal(n)) == Some(n)
  {
    if n < 10 {
      assert Decimal(n)[..0] == [];
    } else {
      DecimalRoundTrip(n / 10);
      assert Decimal(n)[..|Decimal(n)| - 1] == Decimal(n / 10);
    }
  }

  lemma {:induction false} LeadingZeros(k: nat, s: string)
    ensures DigitsValue(Zeros(k) + s) == DigitsValue(s)
    decreases |s|, k
  {
    if s == [] {
      assert Zeros(k) + s == Zeros(k);
      ZerosValue(k);
    } else {
      LeadingZeros(k, s[..|s| - 1]);
      assert (Zeros(k) + s)[..|Zeros(k) + s| - 1] == Zeros(k) + s[..|s| - 1];
    }
  }

  lemma {:induction false} ZerosSnoc(k: nat)
    ensures Zeros(k + 1) == Zeros(k) + ['0']
  {
    if k > 0 {
      ZerosSnoc(k - 1);
    }
  }

  lemma {:induction false} ZerosValue(k: nat)
    ensures DigitsValue(Zeros(k)) == Some(0)
  {
    if k > 0 {
      ZerosValue(k - 1);
      ZerosSnoc(k - 1);
      assert Zeros(k)[..k - 1] == Zeros(k - 1);
    }
  }

  /** A padded number reads back as the number. */
  lemma PaddedRoundTrip(n: nat, width: nat)
    ensures ParseNat(Padded(n, width)) == Some(n)
  {
    DecimalRoundTrip(n);
    if |Decimal(n)| < width {
      LeadingZeros(width - |Decimal(n)|, Decimal(n));
    }
  }

  // ----- Padded numbers sort as numbers -----

  lemma {:induction false} StrLeSnoc(a: string, b: string, x: char, y: char)
    requires |a| == |b|
    ensures StrLe(a + [x], b + [y]) <==> if a == b then x <= y else StrLe(a, b)
    decreases |a|
  {
    if a != [] {
      StrLeSnoc(a[1..], b[1..], x, y);
      assert (a + [x])[0] == a[0] && (a + [x])[1..] == a[1..] + [x];
      assert (b + [y])[0] == b[0] && (b + [y])[1..] == b[1..] + [y];
      assert a == [a[0]] + a[1..] && b == [b[0]] + b[1..];
    }
  }

  lemma {:induction false} StrLePrefix(p: string, a: string, b: string)
    ensures StrLe(p + a, p + b) <==> StrLe(a, b)
  {
    if p == [] {
      assert p + a == a && p + b == b;
    } else {
      StrLePrefix(p[1..], a, b);
      assert (p + a)[0] == (p + b)[0] && (p + a)[1..] == p[1..] + a && (p + b)[1..] == p[1..] + b;
    }
  }

  /** Digits of the same length compare as the numbers they denote. */
  lemma {:induction false} DigitsOrder(a: string, b: string)
    requires AllDigits(a) && AllDigits(b) && |a| == |b|
    ensures DigitsValue(a).Some? && DigitsValue(b).Some?
    ensures StrLe(a, b) <==> DigitsValue(a).value <= DigitsValue(b).value
    decreases |a|
  {
    if a != [] {
      var n := |a| - 1;
      DigitsOrder(a[..n], b[..n]);
      DigitsOrder(b[..n], a[..n]);
      StrLeTotal(a[..n], b[..n]);
      StrLeSnoc(a[..n], b[..n], a[n], b[n]);
      assert a == a[..n] + [a[n]] && b == b[..n] + [b[n]];
    }
  }

  lemma {:induction false} DecimalWidth(n: nat, k: nat, bound: nat)
    requires k > 0 && bound == PowerOf10(k) && n < bound
    ensures |Decimal(n)| <= k
    decreases k
  {
    if n >= 10 {
      DecimalWidth(n / 10, k - 1, PowerOf10(k - 1));
    }
  }

  function PowerOf10(k: nat): nat {
    if k == 0 then 1 else 10 * PowerOf10(k - 1)
  }

  lemma DecimalIntHasNo(n: int, c: char)
    requires !IsDigit(c) && c != '-'
    ensures c !in DecimalInt(n)
  {
  }

  lemma PowersOf10()
    ensures PowerOf10(2) == 100 && PowerOf10(4) == 10_000
  {
    assert PowerOf10(4) == 10 * (10 * PowerOf10(2));
  }

  /** A signed number reads back, within range. */
  lemma DecimalIntRoundTrip(n: int)
    requires I64_MIN <= n <= I64_MAX
    ensures ParseI64(DecimalInt(n)) == Some(n)
  {
    if n < 0 {
      DecimalRoundTrip(-n);
      assert DecimalInt(n)[1..] == Decimal(-n);
    } else {
      DecimalRoundTrip(n);
    }
  }
}
