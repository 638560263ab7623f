/**
 * The object-key layout: percent-encoded group names, data and manifest keys,
 * object names, and the parsers that read them back.
 *
 * A Rust string is modelled as its UTF-8 bytes, one char below 256 each;
 * String::from_utf8 is the parameter utf8.
 */
module Layout {
  import opened Common
  import opened Text

  const DATA_SUFFIX: string := ".jsonl.zst"

  ghost predicate Bytes(s: string) {
    forall i :: 0 <= i < |s| ==> s[i] as int < 256
  }

  // ----- Group names -----

  predicate Unreserved(c: char) {
    'A' <= c <= 'Z' || 'a' <= c <= 'z' || '0' <= c <= '9' || c == '_' || c == '.' || c == '-'
  }

  function HexChar(n: nat): char
    requires n < 16
  {
    if n < 10 then ('0' as int + n) as char else ('A' as int + n - 10) as char
  }

  /** to_digit(16): either letter case. */
  function HexValue(c: char): Option<nat> {
    if '0' <= c <= '9' then Some(c as int - '0' as int)
    else if 'A' <= c <= 'F' then Some(c as int - 'A' as int + 10)
    else if 'a' <= c <= 'f' then Some(c as int - 'a' as int + 10)
    else None
  }

  function EscapeByte(c: char): string
    requires c as int < 256
  {
    if Unreserved(c) then [c] else ['%', HexChar(c as int / 16), HexChar(c as int % 16)]
  }

  function Sanitize(g: string): string
    requires Bytes(g)
  {
    if g == [] then [] else EscapeByte(g[0]) + Sanitize(g[1..])
  }

  function UnescapeBytes(s: string): Option<string> {
    if s == [] then Some([])
    else if s[0] == '%' then
      if |s| < 3 then None
      else
        match (HexValue(s[1]), HexValue(s[2]), UnescapeBytes(s[3..]))
        case (Some(hi), Some(lo), Some(rest)) => Some([(hi * 16 + lo) as char] + rest)
        case _ => None
    else
      match UnescapeBytes(s[1..])
      case Some(rest) => Some([s[0]] + rest)
      case None => None
  }

  function Unsanitize(s: string, utf8: string -> bool): Option<string> {
    match UnescapeBytes(s)
    case Some(t) => if utf8(t) then Some(t) else None
    case None => None
  }

  /** The percent-encoding loop. */
  method SanitizeLogGroup(group: string) returns (out: string)
    requires Bytes(group)
    ensures out == Sanitize(group)
  {
    out := [];
    for i := 0 to |group|
      invariant Sanitize(group) == out + Sanitize(group[i..])
    {
      assert group[i..][0] == group[i] && group[i..][1..] == group[i + 1..];
      Assoc(out, EscapeByte(group[i]), Sanitize(group[i + 1..]));
      if Unreserved(group[i]) {
        out := out + [group[i]];
      } else {
        out := out + ['%', HexChar(group[i] as int / 16), HexChar(group[i] as int % 16)];
      }
    }
    assert group[|group|..] == [];
  }

  function Prepend(out: string, o: Option<string>): Option<string> {
    match o case None => None case Some(t) => Some(out + t)
  }

  lemma PrependNothing(o: Option<string>)
    ensures Prepend([], o) == o
  {
    if o.Some? {
      assert [] + o.value == o.value;
    }
  }

  lemma PrependTwice(out: string, c: char, o: Option<string>)
    ensures Prepend(out, Prepend([c], o)) == Prepend(out + [c], o)
  {
    if o.Some? {
      Assoc(out, [c], o.value);
    }
  }

  /** The decoding loop; None on a truncated escape, a non-hex digit, or invalid UTF-8. */
  method UnsanitizeLogGroup(s: string, utf8: string -> bool) returns (r: Option<string>)
    ensures r == Unsanitize(s, utf8)
  {
    var out: string := [];
    var i := 0;
    PrependNothing(UnescapeBytes(s));
    assert s[0..] == s;
    while i < |s|
      invariant 0 <= i <= |s|
      invariant UnescapeBytes(s) == Prepend(out, UnescapeBytes(s[i..]))
      decreases |s| - i
    {
      assert s[i..][0] == s[i];
      if s[i] == '%' {
        if i + 3 > |s| {
          return None;
        }
        assert s[i..][1] == s[i + 1] && s[i..][2] == s[i + 2] && s[i..][3..] == s[i + 3..];
        var hi, lo := HexValue(s[i + 1]), HexValue(s[i + 2]);
        if hi.None? || lo.None? {
          return None;
        }
        PrependTwice(out, (hi.value * 16 + lo.value) as char, UnescapeBytes(s[i + 3..]));
        out := out + [(hi.value * 16 + lo.value) as char];
        i := i + 3;
      } else {
        assert s[i..][1..] == s[i + 1..];
        PrependTwice(out, s[i], UnescapeBytes(s[i + 1..]));
        out := out + [s[i]];
        i := i + 1;
      }
    }
    assert s[i..] == [] && out + [] == out;
    return if utf8(out) then Some(out) else None;
  }

  lemma EscapeByteInverts(c: char, rest: string)
    requires c as int < 256
    ensures UnescapeBytes(EscapeByte(c) + rest) ==
            match UnescapeBytes(rest) case None => None case Some(t) => Some([c] + t)
  {
    var s := EscapeByte(c) + rest;
    if Unreserved(c) {
      assert s[0] == c && s[1..] == rest;
    } else {
      var n := c as int;
      assert s[0] == '%' && s[1] == HexChar(n / 16) && s[2] == HexChar(n % 16) && s[3..] == rest;
      assert HexValue(HexChar(n / 16)) == Some(n / 16) && HexValue(HexChar(n % 16)) == Some(n % 16);
    }
  }

  lemma {:induction false} UnescapeSanitize(g: string)
    requires Bytes(g)
    ensures UnescapeBytes(Sanitize(g)) == Some(g)
  {
    if g != [] {
      UnescapeSanitize(g[1..]);
      EscapeByteInverts(g[0], Sanitize(g[1..]));
      assert g == [g[0]] + g[1..];
    }
  }

  /** Every group name survives sanitize then unsanitize. */
  lemma SanitizeRoundTrip(g: string, utf8: string -> bool)
    requires Bytes(g) && utf8(g)
    ensures Unsanitize(Sanitize(g), utf8) == Some(g)
  {
    UnescapeSanitize(g);
  }

  /** Text the encoder can produce: unreserved characters and upper-case escapes of reserved bytes. */
  predicate Canonical(s: string) {
    if s == [] then true
    else if s[0] == '%' then
      && |s| >= 3
      && HexValue(s[1]).Some? && HexValue(s[2]).Some?
      && !('a' <= s[1] <= 'f') && !('a' <= s[2] <= 'f')
      && !Unreserved((HexValue(s[1]).value * 16 + HexValue(s[2]).value) as char)
      && Canonical(s[3..])
    else Unreserved(s[0]) && Canonical(s[1..])
  }

  /** The other direction holds exactly on canonical text: "%2f" and "/" both decode but re-encode differently. */
  lemma {:induction false} UnsanitizeRoundTrip(s: string)
    requires Bytes(s) && UnescapeBytes(s).Some?
    ensures Bytes(UnescapeBytes(s).value)
    ensures Sanitize(UnescapeBytes(s).value) == s <==> Canonical(s)
    decreases |s|
  {
    hide Sanitize, EscapeByte;
    if s == [] {
      SanitizeEmpty();
    } else if s[0] == '%' {
      UnsanitizeRoundTrip(s[3..]);
      var n, t := HexValue(s[1]).value * 16 + HexValue(s[2]).value, UnescapeBytes(s[3..]).value;
      SanitizeCons(n as char, t);
      HexPair(s[1], s[2]);
      assert s == ['%', s[1], s[2]] + s[3..];
      EscapePrefix(EscapeByte(n as char), Sanitize(t), ['%', s[1], s[2]], s[3..]);
    } else {
      UnsanitizeRoundTrip(s[1..]);
      var t := UnescapeBytes(s[1..]).value;
      SanitizeCons(s[0], t);
      assert s == [s[0]] + s[1..];
      EscapePrefix(EscapeByte(s[0]), Sanitize(t), [s[0]], s[1..]);
    }
  }

  lemma SanitizeEmpty()
    ensures Sanitize([]) == []
  {
  }

  lemma SanitizeCons(c: char, t: string)
    requires c as int < 256 && Bytes(t)
    ensures Bytes([c] + t) && Sanitize([c] + t) == EscapeByte(c) + Sanitize(t)
    ensures EscapeByte(c) != [] && (EscapeByte(c)[0] == '%' ==> |EscapeByte(c)| == 3)
    ensures EscapeByte(c)[0] != '%' ==> EscapeByte(c) == [c]
    ensures EscapeByte(c) == [c] <==> Unreserved(c)
  {
    assert ([c] + t)[0] == c && ([c] + t)[1..] == t;
  }

  lemma HexPair(a: char, b: char)
    requires HexValue(a).Some? && HexValue(b).Some?
    ensures var n := HexValue(a).value * 16 + HexValue(b).value;
            EscapeByte(n as char) == ['%', a, b] <==>
            !Unreserved(n as char) && !('a' <= a <= 'f') && !('a' <= b <= 'f')
  {
    var n := HexValue(a).value * 16 + HexValue(b).value;
    assert n / 16 == HexValue(a).value && n % 16 == HexValue(b).value;
  }

  lemma EscapePrefix(x: string, y: string, p: string, q: string)
    requires x != [] && p != [] && (x[0] == '%' ==> |x| == 3) && (x[0] != '%' ==> |x| == 1)
    requires (p[0] == '%' ==> |p| == 3) && (p[0] != '%' ==> |p| == 1)
    ensures x + y == p + q <==> x == p && y == q
  {
    if x + y == p + q {
      assert (x + y)[0] == x[0] && (p + q)[0] == p[0];
      assert (x + y)[..|x|] == x && (p + q)[..|x|] == p;
      assert (x + y)[|x|..] == y && (p + q)[|x|..] == q;
    }
  }

  lemma {:induction false} SanitizeHasNoSeparator(g: string)
    requires Bytes(g)
    ensures '/' !in Sanitize(g) && '=' !in Sanitize(g)
  {
    if g != [] {
      SanitizeHasNoSeparator(g[1..]);
    }
  }

  lemma SanitizeInjective(g: string, h: string)
    requires Bytes(g) && Bytes(h) && Sanitize(g) == Sanitize(h)
    ensures g == h
  {
    UnescapeSanitize(g);
    UnescapeSanitize(h);
  }

  lemma {:induction false} SanitizeGrows(g: string)
    requires Bytes(g)
    ensures |Sanitize(g)| >= |g|
  {
    if g != [] {
      SanitizeGrows(g[1..]);
    }
  }

  /** Text is left as it is exactly when it consists of letters, digits, underscores, dots and dashes. */
  lemma {:induction false} SanitizeKeepsPlain(g: string)
    requires Bytes(g)
    ensures Sanitize(g) == g <==>
            forall i :: 0 <= i < |g| ==> 'A' <= g[i] <= 'Z' || 'a' <= g[i] <= 'z' || '0' <= g[i] <= '9' || g[i] == '_' || g[i] == '.' || g[i] == '-'
  {
    if g != [] {
      SanitizeKeepsPlain(g[1..]);
      SanitizeGrows(g[1..]);
      if Unreserved(g[0]) {
        assert Sanitize(g)[0] == g[0] && Sanitize(g)[1..] == Sanitize(g[1..]);
        assert g == [g[0]] + g[1..];
        assert forall i :: 0 <= i < |g[1..]| ==> g[1..][i] == g[i + 1];
      }
    }
  }

  /** Escapes are read in either letter case: here in lower case. */
  lemma LowerCaseEscape(n: nat, rest: string)
    requires n < 256
    ensures var digit := (k: int) requires 0 <= k < 16 => if k < 10 then ('0' as int + k) as char else ('a' as int + k - 10) as char;
            UnescapeBytes(['%', digit(n / 16), digit(n % 16)] + rest) ==
            match UnescapeBytes(rest) case Some(r) => Some([n as char] + r) case None => None
  {
    var digit := (k: int) requires 0 <= k < 16 => if k < 10 then ('0' as int + k) as char else ('a' as int + k - 10) as char;
    var s := ['%', digit(n / 16), digit(n % 16)] + rest;
    assert s[3..] == rest;
    assert HexValue(s[1]) == Some(n / 16) && HexValue(s[2]) == Some(n % 16);
  }

  // ----- Data keys -----

  datatype ChunkLocation = ChunkLocation(account: string, logGroup: string, date: string, name: string)

  function TrimStart(s: string): string {
    if s != [] && s[0] == '/' then TrimStart(s[1..]) else s
  }

  function TrimEnd(s: string): string {
    if s != [] && s[|s| - 1] == '/' then TrimEnd(s[..|s| - 1]) else s
  }

  function NormPrefix(prefix: string): string {
    var trimmed := TrimEnd(TrimStart(prefix));
    if trimmed == [] then [] else trimmed + "/"
  }

  ghost predicate Slashes(s: string) {
    forall i :: 0 <= i < |s| ==> s[i] == '/'
  }

  lemma {:induction false} TrimStartSkips(a: string, p: string)
    requires Slashes(a) && (p == [] || p[0] != '/')
    ensures TrimStart(a + p) == p
  {
    if a == [] {
      assert a + p == p;
    } else {
      assert (a + p)[1..] == a[1..] + p;
      TrimStartSkips(a[1..], p);
    }
  }

  lemma {:induction false} TrimEndSkips(p: string, b: string)
    requires Slashes(b) && (p == [] || p[|p| - 1] != '/')
    ensures TrimEnd(p + b) == p
  {
    if b == [] {
      assert p + b == p;
    } else {
      var n := |b| - 1;
      assert (p + b)[..|p + b| - 1] == p + b[..n];
      TrimEndSkips(p, b[..n]);
    }
  }

  /** Slashes around a prefix make no difference; it ends in exactly one, and a prefix of slashes is none. */
  lemma PrefixIsTrimmed(a: string, p: string, b: string)
    requires Slashes(a) && Slashes(b) && (p != [] ==> p[0] != '/' && p[|p| - 1] != '/')
    ensures NormPrefix(a + p + b) == if p == [] then [] else p + "/"
  {
    if p == [] {
      TrimStartSkips(a + p + b, []);
      assert a + p + b + [] == a + p + b;
    } else {
      TrimStartSkips(a, p + b);
      Assoc(a, p, b);
      TrimEndSkips(p, b);
    }
  }

  function GroupPart(account: string, logGroup: string): string
    requires Bytes(logGroup)
  {
    ("account=" + account) + "/" + ("loggroup=" + Sanitize(logGroup))
  }

  function Tail(loc: ChunkLocation): string
    requires Bytes(loc.logGroup)
  {
    GroupPart(loc.account, loc.logGroup) + "/" + (("dt=" + loc.date) + "/" + (loc.name + DATA_SUFFIX))
  }

  function DataKey(prefix: string, loc: ChunkLocation): string
    requires Bytes(loc.logGroup)
  {
    (NormPrefix(prefix) + "data/") + Tail(loc)
  }

  function ParseDataKey(prefix: string, key: string, utf8: string -> bool): Option<ChunkLocation> {
    match StripPrefix(key, NormPrefix(prefix) + "data/")
    case None => None
    case Some(rest) =>
      var parts := SplitOn(rest, '/');
      if |parts| != 4 then None
      else
        match (StripPrefix(parts[0], "account="), StripPrefix(parts[1], "loggroup="),
               StripPrefix(parts[2], "dt="), StripSuffix(parts[3], DATA_SUFFIX))
        case (Some(account), Some(enc), Some(date), Some(name)) =>
          (match Unsanitize(enc, utf8)
           case Some(g) => Some(ChunkLocation(account, g, date, name))
           case None => None)
        case _ => None
  }

  predicate SlashFree(loc: ChunkLocation) {
    '/' !in loc.account && '/' !in loc.date && '/' !in loc.name
  }

  lemma LiteralPieces()
    ensures SplitOn("account=", '/') == ["account="] && SplitOn("loggroup=", '/') == ["loggroup="]
    ensures SplitOn("dt=", '/') == ["dt="] && SplitOn(DATA_SUFFIX, '/') == [DATA_SUFFIX]
    ensures SplitOn("manifest", '/') == ["manifest"]
  {
    hide SplitOn;
    SplitNone("account=", '/');
    SplitNone("loggroup=", '/');
    SplitNone("dt=", '/');
    SplitNone(DATA_SUFFIX, '/');
    SplitNone("manifest", '/');
  }

  lemma TailSplits(loc: ChunkLocation)
    requires Bytes(loc.logGroup)
    ensures SplitOn(Tail(loc), '/') ==
            SplitOn("account=" + loc.account, '/') + SplitOn("loggroup=" + Sanitize(loc.logGroup), '/')
            + (SplitOn("dt=" + loc.date, '/') + SplitOn(loc.name + DATA_SUFFIX, '/'))
  {
    hide SplitOn, Sanitize;
    SplitJoin(GroupPart(loc.account, loc.logGroup), ("dt=" + loc.date) + "/" + (loc.name + DATA_SUFFIX), '/');
    SplitJoin("account=" + loc.account, "loggroup=" + Sanitize(loc.logGroup), '/');
    SplitJoin("dt=" + loc.date, loc.name + DATA_SUFFIX, '/');
  }

  lemma TailPieceCount(loc: ChunkLocation)
    requires Bytes(loc.logGroup)
    ensures |SplitOn(Tail(loc), '/')| ==
            1 + |SplitOn(loc.account, '/')| + |SplitOn(loc.date, '/')| + |SplitOn(loc.name, '/')|
  {
    hide SplitOn, Sanitize, Tail;
    TailSplits(loc);
    SplitCount("account=", loc.account, '/');
    SplitCount("loggroup=", Sanitize(loc.logGroup), '/');
    SplitCount("dt=", loc.date, '/');
    SplitCount(loc.name, DATA_SUFFIX, '/');
    SanitizeHasNoSeparator(loc.logGroup);
    SplitNone(Sanitize(loc.logGroup), '/');
    LiteralPieces();
  }

  lemma TailPieces(loc: ChunkLocation)
    requires Bytes(loc.logGroup) && SlashFree(loc)
    ensures SplitOn(Tail(loc), '/') ==
            ["account=" + loc.account, "loggroup=" + Sanitize(loc.logGroup), "dt=" + loc.date, loc.name + DATA_SUFFIX]
  {
    hide SplitOn, Sanitize, Tail;
    TailSplits(loc);
    SanitizeHasNoSeparator(loc.logGroup);
    SplitNone("account=" + loc.account, '/');
    SplitNone("loggroup=" + Sanitize(loc.logGroup), '/');
    SplitNone("dt=" + loc.date, '/');
    SplitNone(loc.name + DATA_SUFFIX, '/');
  }

  /** A data key parses back to its location exactly when account, date and name hold no slash. */
  lemma DataKeyRoundTrip(prefix: string, loc: ChunkLocation, utf8: string -> bool)
    requires Bytes(loc.logGroup) && utf8(loc.logGroup)
    ensures ParseDataKey(prefix, DataKey(prefix, loc), utf8) == Some(loc) <==> SlashFree(loc)
  {
    hide Tail, SplitOn, Sanitize, NormPrefix;
    StripPrefixOf(NormPrefix(prefix) + "data/", Tail(loc));
    TailPieceCount(loc);
    SplitSome(loc.account, '/');
    SplitSome(loc.date, '/');
    SplitSome(loc.name, '/');
    if SlashFree(loc) {
      TailPieces(loc);
      StripPrefixOf("account=", loc.account);
      StripPrefixOf("loggroup=", Sanitize(loc.logGroup));
      StripPrefixOf("dt=", loc.date);
      StripSuffixOf(loc.name, DATA_SUFFIX);
      SanitizeRoundTrip(loc.logGroup, utf8);
    }
  }

  /** Data keys name one location each. */
  lemma DataKeyInjective(prefix: string, a: ChunkLocation, b: ChunkLocation)
    requires Bytes(a.logGroup) && Bytes(b.logGroup) && SlashFree(a) && SlashFree(b)
    requires DataKey(prefix, a) == DataKey(prefix, b)
    ensures a == b
  {
    DataKeyRoundTrip(prefix, a, _ => true);
    DataKeyRoundTrip(prefix, b, _ => true);
  }

  // ----- Manifest keys -----

  function WindowPart(startMs: int, endMs: int): string {
    "window=" + (DecimalInt(startMs) + "-" + DecimalInt(endMs)) + ".json"
  }

  function ManifestKey(prefix: string, account: string, logGroup: string, startMs: int, endMs: int): string
    requires Bytes(logGroup)
  {
    (NormPrefix(prefix) + "manifest/") + (GroupPart(account, logGroup) + "/" + WindowPart(startMs, endMs))
  }

  function ParseManifestKeyWindow(key: string): Option<(int, int)> {
    match StripPrefix(AfterLast(key, '/'), "window=")
    case None => None
    case Some(rest) =>
      match StripSuffix(rest, ".json")
      case None => None
      case Some(inner) =>
        match SplitOnce(inner, '-')
        case None => None
        case Some(p) =>
          match (ParseI64(p.0), ParseI64(p.1))
          case (Some(s), Some(e)) => Some((s, e))
          case _ => None
  }

  lemma DigitsHaveNo(s: string, c: char)
    requires AllDigits(s) && !IsDigit(c)
    ensures c !in s
  {
  }

  lemma WindowPartHasNoSlash(s: int, e: int)
    ensures '/' !in WindowPart(s, e)
  {
    hide DecimalInt;
    DecimalIntHasNo(s, '/');
    DecimalIntHasNo(e, '/');
  }

  lemma ManifestKeyTail(prefix: string, account: string, logGroup: string, s: int, e: int)
    requires Bytes(logGroup)
    ensures AfterLast(ManifestKey(prefix, account, logGroup, s, e), '/') == WindowPart(s, e)
  {
    hide NormPrefix, GroupPart, WindowPart;
    var front := NormPrefix(prefix) + "manifest/" + GroupPart(account, logGroup);
    assert ManifestKey(prefix, account, logGroup, s, e) == front + ['/'] + WindowPart(s, e);
    WindowPartHasNoSlash(s, e);
    AfterLastJoin(front, WindowPart(s, e), '/');
  }

  lemma StripWindowPart(s: int, e: int)
    ensures StripPrefix(WindowPart(s, e), "window=") == Some(DecimalInt(s) + "-" + DecimalInt(e) + ".json")
    ensures StripSuffix(DecimalInt(s) + "-" + DecimalInt(e) + ".json", ".json") == Some(DecimalInt(s) + "-" + DecimalInt(e))
  {
    hide DecimalInt;
    var inner := DecimalInt(s) + "-" + DecimalInt(e);
    assert WindowPart(s, e) == "window=" + (inner + ".json");
    StripPrefixOf("window=", inner + ".json");
    StripSuffixOf(inner, ".json");
  }

  /**
   * The window is read back from its manifest key exactly when it starts at or
   * after the epoch: the minus sign of a negative start is taken for the dash.
   */
  lemma ManifestKeyWindowRoundTrip(prefix: string, account: string, logGroup: string, s: int, e: int)
    requires Bytes(logGroup) && I64_MIN <= s <= I64_MAX && I64_MIN <= e <= I64_MAX
    ensures ParseManifestKeyWindow(ManifestKey(prefix, account, logGroup, s, e)) == Some((s, e)) <==> s >= 0
  {
    ManifestKeyTail(prefix, account, logGroup, s, e);
    StripWindowPart(s, e);
    if s >= 0 {
      InnerSplits(s, e);
      DecimalIntRoundTrip(s);
      DecimalIntRoundTrip(e);
    } else {
      NegativeInnerSplits(s, e);
    }
  }

  lemma InnerSplits(s: nat, e: int)
    ensures SplitOnce(DecimalInt(s) + "-" + DecimalInt(e), '-') == Some((DecimalInt(s), DecimalInt(e)))
  {
    DigitsHaveNo(Decimal(s), '-');
    SplitOnceJoin(Decimal(s), DecimalInt(e), '-');
  }

  lemma NegativeInnerSplits(s: int, e: int)
    requires s < 0
    ensures var p := SplitOnce(DecimalInt(s) + "-" + DecimalInt(e), '-');
            p.Some? && ParseI64(p.value.0) == None
  {
    var inner := DecimalInt(s) + "-" + DecimalInt(e);
    assert inner[0] == '-';
  }

  /** Manifest keys name one (account, group, window) each. */
  lemma ManifestKeyInjective(
    prefix: string, a1: string, g1: string, s1: nat, e1: int, a2: string, g2: string, s2: nat, e2: int)
    requires Bytes(g1) && Bytes(g2) && '/' !in a1 && '/' !in a2
    requires s1 <= I64_MAX && s2 <= I64_MAX && I64_MIN <= e1 <= I64_MAX && I64_MIN <= e2 <= I64_MAX
    requires ManifestKey(prefix, a1, g1, s1, e1) == ManifestKey(prefix, a2, g2, s2, e2)
    ensures a1 == a2 && g1 == g2 && s1 == s2 && e1 == e2
  {
    ManifestKeyWindowRoundTrip(prefix, a1, g1, s1, e1);
    ManifestKeyWindowRoundTrip(prefix, a2, g2, s2, e2);
    var p := NormPrefix(prefix) + "manifest/";
    var t1, t2 := GroupPart(a1, g1) + "/" + WindowPart(s1, e1), GroupPart(a2, g2) + "/" + WindowPart(s2, e2);
    assert (p + t1)[|p|..] == t1 && (p + t2)[|p|..] == t2;
    ManifestPieces(a1, g1, s1, e1);
    ManifestPieces(a2, g2, s2, e2);
    StripPrefixOf("account=", a1);
    StripPrefixOf("account=", a2);
    StripPrefixOf("loggroup=", Sanitize(g1));
    StripPrefixOf("loggroup=", Sanitize(g2));
    SanitizeInjective(g1, g2);
  }

  lemma ManifestPieces(a: string, g: string, s: int, e: int)
    requires Bytes(g) && '/' !in a
    ensures SplitOn(GroupPart(a, g) + "/" + WindowPart(s, e), '/') ==
            ["account=" + a, "loggroup=" + Sanitize(g), WindowPart(s, e)]
  {
    hide WindowPart, SplitOn;
    SanitizeHasNoSeparator(g);
    WindowPartHasNoSlash(s, e);
    SplitJoin(GroupPart(a, g), WindowPart(s, e), '/');
    SplitJoin("account=" + a, "loggroup=" + Sanitize(g), '/');
    SplitNone("account=" + a, '/');
    SplitNone("loggroup=" + Sanitize(g), '/');
    SplitNone(WindowPart(s, e), '/');
  }

  /** The first path segment that carries the loggroup= tag, unsanitized. */
  function FirstTagged(parts: seq<string>): Option<string> {
    if parts == [] then None
    else if "loggroup=" <= parts[0] then Some(parts[0][9..])
    else FirstTagged(parts[1..])
  }

  function ParseManifestKeyLogGroup(key: string, utf8: string -> bool): Option<string> {
    match FirstTagged(SplitOn(key, '/'))
    case None => None
    case Some(enc) => Unsanitize(enc, utf8)
  }

  lemma {:induction false} FirstTaggedAppend(a: seq<string>, b: seq<string>)
    ensures FirstTagged(a + b) == if FirstTagged(a).Some? then FirstTagged(a) else FirstTagged(b)
  {
    if a == [] {
      assert a + b == b;
    } else {
      FirstTaggedAppend(a[1..], b);
      assert (a + b)[0] == a[0] && (a + b)[1..] == a[1..] + b;
    }
  }

  /** A segment tagged loggroup= that comes before the group's own, in the configured prefix or the account. */
  function EarlierTag(prefix: string, a: string): Option<string> {
    FirstTagged(SplitOn(TrimEnd(TrimStart(prefix)), '/') + SplitOn("account=" + a, '/'))
  }

  /** The group is read back from its manifest key if and only if no earlier segment is tagged, or that one names the same group. */
  lemma ManifestKeyGroupRoundTrip(prefix: string, a: string, g: string, s: int, e: int, utf8: string -> bool)
    requires Bytes(g) && utf8(g)
    ensures ParseManifestKeyLogGroup(ManifestKey(prefix, a, g, s, e), utf8) == Some(g) <==>
            EarlierTag(prefix, a).None? || Unsanitize(EarlierTag(prefix, a).value, utf8) == Some(g)
  {
    hide SplitOn, Sanitize, Unsanitize, WindowPart, GroupPart, TrimStart, TrimEnd, FirstTagged;
    var trimmed := TrimEnd(TrimStart(prefix));
    var t, acc, own := SplitOn(trimmed, '/'), SplitOn("account=" + a, '/'), GroupSegments(g, s, e);
    KeySegments(prefix, a, g, s, e);
    TaggedPieces(g, s, e);
    SanitizeRoundTrip(g, utf8);
    FirstTaggedAppend(t, acc);
    FirstTaggedAppend(acc, own);
    FirstTaggedAppend(["manifest"], acc + own);
    FirstTaggedAppend(t, ["manifest"] + (acc + own));
  }

  function GroupSegments(g: string, s: int, e: int): seq<string>
    requires Bytes(g)
  {
    ["loggroup=" + Sanitize(g), WindowPart(s, e)]
  }

  /** The segments of a manifest key; an empty prefix contributes none, which its one empty segment stands for. */
  lemma KeySegments(prefix: string, a: string, g: string, s: int, e: int)
    requires Bytes(g)
    ensures FirstTagged(SplitOn(ManifestKey(prefix, a, g, s, e), '/')) ==
            FirstTagged(SplitOn(TrimEnd(TrimStart(prefix)), '/') + (["manifest"] + (SplitOn("account=" + a, '/') + GroupSegments(g, s, e))))
  {
    hide Sanitize, WindowPart, TrimStart, TrimEnd, SplitOn, FirstTagged, GroupPart, GroupSegments;
    var trimmed := TrimEnd(TrimStart(prefix));
    var rest := GroupPart(a, g) + "/" + WindowPart(s, e);
    var tail := ["manifest"] + (SplitOn("account=" + a, '/') + GroupSegments(g, s, e));
    RestSegments(a, g, s, e);
    LiteralPieces();
    var inner := "manifest" + "/" + rest;
    SplitJoin("manifest", rest, '/');
    FirstTaggedAppend(SplitOn(trimmed, '/'), tail);
    if trimmed == [] {
      assert ManifestKey(prefix, a, g, s, e) == inner;
      EmptySegment();
    } else {
      assert ManifestKey(prefix, a, g, s, e) == trimmed + "/" + inner;
      SplitJoin(trimmed, inner, '/');
    }
  }

  lemma EmptySegment()
    ensures FirstTagged(SplitOn([], '/')).None?
  {
    SplitNone([], '/');
    var none: string := [];
    assert [none][0] == [] && [none][1..] == [];
  }

  lemma RestSegments(a: string, g: string, s: int, e: int)
    requires Bytes(g)
    ensures SplitOn(GroupPart(a, g) + "/" + WindowPart(s, e), '/') == SplitOn("account=" + a, '/') + GroupSegments(g, s, e)
  {
    hide WindowPart, SplitOn, Sanitize;
    SanitizeHasNoSeparator(g);
    WindowPartHasNoSlash(s, e);
    SplitJoin(GroupPart(a, g), WindowPart(s, e), '/');
    SplitJoin("account=" + a, "loggroup=" + Sanitize(g), '/');
    SplitNone("loggroup=" + Sanitize(g), '/');
    SplitNone(WindowPart(s, e), '/');
    Assoc(SplitOn("account=" + a, '/'), ["loggroup=" + Sanitize(g)], [WindowPart(s, e)]);
    assert ["loggroup=" + Sanitize(g)] + [WindowPart(s, e)] == GroupSegments(g, s, e);
  }

  lemma TaggedPieces(g: string, s: int, e: int)
    requires Bytes(g)
    ensures FirstTagged(GroupSegments(g, s, e)) == Some(Sanitize(g)) && FirstTagged(["manifest"]).None?
  {
    StripPrefixOf("loggroup=", Sanitize(g));
    assert GroupSegments(g, s, e)[0] == "loggroup=" + Sanitize(g);
    assert ["manifest"][0][0] == 'm' && ["manifest"][1..] == [];
  }

  /** A prefix that hides the group: under loggroup=x every manifest reads back as group x. */
  lemma TaggedPrefixHidesGroup(g: string, s: int, e: int, utf8: string -> bool)
    requires Bytes(g) && utf8(g) && utf8("x") && g != "x"
    ensures ParseManifestKeyLogGroup(ManifestKey("loggroup=x", "1", g, s, e), utf8) != Some(g)
  {
    TagOfX();
    PlainX();
    hide *;
    ManifestKeyGroupRoundTrip("loggroup=x", "1", g, s, e, utf8);
    SanitizeRoundTrip("x", utf8);
  }

  lemma TagOfX()
    ensures EarlierTag("loggroup=x", "1") == Some("x")
  {
    var p := "loggroup=x";
    assert TrimStart(p) == p && TrimEnd(p) == p;
    SplitNone(p, '/');
    hide SplitOn, TrimStart, TrimEnd;
    FirstTaggedAppend([p], SplitOn("account=1", '/'));
    assert "loggroup=" <= p && p[9..] == "x";
  }

  lemma PlainX()
    ensures Bytes("x") && Sanitize("x") == "x"
  {
    assert "x"[1..] == "";
  }

  // ----- Object names -----

  datatype ObjectNaming = Base | Reconcile(attempt: nat)

  function NameSuffix(naming: ObjectNaming, seqNo: nat): string {
    match naming
    case Base => Padded(seqNo, 6)
    case Reconcile(attempt) => "r" + (Padded(attempt, 2) + Padded(seqNo, 4))
  }

  function ObjectName(startMs: int, naming: ObjectNaming, seqNo: nat): string {
    DecimalInt(startMs) + "-" + NameSuffix(naming, seqNo)
  }

  lemma TwoDigits(attempt: nat)
    requires attempt <= 99
    ensures |Padded(attempt, 2)| == 2
  {
    PowersOf10();
    DecimalWidth(attempt, 2, 100);
  }

  lemma SuffixHasNoDash(naming: ObjectNaming, seqNo: nat)
    ensures '-' !in NameSuffix(naming, seqNo)
  {
    if naming.Base? {
      DigitsHaveNo(Padded(seqNo, 6), '-');
    } else {
      DigitsHaveNo(Padded(naming.attempt, 2), '-');
      DigitsHaveNo(Padded(seqNo, 4), '-');
    }
  }

  ghost predicate LegalNaming(n: ObjectNaming) {
    n.Reconcile? ==> 1 <= n.attempt <= 99
  }

  lemma NameSuffixInjective(n1: ObjectNaming, q1: nat, n2: ObjectNaming, q2: nat)
    requires LegalNaming(n1) && LegalNaming(n2) && NameSuffix(n1, q1) == NameSuffix(n2, q2)
    ensures n1 == n2 && q1 == q2
  {
    hide Padded;
    if n1.Base? && n2.Base? {
      PaddedRoundTrip(q1, 6);
      PaddedRoundTrip(q2, 6);
    } else if n1.Base? {
      BaseIsNotReconcile(q1, n2.attempt, q2);
    } else if n2.Base? {
      BaseIsNotReconcile(q2, n1.attempt, q1);
    } else {
      ReconcileSuffixInjective(n1.attempt, q1, n2.attempt, q2);
    }
  }

  lemma BaseIsNotReconcile(q1: nat, attempt: nat, q2: nat)
    ensures NameSuffix(Base, q1) != NameSuffix(Reconcile(attempt), q2)
  {
    assert IsDigit(Padded(q1, 6)[0]);
    assert NameSuffix(Reconcile(attempt), q2)[0] == 'r';
  }

  lemma ReconcileSuffixInjective(a1: nat, q1: nat, a2: nat, q2: nat)
    requires a1 <= 99 && a2 <= 99
    requires NameSuffix(Reconcile(a1), q1) == NameSuffix(Reconcile(a2), q2)
    ensures a1 == a2 && q1 == q2
  {
    hide Padded;
    var s1, s2 := NameSuffix(Reconcile(a1), q1), NameSuffix(Reconcile(a2), q2);
    TwoDigits(a1);
    TwoDigits(a2);
    assert s1[1..3] == Padded(a1, 2) && s2[1..3] == Padded(a2, 2);
    assert s1[3..] == Padded(q1, 4) && s2[3..] == Padded(q2, 4);
    PaddedRoundTrip(a1, 2);
    PaddedRoundTrip(a2, 2);
    PaddedRoundTrip(q1, 4);
    PaddedRoundTrip(q2, 4);
  }

  /** Base and reconcile names never collide, and each names one (window start, attempt, sequence). */
  lemma ObjectNameInjective(s1: int, n1: ObjectNaming, q1: nat, s2: int, n2: ObjectNaming, q2: nat)
    requires LegalNaming(n1) && LegalNaming(n2)
    requires I64_MIN <= s1 <= I64_MAX && I64_MIN <= s2 <= I64_MAX
    requires ObjectName(s1, n1, q1) == ObjectName(s2, n2, q2)
    ensures s1 == s2 && n1 == n2 && q1 == q2
  {
    hide NameSuffix, DecimalInt;
    SuffixHasNoDash(n1, q1);
    SuffixHasNoDash(n2, q2);
    RSplitOnceJoin(DecimalInt(s1), NameSuffix(n1, q1), '-');
    RSplitOnceJoin(DecimalInt(s2), NameSuffix(n2, q2), '-');
    DecimalIntRoundTrip(s1);
    DecimalIntRoundTrip(s2);
    NameSuffixInjective(n1, q1, n2, q2);
  }

  /** The objects of one drain of a window sort by name in the order they were written, up to a million of them. */
  lemma NamesSortBySequence(s: int, m: nat, n: nat)
    requires m <= 999_999 && n <= 999_999
    ensures StrLe(ObjectName(s, Base, m), ObjectName(s, Base, n)) <==> m <= n
  {
    PowersOf10();
    assert PowerOf10(6) == 1_000_000;
    DecimalWidth(m, 6, 1_000_000);
    DecimalWidth(n, 6, 1_000_000);
    var a, b := Padded(m, 6), Padded(n, 6);
    PaddedRoundTrip(m, 6);
    PaddedRoundTrip(n, 6);
    hide Padded, DecimalInt;
    DigitsOrder(a, b);
    StrLePrefix(DecimalInt(s) + "-", a, b);
  }

  lemma ObjectNameHasNoSlash(s: int, n: ObjectNaming, q: nat)
    ensures '/' !in ObjectName(s, n, q)
  {
    hide DecimalInt;
    DecimalIntHasNo(s, '/');
    if n.Base? {
      DigitsHaveNo(Padded(q, 6), '/');
    } else {
      DigitsHaveNo(Padded(n.attempt, 2), '/');
      DigitsHaveNo(Padded(q, 4), '/');
    }
  }

  // ----- The next reconcile attempt -----

  /** The attempt number the scan reads off one key, if any. */
  function AttemptOf(key: string): Option<nat> {
    match StripSuffix(AfterLast(key, '/'), DATA_SUFFIX)
    case None => None
    case Some(name) =>
      match RSplitOnce(name, '-')
      case None => None
      case Some(p) =>
        match StripPrefix(p.1, "r")
        case None => None
        case Some(digits) => if |digits| != 6 then None else ParseU32(digits[..2])
  }

  /** Two-character unsigned parse; like the standard library it accepts a leading plus. */
  function ParseU32(s: string): Option<nat> {
    if s != [] && s[0] == '+' then ParseNat(s[1..]) else ParseNat(s)
  }

  /** One more than the highest attempt among the listed objects. */
  method NextAttempt(keys: seq<string>) returns (attempt: nat)
    ensures attempt >= 1
    ensures forall k :: k in keys && AttemptOf(k).Some? ==> AttemptOf(k).value < attempt
    ensures attempt == 1 || exists k :: k in keys && AttemptOf(k) == Some(attempt - 1)
  {
    var highest := 0;
    for i := 0 to |keys|
      invariant highest >= 0
      invariant forall k :: k in keys[..i] && AttemptOf(k).Some? ==> AttemptOf(k).value <= highest
      invariant highest == 0 || exists k :: k in keys[..i] && AttemptOf(k) == Some(highest)
    {
      assert keys[..i + 1] == keys[..i] + [keys[i]];
      var a := AttemptOf(keys[i]);
      if a.Some? && a.value > highest {
        highest := a.value;
      }
    }
    assert keys[..|keys|] == keys;
    attempt := highest + 1;
  }

  /** The scan reads back the attempt of every reconcile object whose sequence number has four digits. */
  lemma AttemptReadBack(prefix: string, loc: ChunkLocation, startMs: int, attempt: nat, seqNo: nat)
    requires Bytes(loc.logGroup) && loc.name == ObjectName(startMs, Reconcile(attempt), seqNo)
    requires attempt <= 99
    ensures AttemptOf(DataKey(prefix, loc)) == if seqNo <= 9999 then Some(attempt) else None
  {
    hide Padded, DecimalInt, Tail, NormPrefix;
    ObjectNameHasNoSlash(startMs, Reconcile(attempt), seqNo);
    DataKeyTail(prefix, loc);
    StripSuffixOf(loc.name, DATA_SUFFIX);
    SuffixHasNoDash(Reconcile(attempt), seqNo);
    RSplitOnceJoin(DecimalInt(startMs), NameSuffix(Reconcile(attempt), seqNo), '-');
    var digits := Padded(attempt, 2) + Padded(seqNo, 4);
    StripPrefixOf("r", digits);
    TwoDigits(attempt);
    FourDigits(seqNo);
    assert digits[..2] == Padded(attempt, 2);
    PaddedRoundTrip(attempt, 2);
    assert IsDigit(Padded(attempt, 2)[0]);
  }

  lemma FourDigits(q: nat)
    ensures |Padded(q, 4)| == 4 <==> q <= 9999
  {
    PowersOf10();
    if q <= 9999 {
      DecimalWidth(q, 4, 10_000);
    } else {
      DecimalAtLeast(q, 5);
    }
  }

  lemma {:induction false} DecimalAtLeast(n: nat, k: nat)
    requires k > 0 && n >= PowerOf10(k - 1)
    ensures |Decimal(n)| >= k
    decreases k
  {
    if k > 1 {
      DecimalAtLeast(n / 10, k - 1);
    }
  }

  lemma DataKeyTail(prefix: string, loc: ChunkLocation)
    requires Bytes(loc.logGroup) && '/' !in loc.name
    ensures AfterLast(DataKey(prefix, loc), '/') == loc.name + DATA_SUFFIX
  {
    hide NormPrefix, GroupPart;
    var front := NormPrefix(prefix) + "data/" + GroupPart(loc.account, loc.logGroup) + "/" + ("dt=" + loc.date);
    var file := loc.name + DATA_SUFFIX;
    assert DataKey(prefix, loc) == front + ['/'] + file;
    AfterLastJoin(front, file, '/');
  }

  // ----- The four kinds of keys -----

  const INDEX_SUFFIX: string := ".s4index"
  const TS_SUFFIX: string := ".s4lts"

  function IndexKey(prefix: string, loc: ChunkLocation): string
    requires Bytes(loc.logGroup)
  {
    (NormPrefix(prefix) + "index/") + (Tail(loc) + INDEX_SUFFIX)
  }

  function TsIndexKey(prefix: string, loc: ChunkLocation): string
    requires Bytes(loc.logGroup)
  {
    (NormPrefix(prefix) + "index/") + (Tail(loc) + TS_SUFFIX)
  }

  /**
   * Data objects, sidecars and manifests never share a key, whatever their
   * parts; and a sidecar key determines, and is determined by, the data key it
   * stands beside.
   */
  lemma KeyKindsDisjoint(prefix: string, a: ChunkLocation, b: ChunkLocation, account: string, logGroup: string, s: int, e: int)
    requires Bytes(a.logGroup) && Bytes(b.logGroup) && Bytes(logGroup)
    ensures DataKey(prefix, a) != IndexKey(prefix, b) && DataKey(prefix, a) != TsIndexKey(prefix, b) && IndexKey(prefix, a) != TsIndexKey(prefix, b)
    ensures ManifestKey(prefix, account, logGroup, s, e) !in [DataKey(prefix, a), IndexKey(prefix, a), TsIndexKey(prefix, a)]
    ensures DataKey(prefix, a) == DataKey(prefix, b) <==> IndexKey(prefix, a) == IndexKey(prefix, b)
    ensures DataKey(prefix, a) == DataKey(prefix, b) <==> TsIndexKey(prefix, a) == TsIndexKey(prefix, b)
  {
    hide DataKey, IndexKey, TsIndexKey, ManifestKey;
    LastChars(prefix, a);
    LastChars(prefix, b);
    ManifestLast(prefix, account, logGroup, s, e);
    SidecarsFollowData(prefix, a, b);
  }

  lemma SidecarsFollowData(prefix: string, a: ChunkLocation, b: ChunkLocation)
    requires Bytes(a.logGroup) && Bytes(b.logGroup)
    ensures DataKey(prefix, a) == DataKey(prefix, b) <==> IndexKey(prefix, a) == IndexKey(prefix, b)
    ensures DataKey(prefix, a) == DataKey(prefix, b) <==> TsIndexKey(prefix, a) == TsIndexKey(prefix, b)
  {
    hide Tail;
    var n := NormPrefix(prefix);
    Between(n + "data/", Tail(a), [], Tail(b));
    Between(n + "index/", Tail(a), INDEX_SUFFIX, Tail(b));
    Between(n + "index/", Tail(a), TS_SUFFIX, Tail(b));
  }

  lemma Between(p: string, x: string, q: string, y: string)
    ensures p + (x + q) == p + (y + q) <==> x == y
    ensures p + x == p + y <==> x == y
  {
    assert (p + (x + q))[|p|..|p + (x + q)| - |q|] == x && (p + (y + q))[|p|..|p + (y + q)| - |q|] == y;
    assert (p + x)[|p|..] == x && (p + y)[|p|..] == y;
  }

  lemma LastChars(prefix: string, a: ChunkLocation)
    requires Bytes(a.logGroup)
    ensures var d, i, t := DataKey(prefix, a), IndexKey(prefix, a), TsIndexKey(prefix, a);
            |d| > 0 && |i| > 0 && |t| > 0 && d[|d| - 1] == 't' && i[|i| - 1] == 'x' && t[|t| - 1] == 's'
  {
    assert Tail(a)[|Tail(a)| - 1] == DATA_SUFFIX[|DATA_SUFFIX| - 1] == 't';
  }

  lemma ManifestLast(prefix: string, account: string, logGroup: string, s: int, e: int)
    requires Bytes(logGroup)
    ensures var m := ManifestKey(prefix, account, logGroup, s, e);
            |m| > 0 && m[|m| - 1] == 'n'
  {
    hide DecimalInt;
  }

  /**
   * Every object of the next attempt is fresh against every listed object, base
   * or reconcile, provided each listed attempt also lists a four-digit sequence
   * number (its first object), as every completed reconcile does.
   */
  lemma NextAttemptIsFresh(prefix: string, loc: ChunkLocation, startMs: int, attempt: nat, seqNo: nat, keys: seq<string>)
    requires Bytes(loc.logGroup) && loc.name == ObjectName(startMs, Reconcile(attempt), seqNo) && attempt <= 99
    requires forall k :: k in keys && AttemptOf(k).Some? ==> AttemptOf(k).value < attempt
    requires seqNo > 9999 && DataKey(prefix, loc) in keys ==>
               DataKey(prefix, loc.(name := ObjectName(startMs, Reconcile(attempt), 0))) in keys
    ensures DataKey(prefix, loc) !in keys
  {
    hide ObjectName, DataKey, AttemptOf;
    AttemptReadBack(prefix, loc, startMs, attempt, seqNo);
    AttemptReadBack(prefix, loc.(name := ObjectName(startMs, Reconcile(attempt), 0)), startMs, attempt, 0);
  }

  /** Without that provision a five-digit sequence number is invisible to the scan, and the attempt is reused. */
  lemma LongSequenceIsInvisible(prefix: string, loc: ChunkLocation)
    requires Bytes(loc.logGroup) && loc.name == ObjectName(0, Reconcile(1), 10_000)
    ensures AttemptOf(DataKey(prefix, loc)) == None
  {
    AttemptReadBack(prefix, loc, 0, 1, 10_000);
  }
}
