/** The Redis schema of EliteEvents.Eddn/Storage/RedisKeys.cs: name normalization, key
    builders, prefix ranges and match patterns. */
module RedisKeys {
  import opened Bits
  import opened Text
  import opened Wrappers
  import Glob

  // ---- normalization --------------------------------------------------------------------

  predicate IsLower(c: char) { 'a' <= c <= 'z' }

  predicate NoLower(s: string) { forall i :: 0 <= i < |s| ==> !IsLower(s[i]) }

  function UpperChar(c: char): char {
    if IsLower(c) then ((c as int) - 32) as char else c
  }

  predicate IsLetter(c: char) { 'a' <= c <= 'z' || 'A' <= c <= 'Z' }

  /** Equal, or the two cases of one letter. */
  predicate SameLetter(c: char, d: char) {
    c == d || (IsLetter(c) && IsLetter(d) && (c as int - d as int == 32 || d as int - c as int == 32))
  }

  /** Equal up to case. */
  predicate SameName(a: string, b: string) { |a| == |b| && forall i :: 0 <= i < |a| ==> SameLetter(a[i], b[i]) }

  /** `ToUpperInvariant`, on the ASCII letters. */
  function NormalizeSystem(name: string): (r: string)
    ensures |r| == |name| && NoLower(r)
    ensures NoLower(name) ==> r == name
  {
    if name == "" then "" else [UpperChar(name[0])] + NormalizeSystem(name[1..])
  }

  /** Normalizing changes nothing but case. */
  lemma {:induction false} NormalIsSameName(name: string)
    ensures SameName(name, NormalizeSystem(name))
  {
    if name != "" {
      NormalIsSameName(name[1..]);
    }
  }

  lemma UpperNamesAreTheSame(a: string, b: string)
    requires NoLower(a) && NoLower(b) && SameName(a, b)
    ensures a == b
  {
    forall i | 0 <= i < |a|
      ensures a[i] == b[i]
    {
      assert SameLetter(a[i], b[i]) && !IsLower(a[i]) && !IsLower(b[i]);
    }
  }

  lemma SameNameTransitive(a: string, b: string, c: string)
    requires SameName(a, b) && SameName(b, c)
    ensures SameName(a, c) && SameName(b, a)
  {
    forall i | 0 <= i < |a|
      ensures SameLetter(a[i], c[i])
    {
      assert SameLetter(a[i], b[i]) && SameLetter(b[i], c[i]);
    }
  }

  /** Lookups are case-insensitive, and tell everything else apart. */
  lemma SameNormalExactly(a: string, b: string)
    ensures NormalizeSystem(a) == NormalizeSystem(b) <==> SameName(a, b)
  {
    var u, v := NormalizeSystem(a), NormalizeSystem(b);
    NormalIsSameName(a);
    NormalIsSameName(b);
    SameNameTransitive(b, v, v);
    if u == v {
      SameNameTransitive(a, u, b);
    }
    if SameName(a, b) {
      SameNameTransitive(a, u, u);
      SameNameTransitive(u, a, b);
      SameNameTransitive(u, b, v);
      UpperNamesAreTheSame(u, v);
    }
  }

  function NormalizeCarrier(id: string): string { NormalizeSystem(id) }

  /** The characters .NET's `Trim` removes. */
  predicate IsWhiteSpace(c: char) {
    var n := c as int;
    || 0x09 <= n <= 0x0D || n == 0x20 || n == 0x85 || n == 0xA0 || n == 0x1680
    || 0x2000 <= n <= 0x200A || n == 0x2028 || n == 0x2029 || n == 0x202F || n == 0x205F || n == 0x3000
  }

  predicate IsBlank(s: string) { forall i :: 0 <= i < |s| ==> IsWhiteSpace(s[i]) }

  function TrimStart(s: string): string {
    if s != "" && IsWhiteSpace(s[0]) then TrimStart(s[1..]) else s
  }

  function TrimEnd(s: string): string {
    if s != "" && IsWhiteSpace(s[|s| - 1]) then TrimEnd(s[..|s| - 1]) else s
  }

  function NormalizeQuery(query: string): string {
    TrimEnd(TrimStart(NormalizeSystem(query)))
  }

  /** Those characters, one by one. */
  const WHITE_SPACE := "\t\n\U{B}\U{C}\r \U{85}\U{A0}\U{1680}\U{2000}\U{2001}\U{2002}\U{2003}\U{2004}\U{2005}\U{2006}\U{2007}\U{2008}\U{2009}\U{200A}\U{2028}\U{2029}\U{202F}\U{205F}\U{3000}"

  lemma WhiteSpaceExactly(c: char)
    ensures IsWhiteSpace(c) <==> c in WHITE_SPACE
  {}

  lemma {:induction false} TrimStartCuts(s: string) returns (i: nat)
    ensures i <= |s| && TrimStart(s) == s[i..] && IsBlank(s[..i]) && (i < |s| ==> !IsWhiteSpace(s[i]))
  {
    if s != "" && IsWhiteSpace(s[0]) {
      var j := TrimStartCuts(s[1..]);
      i := j + 1;
      assert s[..i] == [s[0]] + s[1..][..j];
    } else {
      i := 0;
    }
  }

  lemma {:induction false} TrimEndCuts(s: string) returns (j: nat)
    ensures j <= |s| && TrimEnd(s) == s[..j] && IsBlank(s[j..]) && (j > 0 ==> !IsWhiteSpace(s[j - 1]))
  {
    if s != "" && IsWhiteSpace(s[|s| - 1]) {
      j := TrimEndCuts(s[..|s| - 1]);
      assert s[j..] == s[..|s| - 1][j..] + [s[|s| - 1]];
    } else {
      j := |s|;
    }
  }

  lemma TrimCuts(s: string) returns (i: nat, j: nat)
    ensures i <= j <= |s| && TrimEnd(TrimStart(s)) == s[i..j] && IsBlank(s[..i]) && IsBlank(s[j..])
    ensures i < j ==> !IsWhiteSpace(s[i]) && !IsWhiteSpace(s[j - 1])
  {
    i := TrimStartCuts(s);
    var n := TrimEndCuts(s[i..]);
    j := i + n;
    assert s[i..][..n] == s[i..j] && s[i..][n..] == s[j..];
    assert n > 0 ==> s[i..][n - 1] == s[j - 1];
  }

  lemma SameSpace(c: char, d: char)
    requires SameLetter(c, d)
    ensures IsWhiteSpace(c) <==> IsWhiteSpace(d)
  {}

  lemma BlankUpToCase(a: string, b: string)
    requires SameName(a, b) && IsBlank(b)
    ensures IsBlank(a)
  {
    forall i | 0 <= i < |a|
      ensures IsWhiteSpace(a[i])
    {
      SameSpace(a[i], b[i]);
    }
  }

  lemma SameParts(a: string, b: string, i: nat, j: nat)
    requires SameName(a, b) && i <= j <= |a|
    ensures SameName(a[..i], b[..i]) && SameName(a[i..j], b[i..j]) && SameName(a[j..], b[j..])
  {}

  /** A query is looked up without the white space around it, and without regard to case. */
  lemma QueryIsTrimmed(query: string) returns (i: nat, j: nat)
    ensures i <= j <= |query| && IsBlank(query[..i]) && IsBlank(query[j..])
    ensures SameName(query[i..j], NormalizeQuery(query)) && NoLower(NormalizeQuery(query))
    ensures i < j ==> !IsWhiteSpace(query[i]) && !IsWhiteSpace(query[j - 1])
  {
    var upper := NormalizeSystem(query);
    NormalIsSameName(query);
    i, j := TrimCuts(upper);
    SameParts(query, upper, i, j);
    BlankUpToCase(query[..i], upper[..i]);
    BlankUpToCase(query[j..], upper[j..]);
    if i < j {
      SameSpace(query[i], upper[i]);
      SameSpace(query[j - 1], upper[j - 1]);
    }
  }

  // ---- keys -----------------------------------------------------------------------------

  function Station(system: string, station: string): string {
    "system:" + system + ":station:" + station
  }

  function SystemStations(system: string): string { "system:" + system + ":stations" }

  function CarrierDaily(carrier: string, date: string): string {
    "carrier:" + carrier + ":daily:" + date
  }

  function CarrierDays(carrier: string): string { "carrier:" + carrier + ":days" }

  const SYSTEM_VISITS := "systems:visits"
  const HEARTBEAT := "heartbeat:eddn"
  const SYSTEM_INDEX := "index:systems"
  const CARRIER_INDEX := "index:carriers"

  /** An upper-cased name ends where the first lower-case letter after it begins, so the name
      can be read back even when it contains colons. */
  lemma NameEndsAtLower(u: string, x: string, v: string, y: string)
    requires NoLower(u) && NoLower(v)
    requires x != "" && IsLower(x[0]) && y != "" && IsLower(y[0])
    requires u + ":" + x == v + ":" + y
    ensures u == v && x == y
  {
    var a, b := u + ":" + x, v + ":" + y;
    assert a[|u| + 1] == x[0] && b[|v| + 1] == y[0];
    assert forall i :: 0 <= i <= |u| ==> !IsLower(a[i]);
    assert forall i :: 0 <= i <= |v| ==> !IsLower(b[i]);
    assert |u| == |v|;
    assert u == a[..|u|] && v == b[..|v|];
    assert x == a[|u| + 1..] && y == b[|v| + 1..];
  }

  /** A name-carrying key: namespace, name, and a tail that starts with a lower-case letter. */
  function Compose(space: string, name: string, tail: string): string {
    space + (name + ":" + tail)
  }

  lemma ComposeInjective(space: string, u: string, x: string, v: string, y: string)
    requires NoLower(u) && NoLower(v)
    requires x != "" && IsLower(x[0]) && y != "" && IsLower(y[0])
    requires Compose(space, u, x) == Compose(space, v, y)
    ensures u == v && x == y
  {
    assert u + ":" + x == Compose(space, u, x)[|space|..];
    assert v + ":" + y == Compose(space, v, y)[|space|..];
    NameEndsAtLower(u, x, v, y);
  }

  lemma KeysCompose(name: string, rest: string)
    ensures Station(name, rest) == Compose("system:", name, "station:" + rest)
    ensures SystemStations(name) == Compose("system:", name, "stations")
    ensures CarrierDaily(name, rest) == Compose("carrier:", name, "daily:" + rest)
    ensures CarrierDays(name) == Compose("carrier:", name, "days")
  {}

  /** Station keys of upper-cased systems are injective, colons or not. */
  lemma StationInjective(s: string, n: string, s': string, n': string)
    requires NoLower(s) && NoLower(s')
    requires Station(s, n) == Station(s', n')
    ensures s == s' && n == n'
  {
    KeysCompose(s, n);
    KeysCompose(s', n');
    ComposeInjective("system:", s, "station:" + n, s', "station:" + n');
    assert n == ("station:" + n)[8..] && n' == ("station:" + n')[8..];
  }

  lemma SystemStationsInjective(s: string, s': string)
    requires NoLower(s) && NoLower(s')
    requires SystemStations(s) == SystemStations(s')
    ensures s == s'
  {
    KeysCompose(s, "");
    KeysCompose(s', "");
    ComposeInjective("system:", s, "stations", s', "stations");
  }

  /** A station hash is never a system's station set. */
  lemma StationIsNotSystemStations(s: string, n: string, s': string)
    requires NoLower(s) && NoLower(s')
    ensures Station(s, n) != SystemStations(s')
  {
    assert ("station:" + n)[7] == ':' && "stations"[7] == 's';
    if Station(s, n) == SystemStations(s') {
      KeysCompose(s, n);
      KeysCompose(s', "");
      ComposeInjective("system:", s, "station:" + n, s', "stations");
      assert false;
    }
  }

  lemma CarrierDailyInjective(c: string, d: string, c': string, d': string)
    requires NoLower(c) && NoLower(c')
    requires CarrierDaily(c, d) == CarrierDaily(c', d')
    ensures c == c' && d == d'
  {
    KeysCompose(c, d);
    KeysCompose(c', d');
    ComposeInjective("carrier:", c, "daily:" + d, c', "daily:" + d');
    assert d == ("daily:" + d)[6..] && d' == ("daily:" + d')[6..];
  }

  lemma CarrierDailyIsNotCarrierDays(c: string, d: string, c': string)
    requires NoLower(c) && NoLower(c')
    ensures CarrierDaily(c, d) != CarrierDays(c')
  {
    assert ("daily:" + d)[2] == 'i' && "days"[2] == 'y';
    if CarrierDaily(c, d) == CarrierDays(c') {
      KeysCompose(c, d);
      KeysCompose(c', "");
      ComposeInjective("carrier:", c, "daily:" + d, c', "days");
      assert false;
    }
  }

  // ---- names read back from keys --------------------------------------------------------

  /** The text before the first separator. */
  function UpTo(s: string, separator: char): (r: string)
    ensures r <= s && separator !in r
    ensures separator !in s ==> r == s
    ensures separator in s ==> |r| < |s| && s[|r|] == separator
  {
    if s == "" || s[0] == separator then "" else [s[0]] + UpTo(s[1..], separator)
  }

  /** The second colon-separated part of a key. */
  function ExtractName(key: string): Option<string> {
    if ':' !in key then None else Some(UpTo(key[|UpTo(key, ':')| + 1..], ':'))
  }

  lemma UpToSeparator(a: string, separator: char, b: string)
    requires separator !in a
    ensures UpTo(a + [separator] + b, separator) == a
  {
    if a == "" {
      assert a + [separator] + b == [separator] + b;
    } else {
      assert (a + [separator] + b)[1..] == a[1..] + [separator] + b;
      UpToSeparator(a[1..], separator, b);
    }
  }

  lemma {:induction false} ExtractAfterSpace(space: string, rest: string)
    requires ':' !in space
    ensures ExtractName(space + ":" + rest) == Some(UpTo(rest, ':'))
  {
    var key := space + ":" + rest;
    assert key[|space|] == ':';
    UpToSeparator(space, ':', rest);
    assert key[|space| + 1..] == rest;
  }

  lemma ExtractFromComposed(space: string, name: string, tail: string)
    requires ':' !in space
    ensures ExtractName(Compose(space + ":", name, tail)) == Some(name) <==> ':' !in name
  {
    var rest := name + ":" + tail;
    assert Compose(space + ":", name, tail) == space + ":" + rest;
    ExtractAfterSpace(space, rest);
    if ':' !in name {
      assert rest == name + [':'] + tail;
      UpToSeparator(name, ':', tail);
    }
  }

  /** A name survives the trip through its key exactly when it has no colon: the second part
      of `system:A:B:stations` is `A`. */
  lemma ExtractNameRoundTrip(name: string)
    ensures ExtractName(SystemStations(name)) == Some(name) <==> ':' !in name
    ensures ExtractName(CarrierDays(name)) == Some(name) <==> ':' !in name
  {
    KeysCompose(name, "");
    ExtractFromComposed("system", name, "stations");
    ExtractFromComposed("carrier", name, "days");
    assert "system" + ":" == "system:" && "carrier" + ":" == "carrier:";
  }

  /** The rebuild's scan also sees keys of single stations and days whose last part looks like
      the end of a set's key; they yield the name they belong to. */
  lemma ExtractNameOfDetail(name: string, detail: string)
    requires ':' !in name
    ensures ExtractName(Station(name, detail)) == Some(name)
    ensures ExtractName(CarrierDaily(name, detail)) == Some(name)
  {
    KeysCompose(name, detail);
    ExtractFromComposed("system", name, "station:" + detail);
    ExtractFromComposed("carrier", name, "daily:" + detail);
    assert "system" + ":" == "system:" && "carrier" + ":" == "carrier:";
  }

  // ---- prefix ranges --------------------------------------------------------------------

  function LexPrefixMin(prefix: string): Bytes { Utf8(prefix) }

  function UpperBound(prefix: string): Bytes { Utf8(prefix) + [0xFF] }

  method LexPrefixMax(normalizedPrefix: string) returns (bound: array<Byte>)
    ensures bound[..] == UpperBound(normalizedPrefix)
  {
    var prefix := Utf8(normalizedPrefix);
    bound := new Byte[|prefix| + 1];
    for i := 0 to |prefix|
      invariant bound[..i] == prefix[..i]
    {
      bound[i] := prefix[i];
    }
    bound[|prefix|] := 0xFF;
    assert bound[..] == bound[..|prefix|] + [0xFF];
  }

  predicate InLexRange(name: string, lo: Bytes, hi: Bytes) {
    LexLeq(lo, Utf8(name)) && LexLeq(Utf8(name), hi)
  }

  /** The byte range finds exactly the names that start with the query. */
  lemma PrefixRangeIsExact(query: string, name: string)
    ensures InLexRange(name, LexPrefixMin(query), UpperBound(query)) <==> query <= name
  {
    NoFF(name);
    PrefixRange(Utf8(query), Utf8(name));
    Utf8Prefix(query, name);
  }

  // ---- match patterns -------------------------------------------------------------------

  predicate IsMetaChar(c: char) { c == '*' || c == '?' || c == '[' || c == ']' || c == '\\' }

  function Escaped(value: string): string {
    if value == "" then "" else EscapedChar(value[0]) + Escaped(value[1..])
  }

  function EscapedChar(c: char): string { if IsMetaChar(c) then ['\\', c] else [c] }

  lemma EscapedFrom(value: string, i: nat, before: string)
    requires i < |value|
    ensures before + Escaped(value[i..]) == before + EscapedChar(value[i]) + Escaped(value[i + 1..])
  {
    assert value[i..][1..] == value[i + 1..];
  }

  method EscapeGlob(value: string) returns (escaped: string)
    ensures escaped == Escaped(value)
  {
    escaped := "";
    for i := 0 to |value|
      invariant escaped + Escaped(value[i..]) == Escaped(value)
    {
      EscapedFrom(value, i, escaped);
      ghost var before := escaped;
      if IsMetaChar(value[i]) {
        escaped := escaped + ['\\'];
      }
      escaped := escaped + [value[i]];
      assert escaped == before + EscapedChar(value[i]);
    }
  }

  function IndexMatchPattern(query: string): string { "*" + Escaped(query) + "*" }

  /** Escaping characters before encoding is quoting bytes after it. */
  lemma {:induction false} EscapedBytes(value: string)
    ensures Utf8(Escaped(value)) == Glob.Quoted(Utf8(value))
  {
    if value != "" {
      var c, rest := value[0], value[1..];
      EscapedBytes(rest);
      var head := if IsMetaChar(c) then ['\\', c] else [c];
      Utf8Concat(head, Escaped(rest));
      if IsMetaChar(c) {
        assert Utf8(['\\', c]) == Utf8Char('\\') + Utf8([c]) == [Glob.BACKSLASH] + Utf8Char(c);
      } else {
        assert Utf8([c]) == Utf8Char(c);
      }
      QuotedConcat(Utf8Char(c), Utf8(rest));
      QuotedChar(c);
    }
  }

  lemma {:induction false} QuotedConcat(a: Bytes, b: Bytes)
    ensures Glob.Quoted(a + b) == Glob.Quoted(a) + Glob.Quoted(b)
  {
    if a == [] {
      assert a + b == b;
    } else {
      assert (a + b)[1..] == a[1..] + b;
      QuotedConcat(a[1..], b);
    }
  }

  lemma {:induction false} QuotedPlain(b: Bytes)
    requires forall i :: 0 <= i < |b| ==> !Glob.IsMeta(b[i])
    ensures Glob.Quoted(b) == b
  {
    if b != [] {
      QuotedPlain(b[1..]);
    }
  }

  lemma QuotedChar(c: char)
    ensures Glob.Quoted(Utf8Char(c)) ==
            (if IsMetaChar(c) then [Glob.BACKSLASH] + Utf8Char(c) else Utf8Char(c))
  {
    if !IsMetaChar(c) {
      QuotedPlain(Utf8Char(c));
    }
  }

  lemma PatternBytes(query: string)
    ensures Utf8(IndexMatchPattern(query)) == [Glob.STAR] + Glob.Quoted(Utf8(query)) + [Glob.STAR]
  {
    assert IndexMatchPattern(query) == "*" + (Escaped(query) + "*");
    Utf8Concat("*", Escaped(query) + "*");
    Utf8Concat(Escaped(query), "*");
    assert Utf8("*") == [Glob.STAR];
    EscapedBytes(query);
  }

  /** The pattern matches exactly the names that contain the query. */
  lemma PatternMeansContains(query: string, name: string)
    ensures Glob.Match(Utf8(IndexMatchPattern(query)), Utf8(name)) <==> Contains(name, query)
  {
    PatternBytes(query);
    Glob.QuotedBetweenStars(Utf8(query), Utf8(name));
    Utf8Contains(name, query);
  }
}
