/** The string helpers of server/src/util.ts: dash stripping and re-insertion for UUIDs,
    `#rrggbb` parsing, and the allow-list of browser origins. */
module Util {
  import opened Js
  import opened Bytes

  /** `uuid.replace(/-/g, "")`. */
  function StripUuid(uuid: string): (r: string)
    ensures '-' !in r && |r| <= |uuid|
    decreases |uuid|
  {
    if |uuid| == 0 then ""
    else (if uuid[0] == '-' then "" else [uuid[0]]) + StripUuid(uuid[1..])
  }

  /** Stripping distributes over concatenation, so every kept character stays in its place
      relative to the others. */
  lemma {:induction false} StripConcat(a: string, b: string)
    ensures StripUuid(a + b) == StripUuid(a) + StripUuid(b)
    decreases |a|
  {
    if |a| == 0 {
      assert a + b == b;
    } else {
      assert (a + b)[0] == a[0];
      assert (a + b)[1..] == a[1..] + b;
      StripConcat(a[1..], b);
    }
  }

  /** A dash between two strings disappears and the two sides are stripped separately. */
  lemma StripAroundDash(a: string, b: string)
    ensures StripUuid(a + "-" + b) == StripUuid(a) + StripUuid(b)
  {
    var x := a + "-";
    StripConcat(x, b);
    StripConcat(a, "-");
    assert StripUuid("-") == "" by {
      assert "-"[0] == '-' && "-"[1..] == "";
    }
    assert StripUuid(x) == StripUuid(a);
  }

  /** A string without dashes is left as it is. */
  lemma {:induction false} StripDashFree(s: string)
    requires '-' !in s
    ensures StripUuid(s) == s
    decreases |s|
  {
    if |s| > 0 {
      assert s[0] != '-';
      StripDashFree(s[1..]);
      assert [s[0]] + s[1..] == s;
    }
  }

  /** Stripping twice is stripping once. */
  lemma StripIdempotent(s: string)
    ensures StripUuid(StripUuid(s)) == StripUuid(s)
  {
    StripDashFree(StripUuid(s));
  }

  /** `s.substr(start, length)` for non-negative arguments: both ends are clamped to the
      string. */
  function Substr(s: string, start: nat, length: nat): (r: string)
    ensures |r| <= length
  {
    var a := if start < |s| then start else |s|;
    var b := if a + length < |s| then a + length else |s|;
    s[a..b]
  }

  /** `s.substr(start)`. */
  function SubstrFrom(s: string, start: nat): string
  {
    s[if start < |s| then start else |s|..]
  }

  /** `addDashesToUuid`: a string of 36 or more characters is taken to carry its dashes
      already; any shorter one is cut into pieces of 8, 4, 4, 4 and the rest, joined by '-'. */
  function AddDashesToUuid(uuid: string): string
  {
    if |uuid| >= 36 then uuid
    else Substr(uuid, 0, 8) + "-" + Substr(uuid, 8, 4) + "-" + Substr(uuid, 12, 4) + "-" +
         Substr(uuid, 16, 4) + "-" + SubstrFrom(uuid, 20)
  }

  lemma AddDashesLong(uuid: string)
    requires |uuid| >= 36
    ensures AddDashesToUuid(uuid) == uuid
  {
  }

  /** The five pieces `addDashesToUuid` cuts always put the input back together. */
  lemma PiecesJoin(s: string)
    requires |s| < 36
    ensures Substr(s, 0, 8) + Substr(s, 8, 4) + Substr(s, 12, 4) + Substr(s, 16, 4) +
            SubstrFrom(s, 20) == s
  {
    var n := |s|;
    var c1 := if 8 < n then 8 else n;
    var c2 := if 12 < n then 12 else n;
    var c3 := if 16 < n then 16 else n;
    var c4 := if 20 < n then 20 else n;
    assert Substr(s, 0, 8) == s[..c1];
    assert Substr(s, 8, 4) == s[c1..c2];
    assert Substr(s, 12, 4) == s[c2..c3];
    assert Substr(s, 16, 4) == s[c3..c4];
    assert SubstrFrom(s, 20) == s[c4..];
    assert s[..c1] + s[c1..c2] + s[c2..c3] + s[c3..c4] + s[c4..] == s;
  }

  /** Stripping five pieces joined by dashes strips each piece. */
  lemma StripJoined(p1: string, p2: string, p3: string, p4: string, p5: string)
    ensures StripUuid(p1 + "-" + p2 + "-" + p3 + "-" + p4 + "-" + p5) ==
            StripUuid(p1) + StripUuid(p2) + StripUuid(p3) + StripUuid(p4) + StripUuid(p5)
  {
    var l2 := p1 + "-" + p2;
    var l3 := l2 + "-" + p3;
    var l4 := l3 + "-" + p4;
    StripAroundDash(p1, p2);
    StripAroundDash(l2, p3);
    StripAroundDash(l3, p4);
    StripAroundDash(l4, p5);
  }

  /** Inserting dashes into a dash-free string shorter than 36 and stripping them again gives
      the string back. */
  lemma StripAfterAddDashes(s: string)
    requires '-' !in s && |s| < 36
    ensures StripUuid(AddDashesToUuid(s)) == s
  {
    var p1, p2, p3, p4, p5 := Substr(s, 0, 8), Substr(s, 8, 4), Substr(s, 12, 4),
                              Substr(s, 16, 4), SubstrFrom(s, 20);
    PiecesJoin(s);
    assert forall i :: 0 <= i < |s| ==> s[i] != '-';
    assert '-' !in p1 && '-' !in p2 && '-' !in p3 && '-' !in p4 && '-' !in p5;
    StripDashFree(p1); StripDashFree(p2); StripDashFree(p3); StripDashFree(p4); StripDashFree(p5);
    StripJoined(p1, p2, p3, p4, p5);
  }

  /** The canonical textual form of a UUID: 36 characters, dashes exactly at 8, 13, 18, 23. */
  predicate IsDashedUuid(u: string)
  {
    |u| == 36 && forall i :: 0 <= i < 36 ==> (u[i] == '-' <==> i == 8 || i == 13 || i == 18 || i == 23)
  }

  /** A 32-character string gains dashes exactly at 8, 13, 18 and 23. */
  lemma AddDashes32(s: string)
    requires |s| == 32 && '-' !in s
    ensures IsDashedUuid(AddDashesToUuid(s))
    ensures AddDashesToUuid(s) == s[..8] + "-" + s[8..12] + "-" + s[12..16] + "-" + s[16..20] + "-" + s[20..]
  {
    var r := AddDashesToUuid(s);
    assert r == s[..8] + "-" + s[8..12] + "-" + s[12..16] + "-" + s[16..20] + "-" + s[20..];
    forall i | 0 <= i < 36
      ensures r[i] == '-' <==> i == 8 || i == 13 || i == 18 || i == 23
    {
      if i < 8 { assert r[i] == s[i]; }
      else if 8 < i < 13 { assert r[i] == s[i - 1]; }
      else if 13 < i < 18 { assert r[i] == s[i - 2]; }
      else if 18 < i < 23 { assert r[i] == s[i - 3]; }
      else if 23 < i { assert r[i] == s[i - 4]; }
    }
  }

  /** Stripping a canonical UUID and re-inserting the dashes gives it back. */
  lemma AddDashesAfterStrip(u: string)
    requires IsDashedUuid(u)
    ensures AddDashesToUuid(StripUuid(u)) == u
  {
    var p1, p2, p3, p4, p5 := u[..8], u[9..13], u[14..18], u[19..23], u[24..];
    DashedPieces(u);
    StripDashFree(p1); StripDashFree(p2); StripDashFree(p3); StripDashFree(p4); StripDashFree(p5);
    StripJoined(p1, p2, p3, p4, p5);
    var s := p1 + p2 + p3 + p4 + p5;
    assert StripUuid(u) == s;
    AddDashes32(s);
    assert s[..8] == p1 && s[8..12] == p2 && s[12..16] == p3 && s[16..20] == p4 && s[20..] == p5;
  }

  /** A canonical UUID is its five dash-free groups joined by dashes. */
  lemma DashedPieces(u: string)
    requires IsDashedUuid(u)
    ensures u == u[..8] + "-" + u[9..13] + "-" + u[14..18] + "-" + u[19..23] + "-" + u[24..]
    ensures '-' !in u[..8] && '-' !in u[9..13] && '-' !in u[14..18] && '-' !in u[19..23] && '-' !in u[24..]
  {
    assert forall i :: 0 <= i < 8 ==> u[..8][i] == u[i];
    assert forall i :: 0 <= i < 4 ==> u[9..13][i] == u[9 + i] && u[14..18][i] == u[14 + i] && u[19..23][i] == u[19 + i];
    assert forall i :: 0 <= i < 12 ==> u[24..][i] == u[24 + i];
  }

  /** An RGB triple as `hexToRgb` returns it. */
  datatype Rgb = Rgb(red: uint8, green: uint8, blue: uint8)
  {
    /** `clr[k]` for k in 0..2. */
    function Component(k: int): uint8
      requires 0 <= k < 3
    {
      if k == 0 then red else if k == 1 then green else blue
    }
  }

  /** What the pattern `^#?([a-f\d]{2})([a-f\d]{2})([a-f\d]{2})$` with the `i` flag accepts:
      an optional '#' followed by exactly six hexadecimal digits in either case. */
  predicate IsHexColor(hex: string)
  {
    (|hex| == 7 && hex[0] == '#' && AllHexDigits(hex[1..])) || (|hex| == 6 && AllHexDigits(hex))
  }

  function HexPair(hi: char, lo: char): uint8
    requires IsHexDigit(hi) && IsHexDigit(lo)
  {
    16 * HexDigitValue(hi) + HexDigitValue(lo)
  }

  /** `hexToRgb`: the three two-digit groups read in base 16. The source asserts the match
      with `!`, so a string the pattern rejects is outside what its callers may pass. */
  function HexToRgb(hex: string): Rgb
    requires IsHexColor(hex)
  {
    var d := if |hex| == 7 then hex[1..] else hex;
    Rgb(HexPair(d[0], d[1]), HexPair(d[2], d[3]), HexPair(d[4], d[5]))
  }

  /** The lower-case `#rrggbb` spelling of a colour, the form the palette is written in. */
  function RgbToHex(c: Rgb): string
  {
    ['#', LowerHexChar(c.red / 16), LowerHexChar(c.red % 16),
     LowerHexChar(c.green / 16), LowerHexChar(c.green % 16),
     LowerHexChar(c.blue / 16), LowerHexChar(c.blue % 16)]
  }

  predicate IsLowerHexColor(hex: string)
  {
    |hex| == 7 && hex[0] == '#' &&
    forall i :: 1 <= i < 7 ==> IsHexDigit(hex[i]) && !('A' <= hex[i] <= 'F')
  }

  /** Parsing the spelled-out colour gives the colour back. */
  lemma HexToRgbOfRgbToHex(c: Rgb)
    ensures IsHexColor(RgbToHex(c)) && HexToRgb(RgbToHex(c)) == c
  {
    var h := RgbToHex(c);
    assert AllHexDigits(h[1..]) by {
      assert forall i :: 0 <= i < 6 ==> h[1..][i] == h[i + 1];
    }
  }

  lemma {:induction false} LowerHexCharOfValue(ch: char)
    requires IsHexDigit(ch) && !('A' <= ch <= 'F')
    ensures LowerHexChar(HexDigitValue(ch)) == ch
  {
  }

  /** A lower-case `#rrggbb` string is spelled back exactly from the colour it parses to. */
  lemma RgbToHexOfHexToRgb(hex: string)
    requires IsLowerHexColor(hex)
    ensures IsHexColor(hex) && RgbToHex(HexToRgb(hex)) == hex
  {
    assert AllHexDigits(hex[1..]) by {
      assert forall i :: 0 <= i < 6 ==> hex[1..][i] == hex[i + 1];
    }
    var c := HexToRgb(hex);
    forall i | 1 <= i < 7 ensures LowerHexChar(HexDigitValue(hex[i])) == hex[i] {
      LowerHexCharOfValue(hex[i]);
    }
    assert c.red / 16 == HexDigitValue(hex[1]) && c.red % 16 == HexDigitValue(hex[2]);
    assert c.green / 16 == HexDigitValue(hex[3]) && c.green % 16 == HexDigitValue(hex[4]);
    assert c.blue / 16 == HexDigitValue(hex[5]) && c.blue % 16 == HexDigitValue(hex[6]);
  }

  /** The two origins allowed by name. */
  const LISTED_ORIGINS: seq<string> := ["https://arr.place", "https://arr-place.pages.dev"]

  const PAGES_SUFFIX: string := ".arr-place.pages.dev"

  predicate IsLowerAlnum(c: char) { 'a' <= c <= 'z' || '0' <= c <= '9' }

  /** Length of the run of [a-z0-9] characters at the start of `s`. */
  function AlnumRun(s: string): (k: nat)
    ensures k <= |s| && (forall i :: 0 <= i < k ==> IsLowerAlnum(s[i])) && (k < |s| ==> !IsLowerAlnum(s[k]))
  {
    if |s| == 0 || !IsLowerAlnum(s[0]) then 0 else 1 + AlnumRun(s[1..])
  }

  /** `https://[a-z0-9]+\.arr-place\.pages\.dev` matches at position i. The run of letters and
      digits is taken whole: the suffix starts with '.', which the run cannot contain. */
  predicate MatchAt(s: string, i: nat)
  {
    i + 8 <= |s| && s[i..i + 8] == "https://" &&
    var k := AlnumRun(s[i + 8..]);
    k > 0 && i + 8 + k + |PAGES_SUFFIX| <= |s| && s[i + 8 + k..i + 8 + k + |PAGES_SUFFIX|] == PAGES_SUFFIX
  }

  /** The unanchored search that `RegExp.test` performs, from position i on. */
  predicate SearchFrom(s: string, i: nat)
    decreases |s| - i
  {
    i <= |s| && (MatchAt(s, i) || SearchFrom(s, i + 1))
  }

  /** The pattern, stated directly: somewhere in `s`, "https://", then one or more of
      [a-z0-9], then ".arr-place.pages.dev". */
  ghost predicate ContainsPagesOrigin(s: string)
  {
    exists i: nat, j: nat :: PagesOriginAt(s, i, j)
  }

  /** s[i..j + |PAGES_SUFFIX|] is "https://", a non-empty run of [a-z0-9], and the suffix. */
  ghost predicate PagesOriginAt(s: string, i: nat, j: nat)
  {
    i + 8 < j && j + |PAGES_SUFFIX| <= |s| && s[i..i + 8] == "https://" &&
    (forall k :: i + 8 <= k < j ==> IsLowerAlnum(s[k])) && s[j..j + |PAGES_SUFFIX|] == PAGES_SUFFIX
  }

  lemma {:induction false} SearchFinds(s: string, from: nat, i: nat)
    requires from <= i && MatchAt(s, i)
    ensures SearchFrom(s, from)
    decreases i - from
  {
    if from < i { SearchFinds(s, from + 1, i); }
  }

  lemma {:induction false} SearchSound(s: string, from: nat)
    requires SearchFrom(s, from)
    ensures exists i: nat :: from <= i && MatchAt(s, i)
    decreases |s| - from
  {
    if !MatchAt(s, from) { SearchSound(s, from + 1); }
  }

  /** Every match the search finds is an occurrence of the pattern. */
  lemma SearchOnlyFindsPattern(s: string)
    requires SearchFrom(s, 0)
    ensures ContainsPagesOrigin(s)
  {
    SearchSound(s, 0);
    var i: nat :| MatchAt(s, i);
    var k := AlnumRun(s[i + 8..]);
    var j: nat := i + 8 + k;
    assert forall m :: i + 8 <= m < j ==> IsLowerAlnum(s[m]) by {
      assert forall m :: i + 8 <= m < j ==> s[m] == s[i + 8..][m - i - 8];
    }
    assert PagesOriginAt(s, i, j);
  }

  /** Every occurrence of the pattern is found by the search. */
  lemma SearchFindsPattern(s: string)
    requires ContainsPagesOrigin(s)
    ensures SearchFrom(s, 0)
  {
    var i: nat, j: nat :| PagesOriginAt(s, i, j);
    var t := s[i + 8..];
    assert forall m :: 0 <= m < j - i - 8 ==> IsLowerAlnum(t[m]) by {
      assert forall m :: 0 <= m < j - i - 8 ==> t[m] == s[i + 8 + m];
    }
    assert t[j - i - 8] == s[j] == '.';
    AlnumRunExact(t, j - i - 8);
    assert MatchAt(s, i);
    SearchFinds(s, 0, i);
  }

  /** The search finds a match exactly when the pattern occurs. */
  lemma SearchMatchesPattern(s: string)
    ensures SearchFrom(s, 0) <==> ContainsPagesOrigin(s)
  {
    if SearchFrom(s, 0) { SearchOnlyFindsPattern(s); }
    if ContainsPagesOrigin(s) { SearchFindsPattern(s); }
  }

  lemma {:induction false} AlnumRunExact(t: string, n: nat)
    requires n < |t| && (forall m :: 0 <= m < n ==> IsLowerAlnum(t[m])) && !IsLowerAlnum(t[n])
    ensures AlnumRun(t) == n
    decreases n
  {
    if n > 0 {
      assert forall m :: 0 <= m < n - 1 ==> t[1..][m] == t[m + 1];
      AlnumRunExact(t[1..], n - 1);
    }
  }

  /** `validateOrigin`: the two listed origins, and anything the pattern finds a match in,
      come back unchanged; everything else is undefined. */
  function ValidateOrigin(origin: string): (r: Option<string>)
    ensures r == None || r == Some(origin)
    ensures r.Some? <==> origin in LISTED_ORIGINS || ContainsPagesOrigin(origin)
  {
    SearchMatchesPattern(origin);
    if origin in LISTED_ORIGINS then Some(origin)
    else if SearchFrom(origin, 0) then Some(origin)
    else None
  }

  /** The pattern is unanchored: a preview origin embedded in a longer string is accepted. */
  lemma ValidateOriginUnanchored(prefix: string, name: string, tail: string)
    requires |name| > 0 && forall i :: 0 <= i < |name| ==> IsLowerAlnum(name[i])
    ensures ValidateOrigin(prefix + "https://" + name + PAGES_SUFFIX + tail).Some?
  {
    var s := prefix + "https://" + name + PAGES_SUFFIX + tail;
    var i := |prefix|;
    var j := i + 8 + |name|;
    assert s[i..i + 8] == "https://";
    assert forall k :: i + 8 <= k < j ==> s[k] == name[k - i - 8];
    assert s[j..j + |PAGES_SUFFIX|] == PAGES_SUFFIX;
    assert PagesOriginAt(s, i, j);
  }
}
