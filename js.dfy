/** JavaScript value semantics that the server and the clients rely on: optional values,
    JSON numbers that may be NaN, decimal rendering of integers inside template strings,
    `parseInt` prefix parsing and `String.prototype.split` on a one-character separator. */
module Js {

  datatype Option<+T> = None | Some(value: T)

  /** A value of a request body or a result of `parseInt`, as the numeric checks see it: an
      integer, or a value for which `isNaN` holds (such as the body value `"a"` or `{}`). Every comparison with NaN is false. */
  datatype Num = Int(value: int) | NaN

  predicate Less(a: Num, b: int) { a.Int? && a.value < b }
  predicate Greater(a: Num, b: int) { a.Int? && a.value > b }

  /** JavaScript truthiness of an optional string: undefined and "" are falsy. */
  predicate TruthyString(s: Option<string>) { s.Some? && s.value != "" }

  /** JavaScript truthiness of an optional integer: undefined and 0 are falsy. */
  predicate TruthyInt(n: Option<int>) { n.Some? && n.value != 0 }

  predicate IsDigit(c: char) { '0' <= c <= '9' }

  function DigitValue(c: char): (d: int)
    requires IsDigit(c)
    ensures 0 <= d < 10
  {
    c as int - '0' as int
  }

  function DigitChar(d: int): (c: char)
    requires 0 <= d < 10
    ensures IsDigit(c) && DigitValue(c) == d
  {
    ('0' as int + d) as char
  }

  predicate IsHexDigit(c: char) { IsDigit(c) || 'a' <= c <= 'f' || 'A' <= c <= 'F' }

  function HexDigitValue(c: char): (d: int)
    requires IsHexDigit(c)
    ensures 0 <= d < 16
  {
    if IsDigit(c) then DigitValue(c)
    else if 'a' <= c <= 'f' then c as int - 'a' as int + 10
    else c as int - 'A' as int + 10
  }

  function LowerHexChar(d: int): (c: char)
    requires 0 <= d < 16
    ensures IsHexDigit(c) && HexDigitValue(c) == d && !('A' <= c <= 'F')
  {
    if d < 10 then DigitChar(d) else ('a' as int + d - 10) as char
  }

  predicate AllDigits(s: string) { forall i :: 0 <= i < |s| ==> IsDigit(s[i]) }

  /** The decimal digits of a natural number, most significant first, without leading zeros. */
  function Digits(n: nat): (s: string)
    ensures |s| >= 1 && AllDigits(s)
    decreases n
  {
    if n < 10 then [DigitChar(n)] else Digits(n / 10) + [DigitChar(n % 10)]
  }

  /** How `${n}` renders an integer: an optional '-' followed by the digits. */
  function Decimal(n: int): string
  {
    if n < 0 then "-" + Digits(-n) else Digits(n)
  }

  /** The value of a string of decimal digits, read left to right. */
  function DigitsValue(s: string): (v: nat)
    requires AllDigits(s)
    decreases |s|
  {
    if |s| == 0 then 0 else DigitsValue(s[..|s| - 1]) * 10 + DigitValue(s[|s| - 1])
  }

  predicate AllHexDigits(s: string) { forall i :: 0 <= i < |s| ==> IsHexDigit(s[i]) }

  function HexValue(s: string): (v: nat)
    requires AllHexDigits(s)
    decreases |s|
  {
    if |s| == 0 then 0 else HexValue(s[..|s| - 1]) * 16 + HexDigitValue(s[|s| - 1])
  }

  /** Length of the run of decimal digits at the start of `s`. */
  function DigitRun(s: string): (k: nat)
    ensures k <= |s| && AllDigits(s[..k]) && (k < |s| ==> !IsDigit(s[k]))
  {
    if |s| == 0 || !IsDigit(s[0]) then 0
    else
      var k := 1 + DigitRun(s[1..]);
      assert s[..k] == [s[0]] + s[1..][..k - 1];
      k
  }

  /** Length of the run of hexadecimal digits at the start of `s`. */
  function HexRun(s: string): (k: nat)
    ensures k <= |s| && AllHexDigits(s[..k]) && (k < |s| ==> !IsHexDigit(s[k]))
  {
    if |s| == 0 || !IsHexDigit(s[0]) then 0
    else
      var k := 1 + HexRun(s[1..]);
      assert s[..k] == [s[0]] + s[1..][..k - 1];
      k
  }

  /** The white space `parseInt` skips before the number (the Unicode space separators other
      than U+00A0 and U+FEFF are not included). */
  predicate IsSpace(c: char)
  {
    c == ' ' || c == '\t' || c == '\n' || c == '\r' ||
    c as int == 0x0B || c as int == 0x0C || c as int == 0xA0 || c as int == 0xFEFF ||
    c as int == 0x2028 || c as int == 0x2029
  }

  function TrimStart(s: string): (t: string)
    ensures |t| <= |s| && (|t| > 0 ==> !IsSpace(t[0]))
  {
    if |s| > 0 && IsSpace(s[0]) then TrimStart(s[1..]) else s
  }

  /** The unsigned part of `parseInt`: a "0x"/"0X" prefix selects hexadecimal, otherwise the
      longest run of decimal digits; no digit at all gives None. */
  function ParseMagnitude(u: string): Option<nat>
  {
    if |u| >= 2 && u[0] == '0' && (u[1] == 'x' || u[1] == 'X') then
      var k := HexRun(u[2..]);
      if k == 0 then None else Some(HexValue(u[2..][..k]))
    else
      var k := DigitRun(u);
      if k == 0 then None else Some(DigitsValue(u[..k]))
  }

  /** `parseInt(s)` with no radix: skip leading white space, read an optional sign, then the
      magnitude; no digit at all gives NaN. */
  function ParseInt(s: string): Num
  {
    var t := TrimStart(s);
    var negative := |t| > 0 && t[0] == '-';
    var u := if |t| > 0 && (t[0] == '-' || t[0] == '+') then t[1..] else t;
    match ParseMagnitude(u)
    case None => NaN
    case Some(v) => Int(if negative then -(v as int) else v as int)
  }

  /** `s.split(sep)` for a one-character separator: the pieces between separators, in order;
      a string with no separator gives a single piece, "" gives [""]. */
  function Split(s: string, sep: char): (r: seq<string>)
    ensures |r| >= 1
    decreases |s|
  {
    if |s| == 0 then [""]
    else if s[0] == sep then [""] + Split(s[1..], sep)
    else
      var rest := Split(s[1..], sep);
      [[s[0]] + rest[0]] + rest[1..]
  }

  /** Reading the digits back gives the number they render. */
  lemma {:induction false} DigitsValueOfDigits(n: nat)
    ensures DigitsValue(Digits(n)) == n
    decreases n
  {
    if n >= 10 {
      var d := Digits(n / 10);
      var s := d + [DigitChar(n % 10)];
      assert s[..|s| - 1] == d;
      DigitsValueOfDigits(n / 10);
    }
  }

  /** The digit run of `a + rest` is exactly `a` when `a` is all digits and `rest` does not
      start with a digit. */
  lemma {:induction false} DigitRunOfConcat(a: string, rest: string)
    requires AllDigits(a)
    requires rest == [] || !IsDigit(rest[0])
    ensures DigitRun(a + rest) == |a|
    decreases |a|
  {
    if |a| > 0 {
      assert (a + rest)[1..] == a[1..] + rest;
      DigitRunOfConcat(a[1..], rest);
    }
  }

  /** The digits of `m` followed by a suffix that is neither a digit nor an 'x' read back as `m`. */
  lemma MagnitudeOfDigits(m: nat, rest: string)
    requires rest == [] || (!IsDigit(rest[0]) && rest[0] != 'x' && rest[0] != 'X')
    ensures ParseMagnitude(Digits(m) + rest) == Some(m)
  {
    var d := Digits(m);
    var u := d + rest;
    DigitRunOfConcat(d, rest);
    assert u[..|d|] == d;
    DigitsValueOfDigits(m);
    assert !(|u| >= 2 && u[0] == '0' && (u[1] == 'x' || u[1] == 'X')) by {
      if |u| >= 2 && u[0] == '0' {
        assert u[1] == if |d| == 1 then rest[0] else d[1];
      }
    }
  }

  /** `parseInt` of a rendered number followed by a non-digit suffix gives the number back,
      as long as the suffix cannot turn a leading "0" into a "0x" prefix. */
  lemma ParseIntOfDecimal(n: int, rest: string)
    requires rest == [] || (!IsDigit(rest[0]) && rest[0] != 'x' && rest[0] != 'X')
    ensures ParseInt(Decimal(n) + rest) == Int(n)
  {
    if n < 0 {
      ParseIntOfNegative(-n, rest);
    } else {
      ParseIntOfMagnitude(n, rest);
    }
  }

  /** The negative half of `ParseIntOfDecimal`: "-" and the digits of m read back as -m. */
  lemma ParseIntOfNegative(m: nat, rest: string)
    requires m > 0 && (rest == [] || (!IsDigit(rest[0]) && rest[0] != 'x' && rest[0] != 'X'))
    ensures ParseInt("-" + Digits(m) + rest) == Int(-(m as int))
    ensures Decimal(-(m as int)) + rest == "-" + Digits(m) + rest
  {
    var s := "-" + Digits(m) + rest;
    MagnitudeOfDigits(m, rest);
    assert s[0] == '-' && s[1..] == Digits(m) + rest;
    ParseIntSigned(s);
  }

  /** `parseInt` of a string that starts with '-' negates the magnitude after the sign. */
  lemma ParseIntSigned(s: string)
    requires |s| > 0 && s[0] == '-' && ParseMagnitude(s[1..]).Some?
    ensures ParseInt(s) == Int(-(ParseMagnitude(s[1..]).value as int))
  {
    assert TrimStart(s) == s;
  }

  /** The non-negative half of `ParseIntOfDecimal`. */
  lemma ParseIntOfMagnitude(m: nat, rest: string)
    requires rest == [] || (!IsDigit(rest[0]) && rest[0] != 'x' && rest[0] != 'X')
    ensures ParseInt(Digits(m) + rest) == Int(m)
    ensures Decimal(m) + rest == Digits(m) + rest
  {
    var s := Digits(m) + rest;
    MagnitudeOfDigits(m, rest);
    assert s[0] == Digits(m)[0];
    assert TrimStart(s) == s;
  }

  /** Splitting at the first separator: a separator-free head becomes the first piece. */
  lemma {:induction false} SplitAtSeparator(a: string, sep: char, b: string)
    requires sep !in a
    ensures Split(a + [sep] + b, sep) == [a] + Split(b, sep)
    decreases |a|
  {
    if |a| == 0 {
      assert a + [sep] + b == [sep] + b;
      assert ([sep] + b)[1..] == b;
    } else {
      var s := a + [sep] + b;
      assert s[0] == a[0];
      assert s[1..] == a[1..] + [sep] + b;
      SplitAtSeparator(a[1..], sep, b);
      assert [a[0]] + a[1..] == a;
    }
  }

  /** A string without the separator splits into itself. */
  lemma {:induction false} SplitWithoutSeparator(a: string, sep: char)
    requires sep !in a
    ensures Split(a, sep) == [a]
    decreases |a|
  {
    if |a| > 0 {
      assert a[0] != sep;
      SplitWithoutSeparator(a[1..], sep);
      assert [a[0]] + a[1..] == a;
    }
  }

  /** A rendered number contains neither of the name separators '_' and '.', and a
      non-negative one contains no '-'. */
  lemma DecimalSeparators(n: int)
    ensures '_' !in Decimal(n) && '.' !in Decimal(n)
    ensures n >= 0 ==> '-' !in Decimal(n)
    ensures |Decimal(n)| >= 1 && !IsDigit('x') && !IsDigit('-') && !IsDigit('.')
  {
    var d := Digits(if n < 0 then -n else n);
    assert forall i :: 0 <= i < |d| ==> IsDigit(d[i]);
    assert '_' !in d && '.' !in d && '-' !in d;
  }
}
