/**
  The JavaScript string operations the app relies on: `startsWith`, `includes`,
  number-to-decimal-string conversion in template literals, and `parseInt`
  with no radix argument (section 19.2.5 of ECMA-262).
 */
module Text {
  import opened Wrappers

  /** `s.startsWith(p)`. */
  predicate StartsWith(s: string, p: string) {
    |p| <= |s| && s[..|p|] == p
  }

  /** `s.includes(q)`: `q` occurs in `s` at some position (the empty string occurs everywhere). */
  predicate Includes(s: string, q: string)
    decreases |s|
  {
    StartsWith(s, q) || (|s| > 0 && Includes(s[1..], q))
  }

  lemma IncludesEmpty(s: string)
    ensures Includes(s, [])
  {
    assert StartsWith(s, []);
  }

  predicate IsDecimalDigit(c: char) {
    '0' <= c <= '9'
  }

  function DigitChar(d: nat): (c: char)
    requires d < 10
    ensures IsDecimalDigit(c) && DigitValue(c) == d
  {
    "0123456789"[d]
  }

  /** `${n}` for a non-negative integer: its shortest decimal representation. */
  function NatToString(n: nat): (r: string)
    ensures |r| > 0
    ensures forall i :: 0 <= i < |r| ==> IsDecimalDigit(r[i])
    ensures r[0] == '0' ==> n == 0 && |r| == 1
    decreases n
  {
    if n < 10 then [DigitChar(n)] else NatToString(n / 10) + [DigitChar(n % 10)]
  }

  lemma NatToStringZero()
    ensures NatToString(0) == "0"
  {
    assert DigitChar(0) == '0';
  }

  /** The characters `parseInt` skips before the number: ECMAScript's WhiteSpace and LineTerminator. */
  predicate IsWhitespace(c: char) {
    c in {'\t', '\n', '\U{000B}', '\U{000C}', '\r', ' ', '\U{00A0}', '\U{1680}',
          '\U{2000}', '\U{2001}', '\U{2002}', '\U{2003}', '\U{2004}', '\U{2005}',
          '\U{2006}', '\U{2007}', '\U{2008}', '\U{2009}', '\U{200A}', '\U{2028}',
          '\U{2029}', '\U{202F}', '\U{205F}', '\U{3000}', '\U{FEFF}'}
  }

  function TrimStart(s: string): (r: string)
    ensures |r| <= |s| && r == s[|s| - |r|..]
    ensures |r| == 0 || !IsWhitespace(r[0])
    decreases |s|
  {
    if |s| > 0 && IsWhitespace(s[0]) then TrimStart(s[1..]) else s
  }

  /** The value of a digit in radix 36 (`0-9`, `a-z`, `A-Z`); 36 for any other character. */
  function DigitValue(c: char): (v: nat)
    ensures v <= 36
  {
    if '0' <= c <= '9' then c as int - '0' as int
    else if 'a' <= c <= 'z' then c as int - 'a' as int + 10
    else if 'A' <= c <= 'Z' then c as int - 'A' as int + 10
    else 36
  }

  /** Length of the longest prefix of `s` made of digits of the given radix. */
  function DigitRun(s: string, radix: nat): (n: nat)
    ensures n <= |s|
    ensures forall i :: 0 <= i < n ==> DigitValue(s[i]) < radix
    ensures n < |s| ==> DigitValue(s[n]) >= radix
    decreases |s|
  {
    if |s| > 0 && DigitValue(s[0]) < radix then 1 + DigitRun(s[1..], radix) else 0
  }

  /** The number a digit string denotes in the given radix, most significant digit first. */
  function ValueOf(ds: string, radix: nat): nat
    decreases |ds|
  {
    if |ds| == 0 then 0
    else ValueOf(ds[..|ds| - 1], radix) * radix + DigitValue(ds[|ds| - 1])
  }

  /**
    `parseInt(s)`: skip leading whitespace, read an optional sign, read a `0x`/`0X`
    prefix as radix 16, then take the longest run of digits; `None` stands for `NaN`,
    which is what JavaScript returns when that run is empty.
   */
  function ParseInt(s: string): (r: Option<int>)
    ensures r.None? <==> |Unprefixed(s)| == 0 || DigitValue(Unprefixed(s)[0]) >= Radix(s)
    ensures r.Some? && Sign(s) == 1 ==> r.value >= 0
    ensures r.Some? && Sign(s) == -1 ==> r.value <= 0
  {
    var w := Unprefixed(s);
    var n := DigitRun(w, Radix(s));
    if n == 0 then None else Some(Sign(s) * ValueOf(w[..n], Radix(s)))
  }

  /** The input of `parseInt` after whitespace and sign. */
  function Unsigned(s: string): string {
    var t := TrimStart(s);
    if |t| > 0 && (t[0] == '-' || t[0] == '+') then t[1..] else t
  }

  function Sign(s: string): int {
    var t := TrimStart(s);
    if |t| > 0 && t[0] == '-' then -1 else 1
  }

  predicate HasHexPrefix(u: string) {
    |u| >= 2 && u[0] == '0' && (u[1] == 'x' || u[1] == 'X')
  }

  function Radix(s: string): nat {
    if HasHexPrefix(Unsigned(s)) then 16 else 10
  }

  /** The digits `parseInt` reads, after whitespace, sign and radix prefix. */
  function Unprefixed(s: string): string {
    var u := Unsigned(s);
    if HasHexPrefix(u) then u[2..] else u
  }

  lemma {:induction false} DigitRunAll(ds: string, radix: nat)
    requires forall i :: 0 <= i < |ds| ==> DigitValue(ds[i]) < radix
    ensures DigitRun(ds, radix) == |ds|
    decreases |ds|
  {
    if |ds| > 0 {
      DigitRunAll(ds[1..], radix);
    }
  }

  lemma {:induction false} ValueOfDecimal(n: nat)
    ensures ValueOf(NatToString(n), 10) == n
    decreases n
  {
    var s := NatToString(n);
    if n >= 10 {
      ValueOfDecimal(n / 10);
      assert s[..|s| - 1] == NatToString(n / 10);
      assert s[|s| - 1] == DigitChar(n % 10);
    }
  }

  /**
    The number a client writes with `${n}` is the number `parseInt` reads back,
    also when text follows it, as long as that text does not start with a digit
    or with the `x` that would turn a leading `0` into a hexadecimal prefix.
   */
  lemma ParseIntLeadingNat(n: nat, rest: string)
    requires |rest| == 0 || (!IsDecimalDigit(rest[0]) && rest[0] != 'x' && rest[0] != 'X')
    ensures ParseInt(NatToString(n) + rest) == Some(n)
  {
    var d := NatToString(n);
    var s := d + rest;
    DecimalThenNoHexPrefix(d, rest);
    ParseIntUnsignedDecimal(s);
    DigitRunAll(d, 10);
    DigitRunPrefix(d, rest, 10);
    assert s[..|d|] == d;
    ValueOfDecimal(n);
  }

  lemma DecimalThenNoHexPrefix(d: string, rest: string)
    requires |d| > 0 && forall i :: 0 <= i < |d| ==> IsDecimalDigit(d[i])
    requires d[0] == '0' ==> |d| == 1
    requires |rest| == 0 || (rest[0] != 'x' && rest[0] != 'X')
    ensures IsDecimalDigit((d + rest)[0]) && !HasHexPrefix(d + rest)
  {
    var s := d + rest;
    assert s[0] == d[0];
    if |s| >= 2 && s[0] == '0' {
      assert s[1] == rest[0];
    }
  }

  /** Input that starts with a decimal digit and no `0x` prefix is read as a plain decimal number. */
  lemma ParseIntUnsignedDecimal(s: string)
    requires |s| > 0 && IsDecimalDigit(s[0]) && !HasHexPrefix(s)
    ensures DigitRun(s, 10) > 0
    ensures ParseInt(s) == Some(ValueOf(s[..DigitRun(s, 10)], 10))
  {
    assert !IsWhitespace(s[0]);
    assert TrimStart(s) == s;
    assert Unsigned(s) == s;
  }

  /** A digit run that stops at a non-digit is unaffected by what follows. */
  lemma {:induction false} DigitRunPrefix(ds: string, rest: string, radix: nat)
    requires forall i :: 0 <= i < |ds| ==> DigitValue(ds[i]) < radix
    requires |rest| == 0 || DigitValue(rest[0]) >= radix
    ensures DigitRun(ds + rest, radix) == |ds|
    decreases |ds|
  {
    if |ds| == 0 {
      assert ds + rest == rest;
    } else {
      assert (ds + rest)[1..] == ds[1..] + rest;
      DigitRunPrefix(ds[1..], rest, radix);
    }
  }

  /** The decimal rendering of a natural number parses to that number. */
  lemma ParseIntNatToString(n: nat)
    ensures ParseInt(NatToString(n)) == Some(n)
  {
    ParseIntLeadingNat(n, []);
    assert NatToString(n) + [] == NatToString(n);
  }

  /** A string without a single decimal digit parses to `NaN`. */
  lemma ParseIntNoDigits(s: string)
    requires forall i :: 0 <= i < |s| ==> !IsDecimalDigit(s[i])
    ensures ParseInt(s) == None
  {
    var t := TrimStart(s);
    var u := Unsigned(s);
    assert |u| > 0 ==> u[0] == s[|s| - |u|];
    assert !HasHexPrefix(u);
    if |u| > 0 {
      assert !IsDecimalDigit(u[0]);
    }
  }
}
