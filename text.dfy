/** String helpers of the JavaScript platform that the core relies on:
    `Number.prototype.toString` and `parseInt` for page numbers,
    `String.prototype.trim` for blank-input checks, and `encodeURIComponent`
    for search URLs. */
module Text {
  import opened Json

  predicate IsDigit(c: char)
  {
    '0' <= c <= '9'
  }

  predicate AllDigits(s: string)
  {
    forall i :: 0 <= i < |s| ==> IsDigit(s[i])
  }

  function DigitChar(d: nat): (c: char)
    requires d < 10
    ensures IsDigit(c) && c as int - '0' as int == d
  {
    "0123456789"[d]
  }

  function DigitValue(c: char): nat
    requires IsDigit(c)
  {
    c as int - '0' as int
  }

  /** Decimal text of a natural number, most significant digit first. */
  function NatToString(n: nat): (s: string)
    ensures s != [] && AllDigits(s)
    ensures s[0] == '0' ==> n == 0
  {
    if n < 10 then [DigitChar(n)] else NatToString(n / 10) + [DigitChar(n % 10)]
  }

  /** `n.toString()` for an integer page number. */
  function IntToString(n: int): string
  {
    if n >= 0 then NatToString(n) else "-" + NatToString(-n)
  }

  /** The text is a run of digits, after a minus sign when negative. */
  lemma IntToStringShape(n: int)
    ensures IntToString(n) != []
    ensures n >= 0 ==> AllDigits(IntToString(n))
    ensures n < 0 ==> IntToString(n)[0] == '-' && AllDigits(IntToString(n)[1..])
  {
    if n < 0 {
      assert IntToString(n)[1..] == NatToString(-n);
    }
  }

  /** Value of a run of decimal digits, read left to right. */
  function DigitsValue(s: string): nat
    requires AllDigits(s)
  {
    if s == [] then 0 else DigitsValue(s[..|s| - 1]) * 10 + DigitValue(s[|s| - 1])
  }

  /** The longest prefix of `s` made of decimal digits. */
  function LeadingDigits(s: string): (d: string)
    ensures AllDigits(d) && |d| <= |s| && d == s[..|d|]
    ensures |d| < |s| ==> !IsDigit(s[|d|])
  {
    if s == [] || !IsDigit(s[0]) then [] else [s[0]] + LeadingDigits(s[1..])
  }

  /** ECMAScript WhiteSpace and LineTerminator code points, the characters
      that `trim` and `parseInt` skip. */
  predicate IsWhitespace(c: char)
  {
    var u := c as int;
    u == 0x09 || u == 0x0B || u == 0x0C || u == 0x20 || u == 0xA0 || u == 0xFEFF
    || u == 0x1680 || (0x2000 <= u <= 0x200A) || u == 0x202F || u == 0x205F || u == 0x3000
    || u == 0x0A || u == 0x0D || u == 0x2028 || u == 0x2029
  }

  predicate AllWhitespace(s: string)
  {
    forall i :: 0 <= i < |s| ==> IsWhitespace(s[i])
  }

  function TrimStart(s: string): (r: string)
    ensures |r| <= |s| && r == s[|s| - |r|..]
    ensures AllWhitespace(s[..|s| - |r|])
    ensures r != [] ==> !IsWhitespace(r[0])
  {
    if s != [] && IsWhitespace(s[0]) then TrimStart(s[1..]) else s
  }

  function TrimEnd(s: string): (r: string)
    ensures |r| <= |s| && r == s[..|r|]
    ensures AllWhitespace(s[|r|..])
    ensures r != [] ==> !IsWhitespace(r[|r| - 1])
  {
    if s != [] && IsWhitespace(s[|s| - 1]) then TrimEnd(s[..|s| - 1]) else s
  }

  /** `s.trim()`. */
  function Trim(s: string): (r: string)
  {
    TrimEnd(TrimStart(s))
  }

  /** A string trims to empty exactly when every character is whitespace. */
  lemma TrimEmpty(s: string)
    ensures Trim(s) == [] <==> AllWhitespace(s)
  {
    var t := TrimStart(s);
    if t == [] {
      assert s[..|s|] == s;
    } else {
      var e := TrimEnd(t);
      if e == [] {
        assert false;
      }
      assert t[0] == s[|s| - |t|];
    }
  }

  /** `parseInt(s, 10)`: skips leading whitespace, reads an optional sign and
      then as many decimal digits as follow. `None` stands for `NaN`, the
      answer when no digit follows. */
  function ParseInt(s: string): (r: Option<int>)
  {
    var t := TrimStart(s);
    var negative := t != [] && t[0] == '-';
    var body := if t != [] && (t[0] == '-' || t[0] == '+') then t[1..] else t;
    var digits := LeadingDigits(body);
    if digits == [] then None
    else if negative then Some(0 - DigitsValue(digits) as int)
    else Some(DigitsValue(digits))
  }

  lemma {:induction false} DigitsValueOfNat(n: nat)
    ensures DigitsValue(NatToString(n)) == n
  {
    if n >= 10 {
      var s := NatToString(n);
      var prefix := NatToString(n / 10);
      assert s == prefix + [DigitChar(n % 10)];
      assert s[..|s| - 1] == prefix;
      DigitsValueOfNat(n / 10);
    }
  }

  lemma {:induction false} LeadingDigitsOfDigits(s: string)
    requires AllDigits(s)
    ensures LeadingDigits(s) == s
  {
    if s != [] {
      LeadingDigitsOfDigits(s[1..]);
    }
  }

  /** Round trip of `page.toString()` through `parseInt`: a page number
      written into the URL reads back as the same number. */
  lemma ParseIntOfIntToString(n: int)
    ensures ParseInt(IntToString(n)) == Some(n)
  {
    if n >= 0 {
      ParseIntOfNatToString(n);
    } else {
      ParseIntOfNegative(n);
    }
  }

  lemma ParseIntOfNatToString(n: nat)
    ensures ParseInt(NatToString(n)) == Some(n)
  {
    DigitsValueOfNat(n);
    ParseDigits(NatToString(n), n);
  }

  lemma ParseIntOfNegative(n: int)
    requires n < 0
    ensures ParseInt("-" + NatToString(-n)) == Some(n)
  {
    DigitsValueOfNat(-n);
    ParseNegated(NatToString(-n), -n);
  }

  /** A run of digits parses as its value. */
  lemma {:induction false} ParseDigits(digits: string, m: nat)
    requires digits != [] && AllDigits(digits) && DigitsValue(digits) == m
    ensures ParseInt(digits) == Some(m)
  {
    LeadingDigitsOfDigits(digits);
    assert !IsWhitespace(digits[0]);
    assert TrimStart(digits) == digits;
  }

  /** A minus sign followed by a run of digits parses as the negated value. */
  lemma {:induction false} ParseNegated(digits: string, m: nat)
    requires digits != [] && AllDigits(digits) && DigitsValue(digits) == m
    ensures ParseInt("-" + digits) == Some(0 - m)
  {
    LeadingDigitsOfDigits(digits);
    var s := "-" + digits;
    assert !IsWhitespace(s[0]);
    assert TrimStart(s) == s;
    assert s[1..] == digits;
  }

  // ---------------------------------------------------------------------
  // encodeURIComponent

  /** The characters `encodeURIComponent` leaves as they are. */
  predicate Unreserved(c: char)
  {
    ('A' <= c <= 'Z') || ('a' <= c <= 'z') || ('0' <= c <= '9')
    || c == '-' || c == '_' || c == '.' || c == '!' || c == '~'
    || c == '*' || c == '\'' || c == '(' || c == ')'
  }

  function HexDigit(d: nat): (c: char)
    requires d < 16
    ensures Unreserved(c)
  {
    "0123456789ABCDEF"[d]
  }

  /** UTF-8 encoding of one code point. */
  function Utf8(c: char): (bytes: seq<nat>)
    ensures 1 <= |bytes| <= 4
    ensures forall i :: 0 <= i < |bytes| ==> bytes[i] < 256
    ensures |bytes| == 1 <==> c as int < 0x80
    ensures c as int < 0x80 ==> bytes == [c as int]
  {
    var cp := c as int;
    if cp < 0x80 then [cp]
    else if cp < 0x800 then [0xC0 + cp / 64, 0x80 + cp % 64]
    else if cp < 0x10000 then [0xE0 + cp / 4096, 0x80 + (cp / 64) % 64, 0x80 + cp % 64]
    else [0xF0 + cp / 262144, 0x80 + (cp / 4096) % 64, 0x80 + (cp / 64) % 64, 0x80 + cp % 64]
  }

  /** `%XY` for every byte, upper-case hexadecimal. */
  function PercentEncode(bytes: seq<nat>): (r: string)
    requires forall i :: 0 <= i < |bytes| ==> bytes[i] < 256
    ensures |r| == 3 * |bytes|
    ensures forall i :: 0 <= i < |r| ==> Unreserved(r[i]) || r[i] == '%'
  {
    if bytes == [] then []
    else ['%', HexDigit(bytes[0] / 16), HexDigit(bytes[0] % 16)] + PercentEncode(bytes[1..])
  }

  function EncodeChar(c: char): (r: string)
    ensures |r| >= 1
    ensures forall i :: 0 <= i < |r| ==> Unreserved(r[i]) || r[i] == '%'
    ensures Unreserved(c) <==> r == [c]
  {
    if Unreserved(c) then [c] else PercentEncode(Utf8(c))
  }

  /** `encodeURIComponent(s)`. Every character of the result is unreserved or
      a `%` escape, so it can never end a query value early (`&`, `#`, `=`)
      or add a path segment (`/`). */
  function EncodeURIComponent(s: string): (r: string)
    ensures |r| >= |s|
    ensures forall i :: 0 <= i < |r| ==> Unreserved(r[i]) || r[i] == '%'
    ensures (forall i :: 0 <= i < |s| ==> Unreserved(s[i])) ==> r == s
    ensures r == [] <==> s == []
  {
    if s == [] then [] else EncodeChar(s[0]) + EncodeURIComponent(s[1..])
  }
}
