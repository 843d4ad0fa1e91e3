/**
 * The quantity field: `handleChange` computes `Math.max(1, parseInt(value) || 0)`
 * and passes it to `onChange`. `parseInt` (one argument, no radix) is modelled
 * on integers: `None` stands for `NaN`, and `-0` is 0.
 */
module NcInputNumber {
  import opened Wrappers

  /** The characters `parseInt` skips before the number (white space and line terminators). */
  predicate IsJsWhitespace(c: char) {
    || c == '\t' || c == '\n' || c == '\U{000B}' || c == '\U{000C}' || c == '\r' || c == ' '
    || c == '\U{00A0}' || c == '\U{1680}' || ('\U{2000}' <= c <= '\U{200A}')
    || c == '\U{2028}' || c == '\U{2029}' || c == '\U{202F}' || c == '\U{205F}'
    || c == '\U{3000}' || c == '\U{FEFF}'
  }

  /** The value of `c` as a digit in base `radix` (10 or 16), if it is one. */
  function DigitValue(c: char, radix: nat): (d: Option<nat>)
    ensures d.Some? ==> d.value < radix
  {
    if '0' <= c <= '9' && (c as int) - ('0' as int) < radix then Some((c as int) - ('0' as int))
    else if radix == 16 && 'a' <= c <= 'f' then Some((c as int) - ('a' as int) + 10)
    else if radix == 16 && 'A' <= c <= 'F' then Some((c as int) - ('A' as int) + 10)
    else None
  }

  /** The input with its leading white space removed. */
  function TrimStart(s: string): (r: string)
    ensures |r| <= |s| && r == s[|s| - |r|..]
    ensures forall i :: 0 <= i < |s| - |r| ==> IsJsWhitespace(s[i])
    ensures r == [] || !IsJsWhitespace(r[0])
  {
    if |s| > 0 && IsJsWhitespace(s[0]) then
      var r := TrimStart(s[1..]);
      assert s[1..][|s| - 1 - |r|..] == s[|s| - |r|..];
      assert forall i :: 1 <= i < |s| - |r| ==> s[i] == s[1..][i - 1];
      r
    else s
  }

  /** The length of the longest prefix of `s` made of base-`radix` digits. */
  function DigitRun(s: string, radix: nat): (n: nat)
    ensures n <= |s|
    ensures forall i :: 0 <= i < n ==> DigitValue(s[i], radix).Some?
    ensures n < |s| ==> DigitValue(s[n], radix).None?
  {
    if |s| > 0 && DigitValue(s[0], radix).Some? then 1 + DigitRun(s[1..], radix) else 0
  }

  /**
   * The number a run of base-`radix` digits denotes, most significant first
   * (it is only applied to runs of digits, so the fallback 0 is never used).
   */
  function DigitsValue(s: string, radix: nat): nat {
    if |s| == 0 then 0
    else DigitsValue(s[..|s| - 1], radix) * radix + DigitValue(s[|s| - 1], radix).GetOr(0)
  }

  /**
   * The unsigned part of `parseInt`: base 16 after `0x` or `0X`, base 10
   * otherwise, then the longest run of digits; no digit gives `NaN`.
   */
  function ParseDigits(u: string): Option<nat> {
    var hex := |u| >= 2 && u[0] == '0' && (u[1] == 'x' || u[1] == 'X');
    var radix := if hex then 16 else 10;
    var body := if hex then u[2..] else u;
    var n := DigitRun(body, radix);
    if n == 0 then None else Some(DigitsValue(body[..n], radix))
  }

  /** `parseInt` after the white space: one optional sign, then the digits. */
  function ParseSigned(t: string): Option<int> {
    var negative := |t| > 0 && t[0] == '-';
    var u := if |t| > 0 && (t[0] == '-' || t[0] == '+') then t[1..] else t;
    match ParseDigits(u)
    case None => None
    case Some(v) => Some(if negative then -(v as int) else v)
  }

  /**
   * `parseInt(s)`: skip white space, take one optional sign, then read the
   * digits. A number is only found when the first character after the white
   * space is a sign or a digit.
   */
  function ParseInt(s: string): (r: Option<int>)
    ensures r.Some? ==> var t := TrimStart(s); |t| > 0 && (t[0] == '+' || t[0] == '-' || '0' <= t[0] <= '9')
  {
    ParseSigned(TrimStart(s))
  }

  /** `Math.max(1, parsed || 0)`: `NaN` and zero become 0, then the result is at least 1. */
  function Clamp(parsed: Option<int>): (r: int)
    ensures r >= 1
    ensures parsed.None? ==> r == 1
    ensures parsed.Some? && parsed.value <= 0 ==> r == 1
    ensures parsed.Some? && parsed.value > 0 ==> r == parsed.value
  {
    var n := parsed.GetOr(0);
    if n > 1 then n else 1
  }

  /** `handleChange`: the list of values passed to `onChange` for one change event. */
  function HandleChange(value: string): (calls: seq<int>)
    ensures |calls| == 1
    ensures calls[0] >= 1
  {
    [Clamp(ParseInt(value))]
  }

  /**
   * The decimal text of a natural number, no leading zeros. `String(n)`
   * writes this for every n below 10^21; from there on it uses exponent
   * notation, which this model does not cover.
   */
  function Decimal(n: nat): (s: string)
    ensures |s| > 0
    ensures forall i :: 0 <= i < |s| ==> '0' <= s[i] <= '9'
    ensures s[0] == '0' ==> n == 0 && |s| == 1
  {
    var d := ['0' + ((n % 10) as char)];
    if n < 10 then d else Decimal(n / 10) + d
  }

  lemma {:induction false} DecimalValue(n: nat)
    ensures forall i :: 0 <= i < |Decimal(n)| ==> DigitValue(Decimal(n)[i], 10).Some?
    ensures DigitsValue(Decimal(n), 10) == n
  {
    if n >= 10 {
      DecimalValue(n / 10);
      var s := Decimal(n);
      assert s[..|s| - 1] == Decimal(n / 10);
    }
  }

  lemma {:induction false} TrimStartSkips(ws: string, rest: string)
    requires forall i :: 0 <= i < |ws| ==> IsJsWhitespace(ws[i])
    requires rest == [] || !IsJsWhitespace(rest[0])
    ensures TrimStart(ws + rest) == rest
  {
    if |ws| > 0 {
      assert (ws + rest)[1..] == ws[1..] + rest;
      TrimStartSkips(ws[1..], rest);
    }
  }

  /** The digits of `Decimal(n)`, followed by a character that is no digit, read back as `n`. */
  lemma ParseDigitsDecimal(n: nat, rest: string)
    requires rest == [] || (DigitValue(rest[0], 10).None? && rest[0] != 'x' && rest[0] != 'X')
    ensures ParseDigits(Decimal(n) + rest) == Some(n)
  {
    var d := Decimal(n);
    var u := d + rest;
    assert u[..|d|] == d;
    DecimalValue(n);
    assert DigitRun(u, 10) == |d|;
  }

  /**
   * `parseInt` reads white space, a sign and a decimal number, and stops at
   * the first character that cannot continue it.
   */
  lemma ParseIntReadsDecimal(ws: string, sign: string, n: nat, rest: string)
    requires forall i :: 0 <= i < |ws| ==> IsJsWhitespace(ws[i])
    requires sign == "" || sign == "+" || sign == "-"
    requires rest == [] || (DigitValue(rest[0], 10).None? && rest[0] != 'x' && rest[0] != 'X')
    ensures ParseInt(ws + sign + Decimal(n) + rest) == Some(if sign == "-" then -(n as int) else n)
  {
    SkipWhitespaceBeforeDecimal(ws, sign, n, rest);
    SignedDecimal(sign, n, rest);
  }

  lemma SkipWhitespaceBeforeDecimal(ws: string, sign: string, n: nat, rest: string)
    requires forall i :: 0 <= i < |ws| ==> IsJsWhitespace(ws[i])
    requires sign == "" || sign == "+" || sign == "-"
    ensures ParseInt(ws + sign + Decimal(n) + rest) == ParseSigned(sign + (Decimal(n) + rest))
  {
    var t := sign + (Decimal(n) + rest);
    ConcatAssoc(ws, sign, Decimal(n), rest);
    assert t[0] == '+' || t[0] == '-' || '0' <= t[0] <= '9' by {
      if sign == "" { assert t[0] == Decimal(n)[0]; }
    }
    ParseIntSkipsWhitespace(ws, t);
  }

  lemma SignedDecimal(sign: string, n: nat, rest: string)
    requires sign == "" || sign == "+" || sign == "-"
    requires rest == [] || (DigitValue(rest[0], 10).None? && rest[0] != 'x' && rest[0] != 'X')
    ensures ParseSigned(sign + (Decimal(n) + rest)) == Some(if sign == "-" then -(n as int) else n)
  {
    ParseDigitsDecimal(n, rest);
    assert (Decimal(n) + rest)[0] == Decimal(n)[0];
    SignedParse(sign, Decimal(n) + rest, n);
  }

  lemma ConcatAssoc(a: string, b: string, c: string, d: string)
    ensures a + b + c + d == a + (b + (c + d))
  {
  }

  lemma ConcatEmpty(d: string)
    ensures [] + [] + d + [] == d
  {
  }

  /** White space before the sign is skipped. */
  lemma ParseIntSkipsWhitespace(ws: string, t: string)
    requires forall i :: 0 <= i < |ws| ==> IsJsWhitespace(ws[i])
    requires t == [] || !IsJsWhitespace(t[0])
    ensures ParseInt(ws + t) == ParseSigned(t)
  {
    TrimStartSkips(ws, t);
  }

  lemma SignedParse(sign: string, u: string, n: nat)
    requires sign == "" || sign == "+" || sign == "-"
    requires |u| > 0 && '0' <= u[0] <= '9'
    requires ParseDigits(u) == Some(n)
    ensures ParseSigned(sign + u) == Some(if sign == "-" then -(n as int) else n)
  {
    if sign == "" {
      assert sign + u == u;
      assert u[0] != '-' && u[0] != '+';
    } else {
      SignCharParse(sign[0], u, n);
      assert sign + u == [sign[0]] + u;
    }
  }

  lemma SignCharParse(c: char, u: string, n: nat)
    requires c == '+' || c == '-'
    requires ParseDigits(u) == Some(n)
    ensures ParseSigned([c] + u) == Some(if c == '-' then -(n as int) else n)
  {
    assert ([c] + u)[1..] == u;
  }

  /** The decimal text of a natural number parses back to it. */
  lemma ParseIntDecimal(n: nat)
    ensures ParseInt(Decimal(n)) == Some(n)
  {
    ParseIntReadsDecimal([], [], n, []);
    ConcatEmpty(Decimal(n));
  }

  /** Text that does not start with a digit holds no number. */
  lemma ParseDigitsNoDigit(u: string)
    requires u == [] || !('0' <= u[0] <= '9')
    ensures ParseDigits(u) == None
  {
    if u != [] {
      assert DigitValue(u[0], 10).None?;
    }
  }

  /**
   * `parseInt` gives `NaN` when, after the white space and one optional
   * sign, the text is empty or does not start with a digit.
   */
  lemma ParseIntNaN(ws: string, sign: string, u: string)
    requires forall i :: 0 <= i < |ws| ==> IsJsWhitespace(ws[i])
    requires sign == "" || sign == "+" || sign == "-"
    requires u == [] || (!('0' <= u[0] <= '9') && !IsJsWhitespace(u[0]) && u[0] != '+' && u[0] != '-')
    ensures ParseInt(ws + sign + u) == None
  {
    var t := sign + u;
    assert ws + sign + u == ws + t;
    assert t == [] || !IsJsWhitespace(t[0]) by {
      if sign == "" { assert t == u; }
    }
    ParseIntSkipsWhitespace(ws, t);
    ParseDigitsNoDigit(u);
    SignedNone(sign, u);
  }

  /** A sign followed by text that holds no number gives `NaN`. */
  lemma SignedNone(sign: string, u: string)
    requires sign == "" || sign == "+" || sign == "-"
    requires u == [] || (u[0] != '+' && u[0] != '-')
    requires ParseDigits(u) == None
    ensures ParseSigned(sign + u) == None
  {
    if sign == "" {
      assert sign + u == u;
    } else {
      SignCharNone(sign[0], u);
      assert sign + u == [sign[0]] + u;
    }
  }

  lemma SignCharNone(c: char, u: string)
    requires c == '+' || c == '-'
    requires ParseDigits(u) == None
    ensures ParseSigned([c] + u) == None
  {
    assert ([c] + u)[1..] == u;
  }

  /** `0x` or `0X` not followed by a hexadecimal digit holds no number. */
  lemma ParseDigitsHexNaN(x: char, rest: string)
    requires x == 'x' || x == 'X'
    requires rest == [] || DigitValue(rest[0], 16).None?
    ensures ParseDigits(['0', x] + rest) == None
  {
    var u := ['0', x] + rest;
    assert u[2..] == rest;
  }

  /** After the white space and an optional sign, `0x` with no hexadecimal digit gives `NaN`. */
  lemma ParseIntHexNaN(ws: string, sign: string, x: char, rest: string)
    requires forall i :: 0 <= i < |ws| ==> IsJsWhitespace(ws[i])
    requires sign == "" || sign == "+" || sign == "-"
    requires x == 'x' || x == 'X'
    requires rest == [] || DigitValue(rest[0], 16).None?
    ensures ParseInt(ws + sign + (['0', x] + rest)) == None
  {
    var u := ['0', x] + rest;
    var t := sign + u;
    assert ws + sign + u == ws + t;
    assert t[0] == '+' || t[0] == '-' || t[0] == '0' by {
      if sign == "" { assert t == u; }
    }
    ParseIntSkipsWhitespace(ws, t);
    ParseDigitsHexNaN(x, rest);
    SignedNone(sign, u);
  }

  /** A run of base-`radix` digits, stopped by a character that is none, is the whole digit run. */
  lemma DigitRunStops(d: string, rest: string, radix: nat)
    requires forall i :: 0 <= i < |d| ==> DigitValue(d[i], radix).Some?
    requires rest == [] || DigitValue(rest[0], radix).None?
    ensures DigitRun(d + rest, radix) == |d|
    ensures (d + rest)[..|d|] == d
  {
    var body := d + rest;
    assert forall i :: 0 <= i < |d| ==> body[i] == d[i];
    assert |body| > |d| ==> body[|d|] == rest[0];
  }

  /** A run of hexadecimal digits after `0x` or `0X`, up to the first character that is none, is read in base 16. */
  lemma ParseDigitsHex(x: char, h: string, rest: string)
    requires x == 'x' || x == 'X'
    requires |h| > 0 && forall i :: 0 <= i < |h| ==> DigitValue(h[i], 16).Some?
    requires rest == [] || DigitValue(rest[0], 16).None?
    ensures ParseDigits(['0', x] + (h + rest)) == Some(DigitsValue(h, 16))
  {
    var body := h + rest;
    var u := ['0', x] + body;
    assert u[0] == '0' && u[1] == x && u[2..] == body;
    DigitRunStops(h, rest, 16);
  }

  /**
   * `parseInt` reads white space, a sign, `0x` or `0X` and a run of
   * hexadecimal digits as that run's base-16 value `n`, stopping at the first
   * character that is no hexadecimal digit.
   */
  lemma ParseIntReadsHex(ws: string, sign: string, x: char, h: string, rest: string, n: nat)
    requires forall i :: 0 <= i < |ws| ==> IsJsWhitespace(ws[i])
    requires sign == "" || sign == "+" || sign == "-"
    requires x == 'x' || x == 'X'
    requires |h| > 0 && forall i :: 0 <= i < |h| ==> DigitValue(h[i], 16).Some?
    requires rest == [] || DigitValue(rest[0], 16).None?
    requires n == DigitsValue(h, 16)
    ensures ParseInt(ws + sign + (['0', x] + (h + rest))) == Some(if sign == "-" then -(n as int) else n)
  {
    var u := ['0', x] + (h + rest);
    assert u[0] == '0';
    ParseDigitsHex(x, h, rest);
    ParseIntReadsDigits(ws, sign, u, n);
  }

  /** White space, a sign, then text whose digits read as `n`: `parseInt` gives `n` with that sign. */
  lemma ParseIntReadsDigits(ws: string, sign: string, u: string, n: nat)
    requires forall i :: 0 <= i < |ws| ==> IsJsWhitespace(ws[i])
    requires sign == "" || sign == "+" || sign == "-"
    requires |u| > 0 && '0' <= u[0] <= '9'
    requires ParseDigits(u) == Some(n)
    ensures ParseInt(ws + sign + u) == Some(if sign == "-" then -(n as int) else n)
  {
    var t := sign + u;
    assert t[0] == '+' || t[0] == '-' || '0' <= t[0] <= '9' by {
      if sign == "" { assert t == u; }
    }
    SignedParse(sign, u, n);
    ConcatAssoc3(ws, sign, u);
    ParseIntSkipsWhitespace(ws, t);
  }

  lemma ConcatAssoc3(a: string, b: string, c: string)
    ensures a + b + c == a + (b + c)
  {
  }

  /**
   * A run of decimal digits, leading zeros allowed, followed by a character
   * that is no digit (and no `x` or `X` right after a lone `0`), reads as its value.
   */
  lemma ParseDigitsDecimalRun(d: string, rest: string)
    requires |d| > 0 && forall i :: 0 <= i < |d| ==> '0' <= d[i] <= '9'
    requires rest == [] || (DigitValue(rest[0], 10).None? && !(d == "0" && (rest[0] == 'x' || rest[0] == 'X')))
    ensures ParseDigits(d + rest) == Some(DigitsValue(d, 10))
  {
    NoHexPrefix(d, rest);
    assert forall i :: 0 <= i < |d| ==> DigitValue(d[i], 10).Some?;
    DigitRunStops(d, rest, 10);
  }

  /** Decimal digits and such a tail do not start with `0x` or `0X`. */
  lemma NoHexPrefix(d: string, rest: string)
    requires |d| > 0 && forall i :: 0 <= i < |d| ==> '0' <= d[i] <= '9'
    requires rest == [] || !(d == "0" && (rest[0] == 'x' || rest[0] == 'X'))
    ensures var u := d + rest; !(|u| >= 2 && u[0] == '0' && (u[1] == 'x' || u[1] == 'X'))
  {
    var u := d + rest;
    if |d| >= 2 {
      assert u[1] == d[1];
    } else if |u| >= 2 {
      assert u[0] == d[0] && u[1] == rest[0];
      assert d == [d[0]];
    }
  }

  /**
   * `parseInt` reads white space, a sign and a run of decimal digits, leading
   * zeros included (`"007"` is 7), as the run's value `n`, and stops at the
   * first character that cannot continue it (`"5x"` is 5).
   */
  lemma ParseIntReadsDecimalRun(ws: string, sign: string, d: string, rest: string, n: nat)
    requires forall i :: 0 <= i < |ws| ==> IsJsWhitespace(ws[i])
    requires sign == "" || sign == "+" || sign == "-"
    requires |d| > 0 && forall i :: 0 <= i < |d| ==> '0' <= d[i] <= '9'
    requires rest == [] || (DigitValue(rest[0], 10).None? && !(d == "0" && (rest[0] == 'x' || rest[0] == 'X')))
    requires n == DigitsValue(d, 10)
    ensures ParseInt(ws + sign + (d + rest)) == Some(if sign == "-" then -(n as int) else n)
  {
    assert (d + rest)[0] == d[0];
    ParseDigitsDecimalRun(d, rest);
    ParseIntReadsDigits(ws, sign, d + rest, n);
  }

  /**
   * A sign followed by nothing or by a character that is no digit (white
   * space, a second sign, a letter) gives `NaN`: `"+ 1"` and `"--1"` hold no number.
   */
  lemma ParseIntSignNaN(ws: string, c: char, u: string)
    requires forall i :: 0 <= i < |ws| ==> IsJsWhitespace(ws[i])
    requires c == '+' || c == '-'
    requires u == [] || !('0' <= u[0] <= '9')
    ensures ParseInt(ws + ([c] + u)) == None
  {
    assert ([c] + u)[0] == c;
    ParseDigitsNoDigit(u);
    SignCharNone(c, u);
    ParseIntSkipsWhitespace(ws, [c] + u);
  }

  /** Text with no number in it makes the field emit 1. */
  lemma HandleChangeNaN(ws: string, sign: string, u: string)
    requires forall i :: 0 <= i < |ws| ==> IsJsWhitespace(ws[i])
    requires sign == "" || sign == "+" || sign == "-"
    requires u == [] || (!('0' <= u[0] <= '9') && !IsJsWhitespace(u[0]) && u[0] != '+' && u[0] != '-')
    ensures HandleChange(ws + sign + u) == [1]
  {
    ParseIntNaN(ws, sign, u);
  }

  /** The decimal text of a positive number makes the field emit that number. */
  lemma HandleChangeDecimal(n: nat)
    requires n >= 1
    ensures HandleChange(Decimal(n)) == [n]
  {
    ParseIntDecimal(n);
  }

  /** Feeding an emitted value back into the field emits the same value. */
  lemma ClampIdempotent(value: string)
    ensures Clamp(ParseInt(Decimal(Clamp(ParseInt(value))))) == Clamp(ParseInt(value))
  {
    ParseIntDecimal(Clamp(ParseInt(value)));
  }
}
