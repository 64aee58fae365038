/**
 * The string operations of the dashboard: decimal rendering of ids and
 * counters (`toString`), `parseInt`, `parseFloat`, `trim` and
 * `toUpperCase`.
 */
module Text {
  import opened Wrappers
  import opened Numbers

  predicate IsDigit(c: char) {
    '0' <= c <= '9'
  }

  /**
   * The whitespace `trim`, `parseInt` and `parseFloat` skip: the
   * ECMAScript WhiteSpace and LineTerminator characters (tab, line
   * tabulation, form feed, space, no-break space, the zero-width no-break
   * space U+FEFF, every other space separator of Unicode category Zs, line
   * feed, carriage return, and the line and paragraph separators).
   */
  predicate IsSpace(c: char) {
    var n := c as int;
    || 0x09 <= n <= 0x0D
    || n == 0x20 || n == 0xA0 || n == 0x1680
    || 0x2000 <= n <= 0x200A
    || n == 0x2028 || n == 0x2029 || n == 0x202F || n == 0x205F || n == 0x3000
    || n == 0xFEFF
  }

  predicate AllDigits(s: string) {
    forall i :: 0 <= i < |s| ==> IsDigit(s[i])
  }

  function DigitChar(d: nat): (c: char)
    requires d < 10
    ensures IsDigit(c) && c as int - '0' as int == d
  {
    (('0' as int) + d) as char
  }

  function DigitValue(c: char): (d: nat)
    requires IsDigit(c)
    ensures d < 10
  {
    c as int - '0' as int
  }

  /** The value of a string of decimal digits, most significant first. */
  function DigitsValue(s: string): nat
    requires AllDigits(s)
  {
    if s == [] then 0 else DigitsValue(s[..|s| - 1]) * 10 + DigitValue(s[|s| - 1])
  }

  /** `n.toString()` for a natural number. */
  function ShowNat(n: nat): (s: string)
    ensures s != [] && AllDigits(s)
  {
    if n < 10 then [DigitChar(n)] else ShowNat(n / 10) + [DigitChar(n % 10)]
  }

  /** `i.toString()` for an integer. */
  function ShowInt(i: int): (s: string)
    ensures s != []
  {
    if i < 0 then "-" + ShowNat(-i) else ShowNat(i)
  }

  lemma {:induction false} DigitsValueOfShowNat(n: nat)
    ensures DigitsValue(ShowNat(n)) == n
  {
    if n >= 10 {
      var s := ShowNat(n);
      assert s[..|s| - 1] == ShowNat(n / 10);
      DigitsValueOfShowNat(n / 10);
    }
  }

  /** The number of leading decimal digits of `s`. */
  function DigitsPrefix(s: string): (k: nat)
    ensures k <= |s| && AllDigits(s[..k])
    ensures k < |s| ==> !IsDigit(s[k])
  {
    if s == [] || !IsDigit(s[0]) then 0
    else
      var k := 1 + DigitsPrefix(s[1..]);
      assert s[..k] == [s[0]] + s[1..][..k - 1];
      k
  }

  lemma {:induction false} DigitsPrefixOfDigits(s: string)
    requires AllDigits(s)
    ensures DigitsPrefix(s) == |s|
  {
    if s != [] {
      DigitsPrefixOfDigits(s[1..]);
    }
  }

  /** `s` without its leading whitespace. */
  function SkipSpaces(s: string): (t: string)
    ensures |t| <= |s| && t == s[|s| - |t|..]
    ensures t != [] ==> !IsSpace(t[0])
  {
    if s != [] && IsSpace(s[0]) then SkipSpaces(s[1..]) else s
  }

  /** An optional sign: whether it is `-`, and the text after it. */
  function SplitSign(t: string): (bool, string) {
    if t != [] && (t[0] == '-' || t[0] == '+') then (t[0] == '-', t[1..]) else (false, t)
  }

  predicate IsHexDigit(c: char) {
    IsDigit(c) || 'a' <= c <= 'f' || 'A' <= c <= 'F'
  }

  predicate AllHexDigits(s: string) {
    forall i :: 0 <= i < |s| ==> IsHexDigit(s[i])
  }

  function HexDigitValue(c: char): (d: nat)
    requires IsHexDigit(c)
    ensures d < 16
  {
    if IsDigit(c) then DigitValue(c)
    else if 'a' <= c <= 'f' then c as int - 'a' as int + 10
    else c as int - 'A' as int + 10
  }

  /** The value of a string of hexadecimal digits, most significant first. */
  function HexValue(s: string): nat
    requires AllHexDigits(s)
  {
    if s == [] then 0 else HexValue(s[..|s| - 1]) * 16 + HexDigitValue(s[|s| - 1])
  }

  /** The number of leading hexadecimal digits of `s`. */
  function HexPrefix(s: string): (k: nat)
    ensures k <= |s| && AllHexDigits(s[..k])
    ensures k < |s| ==> !IsHexDigit(s[k])
  {
    if s == [] || !IsHexDigit(s[0]) then 0
    else
      var k := 1 + HexPrefix(s[1..]);
      assert s[..k] == [s[0]] + s[1..][..k - 1];
      k
  }

  lemma {:induction false} HexPrefixOfHexDigits(s: string)
    requires AllHexDigits(s)
    ensures HexPrefix(s) == |s|
  {
    if s != [] {
      HexPrefixOfHexDigits(s[1..]);
    }
  }

  /** Text that starts with a digit or a point has no leading whitespace and no sign. */
  lemma PlainStart(s: string)
    requires s != [] && (IsDigit(s[0]) || s[0] == '.')
    ensures SkipSpaces(s) == s && SplitSign(s) == (false, s)
  {
  }

  /** Text after the sign that starts with `0x` or `0X`: `parseInt` without a radix then reads base 16. */
  predicate HexPrefixed(u: string) {
    |u| >= 2 && u[0] == '0' && (u[1] == 'x' || u[1] == 'X')
  }

  /**
   * `parseInt(s)` without a radix: leading whitespace, an optional sign,
   * then the longest run of hexadecimal digits after a `0x`/`0X` prefix,
   * or else the longest run of decimal digits; `None` stands for NaN (no
   * digits at all).
   */
  function ParseInt(s: string): (r: Option<int>)
    ensures var u := SplitSign(SkipSpaces(s)).1;
      r.None? <==> if HexPrefixed(u) then HexPrefix(u[2..]) == 0 else DigitsPrefix(u) == 0
  {
    var (negative, u) := SplitSign(SkipSpaces(s));
    var magnitude: Option<nat> :=
      if HexPrefixed(u) then
        var k := HexPrefix(u[2..]);
        if k == 0 then None else Some(HexValue(u[2..][..k]))
      else
        var k := DigitsPrefix(u);
        if k == 0 then None else Some(DigitsValue(u[..k]));
    match magnitude
    case None => None
    case Some(v) =>
      var n: int := v;
      Some(if negative then -n else n)
  }

  /** After `0x` or `0X`, `parseInt` reads hexadecimal digits; the prefix alone is NaN. */
  lemma ParseIntHex(h: string)
    requires AllHexDigits(h)
    ensures ParseInt("0x" + h) == if h == [] then None else Some(HexValue(h))
    ensures ParseInt("0X" + h) == if h == [] then None else Some(HexValue(h))
  {
    HexPrefixOfHexDigits(h);
    assert h[..|h|] == h;
    var s := "0x" + h;
    assert s[0] == '0' && s[1] == 'x' && s[2..] == h;
    PlainStart(s);
    var t := "0X" + h;
    assert t[0] == '0' && t[1] == 'X' && t[2..] == h;
    PlainStart(t);
  }

  /** Rendering a natural number and parsing it back gives the number. */
  lemma ParseIntShowNat(n: nat)
    ensures ParseInt(ShowNat(n)) == Some(n)
  {
    var s := ShowNat(n);
    assert IsDigit(s[0]);
    PlainStart(s);
    assert !HexPrefixed(s) by {
      if |s| >= 2 {
        assert IsDigit(s[1]);
      }
    }
    DigitsPrefixOfDigits(s);
    assert s[..|s|] == s;
    DigitsValueOfShowNat(n);
  }

  /** `toString` is injective on natural numbers, so row ids stay distinct as strings. */
  lemma ShowNatInjective(m: nat, n: nat)
    ensures ShowNat(m) == ShowNat(n) <==> m == n
  {
    if ShowNat(m) == ShowNat(n) {
      ParseIntShowNat(m);
      ParseIntShowNat(n);
    }
  }

  /** A digit-only text never parses to a negative number. */
  lemma ParseIntOfDigits(s: string)
    requires s != [] && AllDigits(s)
    ensures ParseInt(s) == Some(DigitsValue(s))
  {
    assert IsDigit(s[0]);
    PlainStart(s);
    assert !HexPrefixed(s) by {
      if |s| >= 2 {
        assert IsDigit(s[1]);
      }
    }
    DigitsPrefixOfDigits(s);
    assert s[..|s|] == s;
  }

  function Pow10(k: nat): (p: nat)
    ensures p >= 1
  {
    if k == 0 then 1 else 10 * Pow10(k - 1)
  }

  /** The value of the digits `f` after a decimal point: `0.f`, their value over the matching power of ten. */
  function Fraction(f: string): (r: real)
    requires AllDigits(f)
    ensures r >= 0.0
    ensures f == [] ==> r == 0.0
  {
    if f == [] then 0.0 else DigitsValue(f) as real / Pow10(|f|) as real
  }

  /** The value of digits, an optional `.` and fraction digits at the head of `u`; NaN without any digit. */
  function UnsignedDecimal(u: string): (r: Num)
    ensures r.Finite? ==> r.value >= 0.0
    ensures r.Finite? || r.NaN?
  {
    var k := DigitsPrefix(u);
    var rest := u[k..];
    var f := if rest != [] && rest[0] == '.' then DigitsPrefix(rest[1..]) else 0;
    if k == 0 && f == 0 then NaN
    else
      var frac := if f == 0 then 0.0 else Fraction(rest[1..][..f]);
      Finite(DigitsValue(u[..k]) as real + frac)
  }

  /**
   * `parseFloat(s)`: leading whitespace, an optional sign, digits, and an
   * optional fraction after `.`; NaN when there is no digit before or
   * after the point.
   */
  function ParseFloat(s: string): (r: Num)
    ensures r.Finite? || r.NaN?
  {
    var sign := SplitSign(SkipSpaces(s));
    match UnsignedDecimal(sign.1)
    case Finite(v) => Finite(if sign.0 then -v else v)
    case _ => NaN
  }

  /** `parseFloat` is NaN exactly when no digit follows the whitespace and sign, directly or after a point. */
  lemma ParseFloatNaN(s: string)
    ensures var u := SplitSign(SkipSpaces(s)).1;
      ParseFloat(s).NaN? <==> DigitsPrefix(u) == 0 && !(|u| > 1 && u[0] == '.' && IsDigit(u[1]))
  {
    var u := SplitSign(SkipSpaces(s)).1;
    if DigitsPrefix(u) == 0 && u != [] && u[0] == '.' {
      assert u[1..] != [] && IsDigit(u[1..][0]) <==> DigitsPrefix(u[1..]) > 0;
    }
  }

  lemma UnsignedDecimalOfDigits(s: string)
    requires s != [] && AllDigits(s)
    ensures UnsignedDecimal(s) == Finite(DigitsValue(s) as real)
  {
    DigitsPrefixOfDigits(s);
    assert s[..|s|] == s;
    assert s[|s|..] == [];
  }

  lemma {:induction false} DigitsPrefixStops(w: string, rest: string)
    requires AllDigits(w) && (rest == [] || !IsDigit(rest[0]))
    ensures DigitsPrefix(w + rest) == |w|
  {
    if w != [] {
      assert (w + rest)[1..] == w[1..] + rest;
      DigitsPrefixStops(w[1..], rest);
    }
  }

  /**
   * Digits, a point, fraction digits and then anything but a digit: the
   * whole part plus the fraction digits over the matching power of ten.
   * Either side of the point may be empty, but not both.
   */
  lemma ParseFloatDecimal(w: string, f: string, tail: string)
    requires AllDigits(w) && AllDigits(f) && (w != [] || f != [])
    requires tail == [] || !IsDigit(tail[0])
    ensures ParseFloat(w + ("." + (f + tail))) == Finite(DigitsValue(w) as real + Fraction(f))
  {
    var s := w + ("." + (f + tail));
    assert s[0] == if w != [] then w[0] else '.';
    PlainStart(s);
    UnsignedDecimalParts(w, f, tail);
  }

  lemma UnsignedDecimalParts(w: string, f: string, tail: string)
    requires AllDigits(w) && AllDigits(f) && (w != [] || f != [])
    requires tail == [] || !IsDigit(tail[0])
    ensures UnsignedDecimal(w + ("." + (f + tail))) == Finite(DigitsValue(w) as real + Fraction(f))
  {
    var rest := "." + (f + tail);
    var u := w + rest;
    DigitsPrefixStops(w, rest);
    assert u[..|w|] == w && u[|w|..] == rest;
    DigitsPrefixStops(f, tail);
    assert rest[1..] == f + tail && (f + tail)[..|f|] == f;
  }

  /** Digits followed by anything but a digit or a point: the digits' value. */
  lemma ParseFloatWhole(w: string, tail: string)
    requires w != [] && AllDigits(w)
    requires tail == [] || (!IsDigit(tail[0]) && tail[0] != '.')
    ensures ParseFloat(w + tail) == Finite(DigitsValue(w) as real)
  {
    assert (w + tail)[0] == w[0];
    PlainStart(w + tail);
    UnsignedDecimalWhole(w, tail);
  }

  lemma UnsignedDecimalWhole(w: string, tail: string)
    requires w != [] && AllDigits(w)
    requires tail == [] || (!IsDigit(tail[0]) && tail[0] != '.')
    ensures UnsignedDecimal(w + tail) == Finite(DigitsValue(w) as real)
  {
    var s := w + tail;
    DigitsPrefixStops(w, tail);
    assert s[..|w|] == w && s[|w|..] == tail;
    assert UnsignedDecimal(s) == Finite(DigitsValue(w) as real + 0.0);
  }

  /** A leading `-` before a digit or a point negates the value. */
  lemma ParseFloatMinus(u: string)
    requires u != [] && (IsDigit(u[0]) || u[0] == '.')
    ensures ParseFloat(u).NaN? ==> ParseFloat("-" + u).NaN?
    ensures ParseFloat(u).Finite? ==> ParseFloat("-" + u) == Finite(-ParseFloat(u).value)
  {
    PlainStart(u);
    var m := "-" + u;
    assert m[0] == '-' && m[1..] == u;
    assert SkipSpaces(m) == m;
  }

  /** A leading `+` before a digit or a point keeps the value. */
  lemma ParseFloatPlus(u: string)
    requires u != [] && (IsDigit(u[0]) || u[0] == '.')
    ensures ParseFloat("+" + u) == ParseFloat(u)
  {
    PlainStart(u);
    var p := "+" + u;
    assert p[0] == '+' && p[1..] == u;
    assert SkipSpaces(p) == p;
  }

  /** A natural number rendered as text parses back to itself as a float. */
  lemma ParseFloatShowNat(n: nat)
    ensures ParseFloat(ShowNat(n)) == Finite(n as real)
  {
    var s := ShowNat(n);
    assert IsDigit(s[0]);
    PlainStart(s);
    UnsignedDecimalOfDigits(s);
    DigitsValueOfShowNat(n);
  }

  /** A text of decimal digits parses to the same value as a float and as an integer. */
  lemma ParseOfDigits(s: string)
    requires s != [] && AllDigits(s)
    ensures ParseFloat(s) == Finite(DigitsValue(s) as real)
    ensures ParseInt(s) == Some(DigitsValue(s))
  {
    assert IsDigit(s[0]);
    PlainStart(s);
    UnsignedDecimalOfDigits(s);
    ParseIntOfDigits(s);
  }

  /** The empty text is NaN for both parsers: the dialogs' fallback `'0'` avoids it. */
  lemma ParseEmpty()
    ensures ParseFloat("") == NaN && ParseInt("") == None
    ensures ParseFloat("0") == Finite(0.0)
  {
    assert SkipSpaces("") == "";
    assert SplitSign("") == (false, "");
    assert DigitsPrefix("") == 0;
    assert UnsignedDecimal("") == NaN;
    assert ShowNat(0) == "0";
    ParseFloatShowNat(0);
  }

  /** `s.trim()`: whitespace removed at both ends. */
  function Trim(s: string): (t: string)
    ensures |t| <= |s|
    ensures t != [] ==> !IsSpace(t[0]) && !IsSpace(t[|t| - 1])
  {
    var u := SkipSpaces(s);
    var t := TrimEnd(u);
    assert t != [] ==> t[0] == u[0];
    t
  }

  function TrimEnd(s: string): (t: string)
    ensures |t| <= |s| && t == s[..|t|]
    ensures t != [] ==> !IsSpace(t[|t| - 1])
    ensures forall i :: |t| <= i < |s| ==> IsSpace(s[i])
  {
    if s != [] && IsSpace(s[|s| - 1]) then TrimEnd(s[..|s| - 1]) else s
  }

  /** `s.trim()` is truthy exactly when `s` holds a non-whitespace character. */
  lemma TrimNonEmpty(s: string)
    ensures Trim(s) != [] <==> exists i :: 0 <= i < |s| && !IsSpace(s[i])
  {
    var u := SkipSpaces(s);
    if Trim(s) != [] {
      var t := Trim(s);
      assert t[0] == u[0];
      assert s[|s| - |u|] == u[0];
    } else if exists i :: 0 <= i < |s| && !IsSpace(s[i]) {
      var i :| 0 <= i < |s| && !IsSpace(s[i]);
      SkipSpacesKeepsText(s, i);
      assert false;
    }
  }

  lemma {:induction false} SkipSpacesKeepsText(s: string, i: int)
    requires 0 <= i < |s| && !IsSpace(s[i])
    ensures SkipSpaces(s) != [] && TrimEnd(SkipSpaces(s)) != []
  {
    if IsSpace(s[0]) {
      SkipSpacesKeepsText(s[1..], i - 1);
    } else {
      var u := SkipSpaces(s);
      assert u == s;
      assert !IsSpace(u[0]);
    }
  }

  /**
   * `toUpperCase` for one character, over Basic Latin and Latin-1: a-z and
   * the Latin-1 small letters map to their capitals, `ß` expands to "SS",
   * `ÿ` maps to U+0178 and `µ` to the Greek capital mu U+039C; any other
   * character is kept.
   */
  function UpperOf(c: char): (u: string)
    ensures |u| == 1 || (c as int == 0xDF && u == "SS")
  {
    var n := c as int;
    if 'a' <= c <= 'z' then [(n - 32) as char]
    else if n == 0xDF then "SS"
    else if 0xE0 <= n <= 0xFE && n != 0xF7 then [(n - 32) as char]
    else if n == 0xFF then [0x178 as char]
    else if n == 0xB5 then [0x39C as char]
    else [c]
  }

  /** `s.toUpperCase()`: each character upper-cased in turn; only `ß` lengthens the text. */
  function ToUpper(s: string): (t: string)
    ensures |t| >= |s|
    ensures (forall i :: 0 <= i < |s| ==> s[i] as int != 0xDF) ==> |t| == |s|
  {
    if s == [] then []
    else
      assert forall i :: 0 <= i < |s| - 1 ==> s[..|s| - 1][i] == s[i];
      ToUpper(s[..|s| - 1]) + UpperOf(s[|s| - 1])
  }

  /** Upper-casing works character by character, so it distributes over concatenation. */
  lemma {:induction false} ToUpperAppend(a: string, b: string)
    ensures ToUpper(a + b) == ToUpper(a) + ToUpper(b)
  {
    if b != [] {
      var init, last := b[..|b| - 1], b[|b| - 1];
      ToUpperAppend(a, init);
      var x, y, z := ToUpper(a), ToUpper(init), UpperOf(last);
      assert ToUpper(b) == y + z;
      assert ToUpper(a + b) == (x + y) + z by {
        assert (a + b)[..|a + b| - 1] == a + init;
      }
      assert (x + y) + z == x + (y + z);
    } else {
      assert a + b == a;
    }
  }

  /** A capital produced by `UpperOf` is kept by it. */
  lemma UpperOfFixed(c: char)
    ensures ToUpper(UpperOf(c)) == UpperOf(c)
  {
    var u := UpperOf(c);
    if |u| == 1 {
      assert ToUpper(u) == ToUpper([]) + UpperOf(u[0]);
    } else {
      assert ToUpper(u) == ToUpper("S") + UpperOf('S');
      assert ToUpper("S") == ToUpper([]) + UpperOf('S');
    }
  }

  /** Upper-casing twice is upper-casing once. */
  lemma {:induction false} ToUpperIdempotent(s: string)
    ensures ToUpper(ToUpper(s)) == ToUpper(s)
  {
    if s != [] {
      var init, c := s[..|s| - 1], s[|s| - 1];
      ToUpperIdempotent(init);
      ToUpperAppend(ToUpper(init), UpperOf(c));
      UpperOfFixed(c);
    }
  }
}
