/** The parts of the JavaScript runtime that the form controller leans on, stated over
    `string` (sequences of characters): `String.prototype.trim`, `parseInt` with no radix,
    `parseFloat`, the values of a date input, and the `<=` comparison of two strings. */
module JsText {
  import opened Wrappers

  /** The WhiteSpace and LineTerminator code points of ECMAScript: what `trim` removes and
      what `parseInt` and `parseFloat` skip before the number. */
  predicate IsWhitespace(c: char) {
    if c <= ' ' then '\t' <= c <= '\r' || c == ' '
    else
      '\U{00A0}' <= c &&
      (c == '\U{00A0}' || c == '\U{1680}' || ('\U{2000}' <= c <= '\U{200A}') ||
       c == '\U{2028}' || c == '\U{2029}' || c == '\U{202F}' || c == '\U{205F}' ||
       c == '\U{3000}' || c == '\U{FEFF}')
  }

  predicate AllWhitespace(s: string) {
    forall i :: 0 <= i < |s| ==> IsWhitespace(s[i])
  }

  /** `s` with its leading white space removed. */
  function TrimStart(s: string): (r: string)
    ensures |r| <= |s| && r == s[|s| - |r|..]
    ensures AllWhitespace(s[..|s| - |r|])
    ensures r == [] || !IsWhitespace(r[0])
  {
    if |s| > 0 && IsWhitespace(s[0]) then
      var r := TrimStart(s[1..]);
      assert s[1..][..|s[1..]| - |r|] == s[1..|s| - |r|];
      r
    else s
  }

  /** `s` with its trailing white space removed. */
  function TrimEnd(s: string): (r: string)
    ensures |r| <= |s| && r == s[..|r|]
    ensures AllWhitespace(s[|r|..])
    ensures r == [] || !IsWhitespace(r[|r| - 1])
  {
    if |s| > 0 && IsWhitespace(s[|s| - 1]) then
      var r := TrimEnd(s[..|s| - 1]);
      assert s[..|s| - 1][|r|..] + [s[|s| - 1]] == s[|r|..];
      r
    else s
  }

  /** `String.prototype.trim`: a contiguous piece of `s` that neither starts nor ends with
      white space, and is empty exactly when `s` is all white space. */
  function Trim(s: string): (r: string)
    ensures |r| <= |s|
    ensures r == [] || (!IsWhitespace(r[0]) && !IsWhitespace(r[|r| - 1]))
    ensures r == [] <==> AllWhitespace(s)
  {
    var t := TrimStart(s);
    var r := TrimEnd(t);
    var k := |s| - |t|;
    if r == [] then
      assert t == [] by {
        assert t[0..] == t;
      }
      assert s[..k] == s;
      r
    else
      assert s[k] == r[0];
      r
  }

  /** The trimmed value is the piece of `s` left once the white space before and after it
      is cut off. */
  lemma TrimIsPiece(s: string)
    ensures var r := Trim(s);
            exists i, j :: 0 <= i <= j <= |s| && r == s[i..j] && AllWhitespace(s[..i]) && AllWhitespace(s[j..])
  {
    var t := TrimStart(s);
    var r := TrimEnd(t);
    var k := |s| - |t|;
    assert Trim(s) == r;
    assert r == s[k..k + |r|] && s[k + |r|..] == t[|r|..];
  }

  /** A string that neither starts nor ends with white space is its own trim. */
  lemma TrimUnchanged(s: string)
    requires s != [] && !IsWhitespace(s[0]) && !IsWhitespace(s[|s| - 1])
    ensures Trim(s) == s
  {
    assert TrimStart(s) == s;
  }

  predicate IsDigit(c: char) {
    '0' <= c <= '9'
  }

  predicate AllDigits(s: string) {
    forall i :: 0 <= i < |s| ==> IsDigit(s[i])
  }

  function DigitValue(c: char): (d: nat)
    requires IsDigit(c)
    ensures d < 10
  {
    c as int - '0' as int
  }

  /** The length of the longest prefix of `s` made of decimal digits. */
  function DigitRun(s: string): (n: nat)
    ensures n <= |s| && AllDigits(s[..n])
    ensures n < |s| ==> !IsDigit(s[n])
  {
    if |s| > 0 && IsDigit(s[0]) then
      var n := 1 + DigitRun(s[1..]);
      assert s[..n] == [s[0]] + s[1..][..n - 1];
      n
    else 0
  }

  /** The number written in decimal by the digit string `s` (0 for the empty string). */
  function DecimalValue(s: string): nat
    requires AllDigits(s)
  {
    if s == [] then 0 else DecimalValue(s[..|s| - 1]) * 10 + DigitValue(s[|s| - 1])
  }

  predicate IsHexDigit(c: char) {
    IsDigit(c) || 'a' <= c <= 'f' || 'A' <= c <= 'F'
  }

  predicate AllHexDigits(s: string) {
    forall i :: 0 <= i < |s| ==> IsHexDigit(s[i])
  }

  function HexDigitValue(c: char): (d: nat)
    requires IsHexDigit(c)
    ensures d < 16
  {
    if IsDigit(c) then DigitValue(c)
    else if 'a' <= c <= 'f' then c as int - 'a' as int + 10
    else c as int - 'A' as int + 10
  }

  /** The length of the longest prefix of `s` made of hexadecimal digits. */
  function HexRun(s: string): (n: nat)
    ensures n <= |s| && AllHexDigits(s[..n])
    ensures n < |s| ==> !IsHexDigit(s[n])
  {
    if |s| > 0 && IsHexDigit(s[0]) then
      var n := 1 + HexRun(s[1..]);
      assert s[..n] == [s[0]] + s[1..][..n - 1];
      n
    else 0
  }

  function HexValue(s: string): nat
    requires AllHexDigits(s)
  {
    if s == [] then 0 else HexValue(s[..|s| - 1]) * 16 + HexDigitValue(s[|s| - 1])
  }

  /** The part of `s` after an optional leading sign, and whether that sign was a minus. */
  function Unsigned(s: string): (string, bool) {
    if |s| > 0 && (s[0] == '-' || s[0] == '+') then (s[1..], s[0] == '-') else (s, false)
  }

  /** The magnitude an unsigned integer literal at the start of `u` writes: `0x`/`0X` and
      hexadecimal digits, or decimal digits; the longest such prefix is read and the rest
      ignored. */
  function IntegerLiteral(u: string): Option<nat> {
    if |u| >= 2 && u[0] == '0' && (u[1] == 'x' || u[1] == 'X') then
      var h := HexRun(u[2..]);
      if h == 0 then None else Some(HexValue(u[2..][..h]))
    else
      var d := DigitRun(u);
      if d == 0 then None else Some(DecimalValue(u[..d]))
  }

  /** `parseInt(s)` with no radix: leading white space, an optional sign, then an integer
      literal. `None` stands for `NaN`. Integers are unbounded: the rounding of very large
      values to a double is not modelled. */
  function ParseInt(s: string): Option<int> {
    var (u, negative) := Unsigned(TrimStart(s));
    match IntegerLiteral(u)
    case None => None
    case Some(m) => Some(if negative then -(m as int) else m as int)
  }

  /** A number `parseFloat` can produce other than `NaN`. */
  datatype Num = Finite(value: real) | Infinite(negative: bool)

  predicate Below(n: Num, bound: int) {
    match n
    case Finite(v) => v < bound as real
    case Infinite(negative) => negative
  }

  predicate Above(n: Num, bound: int) {
    match n
    case Finite(v) => v > bound as real
    case Infinite(negative) => !negative
  }

  /** The exponent written by an `e`/`E` part at the start of `s`, if there is one. As in
      `parseFloat`, an `e` not followed by digits is not part of the number. */
  function Exponent(s: string): int {
    if |s| > 0 && (s[0] == 'e' || s[0] == 'E') then
      var (v, negative) := Unsigned(s[1..]);
      var d := DigitRun(v);
      if d == 0 then 0
      else if negative then -(DecimalValue(v[..d]) as int) else DecimalValue(v[..d]) as int
    else 0
  }

  /** `m` times ten to the power `e`. */
  function Scale(m: real, e: int): real
    decreases if e >= 0 then e else -e
  {
    if e == 0 then m
    else if e > 0 then Scale(m, e - 1) * 10.0
    else Scale(m, e + 1) / 10.0
  }

  /** The value of the digits written after a decimal point: `d1 d2 ...` reads as
      `0.d1d2...`. */
  function FractionValue(digits: string): real
    requires AllDigits(digits)
  {
    if digits == [] then 0.0 else (DigitValue(digits[0]) as real + FractionValue(digits[1..])) / 10.0
  }

  /** The magnitude an unsigned decimal literal at the start of `u` writes:
      `digits [. digits] [e [sign] digits]`, with at least one digit before the exponent;
      the longest such prefix is read and the rest ignored. */
  function DecimalLiteral(u: string): Option<real> {
    var i := DigitRun(u);
    var rest := u[i..];
    var hasPoint := |rest| > 0 && rest[0] == '.';
    var f := if hasPoint then DigitRun(rest[1..]) else 0;
    if i == 0 && f == 0 then None
    else
      var fraction := if hasPoint then FractionValue(rest[1..][..f]) else 0.0;
      var after := if hasPoint then rest[1 + f..] else rest;
      Some(Scale(DecimalValue(u[..i]) as real + fraction, Exponent(after)))
  }

  /** `parseFloat(s)`: leading white space, an optional sign, then `Infinity` or a decimal
      literal. `None` stands for `NaN`. The value is exact: the rounding to a double is not
      modelled. */
  function ParseFloat(s: string): Option<Num> {
    var (u, negative) := Unsigned(TrimStart(s));
    if "Infinity" <= u then Some(Infinite(negative))
    else
      match DecimalLiteral(u)
      case None => None
      case Some(m) => Some(Finite(if negative then -m else m))
  }

  /** The shortest decimal writing of `n`: the string an `<input type=number>` holds for a
      whole number typed without leading zeros. */
  function DecimalString(n: nat): (s: string)
    ensures |s| > 0 && AllDigits(s)
  {
    var d := ['0' + (n % 10) as char];
    if n < 10 then d else DecimalString(n / 10) + d
  }

  lemma {:induction false} DecimalStringValue(n: nat)
    ensures DecimalValue(DecimalString(n)) == n
  {
    var s := DecimalString(n);
    assert DigitValue(s[|s| - 1]) == n % 10;
    if n >= 10 {
      assert s[..|s| - 1] == DecimalString(n / 10);
      DecimalStringValue(n / 10);
    }
  }

  lemma DigitRunAll(s: string)
    requires AllDigits(s)
    ensures DigitRun(s) == |s|
  {
    if |s| > 0 {
      DigitRunAll(s[1..]);
    }
  }

  /** A string that starts with a digit has no white space, sign or `Infinity` in front of
      its number. */
  lemma DigitStart(s: string)
    requires s != [] && IsDigit(s[0])
    ensures TrimStart(s) == s && Unsigned(s) == (s, false)
    ensures !("Infinity" <= s)
  {
    assert !IsWhitespace(s[0]) && s[0] != 'I';
  }

  /** A nonempty run of decimal digits is a decimal integer literal... */
  lemma IntegerLiteralDigits(s: string)
    requires |s| > 0 && AllDigits(s)
    ensures IntegerLiteral(s) == Some(DecimalValue(s))
  {
    assert |s| >= 2 ==> IsDigit(s[1]);
    DigitRunAll(s);
    assert s[..|s|] == s;
  }

  /** ... and a decimal literal with no fraction and no exponent. */
  lemma DecimalLiteralDigits(s: string)
    requires |s| > 0 && AllDigits(s)
    ensures DecimalLiteral(s) == Some(DecimalValue(s) as real)
  {
    DigitRunAll(s);
    assert s[..|s|] == s && s[|s|..] == [];
    assert Exponent([]) == 0;
  }

  /** `parseInt` reads a nonempty run of decimal digits as its decimal value. */
  lemma ParseIntDigits(s: string)
    requires |s| > 0 && AllDigits(s)
    ensures ParseInt(s) == Some(DecimalValue(s))
  {
    DigitStart(s);
    IntegerLiteralDigits(s);
  }

  /** `parseFloat` reads a nonempty run of decimal digits as its decimal value. */
  lemma ParseFloatDigits(s: string)
    requires |s| > 0 && AllDigits(s)
    ensures ParseFloat(s) == Some(Finite(DecimalValue(s) as real))
  {
    DigitStart(s);
    DecimalLiteralDigits(s);
  }

  /** `parseInt` reads back every whole number written in decimal. */
  lemma ParseIntDecimal(n: nat)
    ensures ParseInt(DecimalString(n)) == Some(n)
  {
    ParseIntDigits(DecimalString(n));
    DecimalStringValue(n);
  }

  /** `parseFloat` reads back every whole number written in decimal. */
  lemma ParseFloatDecimal(n: nat)
    ensures ParseFloat(DecimalString(n)) == Some(Finite(n as real))
  {
    ParseFloatDigits(DecimalString(n));
    DecimalStringValue(n);
  }

  /** The digit run of `w + t` ends with `w` when `t` does not start with a digit. */
  lemma {:induction false} DigitRunStops(w: string, t: string)
    requires AllDigits(w)
    requires t != [] ==> !IsDigit(t[0])
    ensures DigitRun(w + t) == |w|
  {
    if w != [] {
      assert (w + t)[1..] == w[1..] + t;
      DigitRunStops(w[1..], t);
    } else {
      assert w + t == t;
    }
  }

  /** On a decimal fraction `w.f`, `parseInt` reads the whole part only... */
  lemma ParseIntFraction(s: string, w: string, f: string)
    requires |w| > 0 && AllDigits(w) && AllDigits(f)
    requires s == w + "." + f
    ensures ParseInt(s) == Some(DecimalValue(w))
  {
    assert s[0] == w[0];
    DigitStart(s);
    assert s[1] != 'x' && s[1] != 'X' by {
      if |w| > 1 { assert s[1] == w[1]; } else { assert s[1] == '.'; }
    }
    var t := s[|w|..];
    assert s[..|w|] == w && s == w + t && t[0] == '.';
    DigitRunStops(w, t);
    assert IntegerLiteral(s) == Some(DecimalValue(w));
  }

  /** The decimal literal `w.f` is worth its whole part plus its fraction. */
  lemma DecimalLiteralFraction(s: string, w: string, f: string)
    requires |w| > 0 && AllDigits(w) && AllDigits(f)
    requires s == w + "." + f
    ensures DecimalLiteral(s) == Some(DecimalValue(w) as real + FractionValue(f))
  {
    var rest := s[|w|..];
    assert s[..|w|] == w && s == w + rest && rest[0] == '.';
    DigitRunStops(w, rest);
    assert rest[1..] == f;
    DigitRunAll(f);
    assert f[..|f|] == f && rest[1 + |f|..] == [];
    assert Exponent([]) == 0;
  }

  /** ... while `parseFloat` reads the fraction too. */
  lemma ParseFloatFraction(s: string, w: string, f: string)
    requires |w| > 0 && AllDigits(w) && AllDigits(f)
    requires s == w + "." + f
    ensures ParseFloat(s) == Some(Finite(DecimalValue(w) as real + FractionValue(f)))
  {
    assert s[0] == w[0];
    DigitStart(s);
    DecimalLiteralFraction(s, w, f);
  }

  /** On "50.5" `parseInt` gives 50 and `parseFloat` 50.5. */
  lemma ParseHalfPercent(s: string)
    requires s == "50.5"
    ensures Trim(s) == s && !AllWhitespace(s)
    ensures ParseInt(s) == Some(50)
    ensures ParseFloat(s) == Some(Finite(50.5))
  {
    assert !IsWhitespace(s[0]) && !IsWhitespace(s[|s| - 1]);
    assert s == "50" + "." + "5";
    ParseIntFraction(s, "50", "5");
    ParseFloatFraction(s, "50", "5");
    assert DecimalValue("50") == 50 && FractionValue("5") == 0.5;
  }

  /** A string with no decimal digit is `NaN` to `parseInt`. */
  lemma ParseIntNeedsADigit(s: string)
    requires forall i :: 0 <= i < |s| ==> !IsDigit(s[i])
    ensures ParseInt(s) == None
  {
    var t := TrimStart(s);
    var (u, negative) := Unsigned(t);
    assert u == s[|s| - |u|..];
    if |u| > 0 {
      assert !IsDigit(u[0]);
    }
  }

  /** A date input's value as the `Date` constructor reads it: `yyyy-mm-dd` with a month in
      1..12 and a day in 1..31. Anything else (in particular the empty string of an unfilled
      date input) is an Invalid Date. */
  predicate IsDateString(s: string) {
    && |s| == 10
    && AllDigits(s[0..4]) && s[4] == '-' && AllDigits(s[5..7]) && s[7] == '-' && AllDigits(s[8..10])
    && 1 <= DecimalValue(s[5..7]) <= 12
    && 1 <= DecimalValue(s[8..10]) <= 31
  }

  /** JavaScript's `a <= b` on two strings: lexicographic order on characters. */
  predicate LexLe(a: string, b: string)
    decreases |a|
  {
    a == [] || (b != [] && (a[0] < b[0] || (a[0] == b[0] && LexLe(a[1..], b[1..]))))
  }

  lemma {:induction false} LexLeTotal(a: string, b: string)
    ensures LexLe(a, b) || LexLe(b, a)
    decreases |a|
  {
    if a != [] && b != [] && a[0] == b[0] {
      LexLeTotal(a[1..], b[1..]);
    }
  }

  lemma {:induction false} LexLeAntisymmetric(a: string, b: string)
    requires LexLe(a, b) && LexLe(b, a)
    ensures a == b
    decreases |a|
  {
    if a != [] {
      LexLeAntisymmetric(a[1..], b[1..]);
      assert a == [a[0]] + a[1..] && b == [b[0]] + b[1..];
    }
  }

  /** The calendar position of a date string, year first: the order in which `Date` values
      compare. */
  function DayKey(s: string): nat
    requires IsDateString(s)
  {
    DecimalValue(s[0..4]) * 10000 + DecimalValue(s[5..7]) * 100 + DecimalValue(s[8..10])
  }

  /** Two strings that start with parts of the same length compare by those parts first. */
  lemma {:induction false} LexLeAppend(p: string, r: string, q: string, s: string)
    requires |p| == |q|
    ensures LexLe(p + r, q + s) <==> (p != q && LexLe(p, q)) || (p == q && LexLe(r, s))
    decreases |p|
  {
    if p != [] {
      assert (p + r)[0] == p[0] && (q + s)[0] == q[0];
      assert (p + r)[1..] == p[1..] + r && (q + s)[1..] == q[1..] + s;
      assert p == [p[0]] + p[1..] && q == [q[0]] + q[1..];
      LexLeAppend(p[1..], r, q[1..], s);
    } else {
      assert p + r == r && q + s == s;
    }
  }

  /** On digit strings of one length, string order is numeric order. */
  lemma {:induction false} LexLeDigits(a: string, b: string)
    requires |a| == |b| && AllDigits(a) && AllDigits(b)
    ensures LexLe(a, b) <==> DecimalValue(a) <= DecimalValue(b)
    ensures a == b <==> DecimalValue(a) == DecimalValue(b)
    decreases |a|
  {
    if a != [] {
      var n := |a| - 1;
      assert a == a[..n] + [a[n]] && b == b[..n] + [b[n]];
      LexLeAppend(a[..n], [a[n]], b[..n], [b[n]]);
      LexLeDigits(a[..n], b[..n]);
    }
  }

  /** On valid date strings, string order is calendar order. */
  lemma DateOrderIsCalendarOrder(a: string, b: string)
    requires IsDateString(a) && IsDateString(b)
    ensures LexLe(a, b) <==> DayKey(a) <= DayKey(b)
  {
    var ya, ma, da := a[0..4], a[5..7], a[8..10];
    var yb, mb, db := b[0..4], b[5..7], b[8..10];
    assert a == ya + ([a[4]] + (ma + ([a[7]] + da)));
    assert b == yb + ([b[4]] + (mb + ([b[7]] + db)));
    LexLeAppend(ya, [a[4]] + (ma + ([a[7]] + da)), yb, [b[4]] + (mb + ([b[7]] + db)));
    LexLeAppend([a[4]], ma + ([a[7]] + da), [b[4]], mb + ([b[7]] + db));
    LexLeAppend(ma, [a[7]] + da, mb, [b[7]] + db);
    LexLeAppend([a[7]], da, [b[7]], db);
    LexLeDigits(ya, yb);
    LexLeDigits(ma, mb);
    LexLeDigits(da, db);
  }
}
