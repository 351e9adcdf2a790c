/**
 The lexical level of JSON: string escapes and numbers, as Python's `json` module writes and
 reads them (sections 6 and 7 of RFC 8259, with `ensure_ascii` in force).

 Characters are Unicode scalar values, so lone surrogates do not occur.
 */
module JsonText {
  import opened Wrappers
  import opened PyText

  /** Something read off the front of a text, and what is left of the text. */
  datatype Scan<+T> = Scan(value: T, rest: string)

  // ---------------------------------------------------------------- strings

  function HexDigit(d: nat): char
    requires d < 16
  {
    if d < 10 then ('0' as int + d) as char else ('a' as int + d - 10) as char
  }

  function HexValue(c: char): Option<nat> {
    if '0' <= c <= '9' then Some(c as int - '0' as int)
    else if 'a' <= c <= 'f' then Some(c as int - 'a' as int + 10)
    else if 'A' <= c <= 'F' then Some(c as int - 'A' as int + 10)
    else None
  }

  function Hex4(n: nat): (s: string)
    requires n < 0x10000
    ensures |s| == 4
  {
    var p := n / 0x10;
    var q := p / 0x10;
    [HexDigit(q / 0x10), HexDigit(q % 0x10), HexDigit(p % 0x10), HexDigit(n % 0x10)]
  }

  function ReadHex4(s: string): (r: Option<Scan<nat>>)
    ensures r.Some? ==> |s| >= 4 && r.value.rest == s[4..] && r.value.value < 0x10000
  {
    if |s| < 4 then None
    else
      match (HexValue(s[0]), HexValue(s[1]), HexValue(s[2]), HexValue(s[3]))
      case (Some(a), Some(b), Some(c), Some(d)) => Some(Scan(0x1000 * a + 0x100 * b + 0x10 * c + d, s[4..]))
      case _ => None
  }

  /** How `json.dumps` writes one character inside a string literal. */
  function EscapeChar(c: char): (s: string)
    ensures s != []
  {
    var n := c as int;
    if n == 0x22 then "\\\""
    else if n == 0x5c then "\\\\"
    else if n == 0x0a then "\\n"
    else if n == 0x0d then "\\r"
    else if n == 0x09 then "\\t"
    else if n == 0x08 then "\\b"
    else if n == 0x0c then "\\f"
    else if 0x20 <= n <= 0x7e then [c]
    else if n < 0x10000 then "\\u" + Hex4(n)
    else
      var v := n - 0x10000;
      "\\u" + Hex4(0xd800 + v / 0x400) + "\\u" + Hex4(0xdc00 + v % 0x400)
  }

  function Escape(s: string): string {
    if s == [] then "" else EscapeChar(s[0]) + Escape(s[1..])
  }

  /** Reads what follows a `\u`: one code unit, or a surrogate pair. */
  function ReadCodePoint(s: string): (r: Option<Scan<char>>)
    ensures r.Some? ==> |r.value.rest| < |s|
  {
    match ReadHex4(s)
    case None => None
    case Some(Scan(n, t)) =>
      if 0xd800 <= n < 0xdc00 then
        if |t| >= 2 && t[0] == '\\' && t[1] == 'u' then
          match ReadHex4(t[2..])
          case Some(Scan(m, u)) =>
            if 0xdc00 <= m < 0xe000 then Some(Scan((0x10000 + 0x400 * (n - 0xd800) + (m - 0xdc00)) as char, u)) else None
          case None => None
        else None
      else if 0xdc00 <= n < 0xe000 then None
      else Some(Scan(n as char, t))
  }

  /** Reads one, possibly escaped, character of a string literal. */
  function ReadChar(s: string): (r: Option<Scan<char>>)
    requires s != []
    ensures r.Some? ==> |r.value.rest| < |s|
  {
    if s[0] != '\\' then
      if s[0] as int < 0x20 then None else Some(Scan(s[0], s[1..]))
    else if |s| < 2 then None
    else if s[1] == 'u' then ReadCodePoint(s[2..])
    else
      var c := s[1];
      if c == '\"' || c == '\\' || c == '/' then Some(Scan(c, s[2..]))
      else if c == 'n' then Some(Scan(0x0a as char, s[2..]))
      else if c == 'r' then Some(Scan(0x0d as char, s[2..]))
      else if c == 't' then Some(Scan(0x09 as char, s[2..]))
      else if c == 'b' then Some(Scan(0x08 as char, s[2..]))
      else if c == 'f' then Some(Scan(0x0c as char, s[2..]))
      else None
  }

  /** Reads the characters of a string literal up to and including the closing quote. */
  function ReadString(s: string): (r: Option<Scan<string>>)
    ensures r.Some? ==> |r.value.rest| < |s|
    decreases |s|
  {
    if s == [] then None
    else if s[0] == '\"' then Some(Scan("", s[1..]))
    else
      match ReadChar(s)
      case None => None
      case Some(Scan(c, t)) =>
        match ReadString(t)
        case None => None
        case Some(Scan(cs, u)) => Some(Scan([c] + cs, u))
  }

  lemma HexDigitRoundTrip(d: nat)
    requires d < 16
    ensures HexValue(HexDigit(d)) == Some(d)
  {
  }

  lemma HexRoundTrip(n: nat, rest: string)
    requires n < 0x10000
    ensures ReadHex4(Hex4(n) + rest) == Some(Scan(n, rest))
  {
    var p := n / 0x10;
    var q := p / 0x10;
    HexDigitRoundTrip(q / 0x10);
    HexDigitRoundTrip(q % 0x10);
    HexDigitRoundTrip(p % 0x10);
    HexDigitRoundTrip(n % 0x10);
    assert n == 0x10 * p + n % 0x10 && p == 0x10 * q + p % 0x10 && q == 0x10 * (q / 0x10) + q % 0x10;
    var s := Hex4(n) + rest;
    assert s[4..] == rest;
    assert s[..4] == Hex4(n);
  }

  lemma ReadPair(hi: nat, lo: nat, rest: string)
    requires 0xd800 <= hi < 0xdc00 && 0xdc00 <= lo < 0xe000
    ensures ReadCodePoint(Hex4(hi) + "\\u" + Hex4(lo) + rest)
         == Some(Scan((0x10000 + 0x400 * (hi - 0xd800) + (lo - 0xdc00)) as char, rest))
  {
    var tail := "\\u" + (Hex4(lo) + rest);
    assert Hex4(hi) + "\\u" + Hex4(lo) + rest == Hex4(hi) + tail;
    HexRoundTrip(hi, tail);
    assert tail[2..] == Hex4(lo) + rest;
    HexRoundTrip(lo, rest);
  }

  lemma ReadAstral(c: char, rest: string)
    requires c as int >= 0x10000
    ensures ReadChar(EscapeChar(c) + rest) == Some(Scan(c, rest))
  {
    hide Hex4;
    var v := c as int - 0x10000;
    var hi, lo := 0xd800 + v / 0x400, 0xdc00 + v % 0x400;
    var body := Hex4(hi) + "\\u" + Hex4(lo) + rest;
    assert EscapeChar(c) + rest == "\\u" + body;
    assert (EscapeChar(c) + rest)[2..] == body;
    ReadPair(hi, lo, rest);
    assert 0x400 * (hi - 0xd800) + (lo - 0xdc00) == v;
  }

  /** Reading back an escaped character gives the character. */
  lemma ReadEscaped(c: char, rest: string)
    ensures ReadChar(EscapeChar(c) + rest) == Some(Scan(c, rest))
    ensures EscapeChar(c)[0] != '\"'
  {
    hide Hex4;
    var n := c as int;
    if n >= 0x10000 {
      ReadAstral(c, rest);
    } else if |EscapeChar(c)| == 6 {
      HexRoundTrip(n, rest);
      assert (EscapeChar(c) + rest)[2..] == Hex4(n) + rest;
    } else if |EscapeChar(c)| == 1 {
      assert (EscapeChar(c) + rest)[1..] == rest;
    } else {
      assert (EscapeChar(c) + rest)[2..] == rest;
    }
  }

  lemma ReadStringStep(c: char, tail: string)
    ensures ReadString(EscapeChar(c) + tail) ==
            match ReadString(tail)
            case None => None
            case Some(Scan(cs, u)) => Some(Scan([c] + cs, u))
  {
    ReadEscaped(c, tail);
  }

  /** Reading back a written string literal gives the string. */
  lemma {:induction false} StringRoundTrip(s: string, rest: string)
    ensures ReadString(Escape(s) + ("\"" + rest)) == Some(Scan(s, rest))
  {
    var close := "\"" + rest;
    if s == [] {
      assert Escape(s) + close == close;
      assert close[1..] == rest;
    } else {
      var tail := Escape(s[1..]) + close;
      assert Escape(s) + close == EscapeChar(s[0]) + tail;
      ReadStringStep(s[0], tail);
      StringRoundTrip(s[1..], rest);
      assert s == [s[0]] + s[1..];
    }
  }

  // ---------------------------------------------------------------- numbers

  /** The text of a float: optional sign, whole part, `.` and digits, exponent. */
  datatype FloatText = FloatText(neg: bool, whole: string, frac: string, exp: string)

  function Sign(neg: bool): string {
    if neg then "-" else ""
  }

  function FloatString(f: FloatText): string {
    Sign(f.neg) + f.whole + f.frac + f.exp
  }

  ghost predicate IsWhole(s: string) {
    s != [] && AllDigits(s) && (s[0] == '0' ==> s == "0")
  }

  ghost predicate IsFrac(s: string) {
    |s| >= 2 && s[0] == '.' && AllDigits(s[1..])
  }

  ghost predicate IsExp(s: string) {
    && |s| >= 2
    && (s[0] == 'e' || s[0] == 'E')
    && (if s[1] == '+' || s[1] == '-' then |s| >= 3 && AllDigits(s[2..]) else AllDigits(s[1..]))
  }

  /** A number text that JSON readers take for a float rather than for an integer. */
  ghost predicate ValidFloat(f: FloatText) {
    && IsWhole(f.whole)
    && (f.frac == "" || IsFrac(f.frac))
    && (f.exp == "" || IsExp(f.exp))
    && (f.frac != "" || f.exp != "")
  }

  function IntString(n: int): string {
    if n < 0 then "-" + NatText(-n) else NatText(n)
  }

  function WholeRun(s: string): (k: nat)
    ensures k <= |s| && AllDigits(s[..k])
  {
    if s != [] && s[0] == '0' then 1 else DigitRun(s)
  }

  function FracRun(s: string): (k: nat)
    ensures k <= |s|
  {
    if |s| >= 2 && s[0] == '.' && IsDigit(s[1]) then 1 + DigitRun(s[1..]) else 0
  }

  function ExpRun(s: string): (k: nat)
    ensures k <= |s|
  {
    if s == [] || (s[0] != 'e' && s[0] != 'E') then 0
    else
      var sign := if |s| >= 2 && (s[1] == '+' || s[1] == '-') then 1 else 0;
      var digits := DigitRun(s[1 + sign..]);
      if digits == 0 then 0 else 1 + sign + digits
  }

  datatype Number = Whole(n: int) | Fractional(f: FloatText)

  /** Reads the longest number at the front of a text. */
  function ReadNumber(s: string): (r: Option<Scan<Number>>)
    ensures r.Some? ==> |r.value.rest| < |s|
  {
    if s != [] && s[0] == '-' then ReadUnsigned(true, s[1..]) else ReadUnsigned(false, s)
  }

  function ReadUnsigned(neg: bool, b: string): (r: Option<Scan<Number>>)
    ensures r.Some? ==> |r.value.rest| < |b|
  {
    var k := WholeRun(b);
    if k == 0 then None else Some(ReadAfterWhole(neg, b[..k], b[k..]))
  }

  function ReadAfterWhole(neg: bool, whole: string, t: string): (r: Scan<Number>)
    requires AllDigits(whole)
    ensures |r.rest| <= |t|
  {
    var f := FracRun(t);
    var u := t[f..];
    var e := ExpRun(u);
    var number :=
      if f == 0 && e == 0 then Whole(if neg then 0 - NatValue(whole) else NatValue(whole))
      else Fractional(FloatText(neg, whole, t[..f], u[..e]));
    Scan(number, u[e..])
  }

  /** The text does not go on with a character a number could swallow. */
  predicate Stops(rest: string) {
    rest == [] || !(IsDigit(rest[0]) || rest[0] == '.' || rest[0] == 'e' || rest[0] == 'E')
  }

  lemma WholeRunOf(w: string, rest: string)
    requires IsWhole(w)
    requires rest == [] || !IsDigit(rest[0])
    ensures WholeRun(w + rest) == |w|
    ensures (w + rest)[..|w|] == w && (w + rest)[|w|..] == rest
  {
    DigitRunOf(w, rest);
  }

  lemma FracRunOf(f: string, rest: string)
    requires f == "" || IsFrac(f)
    requires rest == [] || !(IsDigit(rest[0]) || rest[0] == '.')
    ensures FracRun(f + rest) == |f|
    ensures (f + rest)[..|f|] == f && (f + rest)[|f|..] == rest
  {
    if f == "" {
      assert f + rest == rest;
    } else {
      assert (f + rest)[1..] == f[1..] + rest;
      assert f[1..][0] == f[1];
      DigitRunOf(f[1..], rest);
    }
  }

  lemma ExpRunOf(e: string, rest: string)
    requires e == "" || IsExp(e)
    requires Stops(rest)
    ensures ExpRun(e + rest) == |e|
    ensures (e + rest)[..|e|] == e && (e + rest)[|e|..] == rest
  {
  }

  lemma NoSignInFront(neg: bool, w: string, rest: string)
    requires IsWhole(w)
    ensures var s := Sign(neg) + (w + rest);
            s != [] && (s[0] == '-') == neg && (if neg then s[1..] else s) == w + rest
  {
  }

  lemma IntRoundTrip(n: int, rest: string)
    requires Stops(rest)
    ensures ReadNumber(IntString(n) + rest) == Some(Scan(Whole(n), rest))
  {
    var w := NatText(if n < 0 then -n else n);
    assert IntString(n) + rest == Sign(n < 0) + (w + rest);
    NoSignInFront(n < 0, w, rest);
    WholeRunOf(w, rest);
    NatRoundTrip(if n < 0 then -n else n);
    FracRunOf("", rest);
    ExpRunOf("", rest);
    assert ReadAfterWhole(n < 0, w, rest) == Scan(Whole(n), rest);
  }

  lemma ReadFractional(f: FloatText, rest: string)
    requires ValidFloat(f) && Stops(rest)
    ensures ReadAfterWhole(f.neg, f.whole, f.frac + (f.exp + rest)) == Scan(Fractional(f), rest)
  {
    FracRunOf(f.frac, f.exp + rest);
    ExpRunOf(f.exp, rest);
  }

  lemma ReadUnsignedFloat(f: FloatText, rest: string)
    requires ValidFloat(f) && Stops(rest)
    ensures ReadUnsigned(f.neg, f.whole + (f.frac + (f.exp + rest))) == Some(Scan(Fractional(f), rest))
  {
    var t := f.frac + (f.exp + rest);
    assert f.frac == "" ==> t == f.exp + rest;
    WholeRunOf(f.whole, t);
    ReadFractional(f, rest);
  }

  lemma FloatRoundTrip(f: FloatText, rest: string)
    requires ValidFloat(f) && Stops(rest)
    ensures ReadNumber(FloatString(f) + rest) == Some(Scan(Fractional(f), rest))
  {
    var t := f.frac + (f.exp + rest);
    assert FloatString(f) + rest == Sign(f.neg) + (f.whole + t);
    NoSignInFront(f.neg, f.whole, t);
    ReadUnsignedFloat(f, rest);
  }
}
