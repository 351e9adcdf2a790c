/** The few operations on Python `str` values that the modelled code relies on. */
module PyText {

  /** `str.isspace` on one character. */
  predicate IsSpace(c: char) {
    var n := c as int;
    || 0x09 <= n <= 0x0d || 0x1c <= n <= 0x20 || n == 0x85 || n == 0xa0 || n == 0x1680
    || 0x2000 <= n <= 0x200a || n == 0x2028 || n == 0x2029 || n == 0x202f || n == 0x205f || n == 0x3000
  }

  function LStrip(s: string): string {
    if s != [] && IsSpace(s[0]) then LStrip(s[1..]) else s
  }

  function RStrip(s: string): string {
    if s != [] && IsSpace(s[|s| - 1]) then RStrip(s[..|s| - 1]) else s
  }

  /** `str.strip()`. */
  function Strip(s: string): string {
    RStrip(LStrip(s))
  }

  /** Text with no blank at either end is what `strip` leaves. */
  lemma StripOfTrimmed(s: string)
    requires s == [] || (!IsSpace(s[0]) && !IsSpace(s[|s| - 1]))
    ensures Strip(s) == s
  {
  }

  ghost predicate AllSpace(s: string) {
    forall i :: 0 <= i < |s| ==> IsSpace(s[i])
  }

  lemma {:induction false} LStripPadded(pre: string, s: string)
    requires AllSpace(pre)
    ensures LStrip(pre + s) == LStrip(s)
  {
    if pre == [] {
      assert pre + s == s;
    } else {
      assert (pre + s)[1..] == pre[1..] + s;
      LStripPadded(pre[1..], s);
    }
  }

  lemma {:induction false} RStripPadded(s: string, post: string)
    requires AllSpace(post)
    ensures RStrip(s + post) == RStrip(s)
  {
    if post == [] {
      assert s + post == s;
    } else {
      assert (s + post)[..|s + post| - 1] == s + post[..|post| - 1];
      RStripPadded(s, post[..|post| - 1]);
    }
  }

  lemma {:induction false} LStripKeepsEnd(s: string, post: string)
    requires AllSpace(post)
    ensures RStrip(LStrip(s + post)) == RStrip(LStrip(s))
  {
    if s == [] {
      assert s + post == post && post + [] == post;
      LStripPadded(post, []);
    } else if IsSpace(s[0]) {
      assert (s + post)[1..] == s[1..] + post;
      LStripKeepsEnd(s[1..], post);
    } else {
      RStripPadded(s, post);
    }
  }

  /** Blanks around a text are not part of what `strip` leaves. */
  lemma StripPadded(pre: string, s: string, post: string)
    requires AllSpace(pre) && AllSpace(post)
    ensures Strip(pre + s + post) == Strip(s)
  {
    assert pre + s + post == pre + (s + post);
    LStripPadded(pre, s + post);
    LStripKeepsEnd(s, post);
  }

  /** `s` with blanks before and after it. */
  ghost predicate Padded(s: string, text: string) {
    exists pre, post :: AllSpace(pre) && AllSpace(post) && text == pre + s + post
  }

  lemma {:induction false} LStripPads(s: string) returns (pre: string)
    ensures AllSpace(pre) && s == pre + LStrip(s)
    ensures LStrip(s) == "" || !IsSpace(LStrip(s)[0])
  {
    pre := "";
    if s != [] && IsSpace(s[0]) {
      pre := LStripPads(s[1..]);
      pre := [s[0]] + pre;
      assert s == [s[0]] + s[1..];
    }
  }

  lemma {:induction false} RStripPads(s: string) returns (post: string)
    ensures AllSpace(post) && s == RStrip(s) + post
    ensures RStrip(s) == "" || !IsSpace(RStrip(s)[|RStrip(s)| - 1])
  {
    post := "";
    if s != [] && IsSpace(s[|s| - 1]) {
      var front, last := s[..|s| - 1], s[|s| - 1];
      var inner := RStripPads(front);
      post := inner + [last];
      assert s == front + [last] == RStrip(front) + post;
    }
  }

  /** The non-empty results of `strip` are exactly the texts with no blank at either end that the blanks are put around. */
  lemma StripMeaning(text: string, s: string)
    requires s != ""
    ensures Strip(text) == s <==> !IsSpace(s[0]) && !IsSpace(s[|s| - 1]) && Padded(s, text)
  {
    if Strip(text) == s {
      var pre := LStripPads(text);
      var post := RStripPads(LStrip(text));
      assert text == pre + s + post;
      assert LStrip(text)[0] == s[0];
    }
    if !IsSpace(s[0]) && !IsSpace(s[|s| - 1]) && Padded(s, text) {
      var pre, post :| AllSpace(pre) && AllSpace(post) && text == pre + s + post;
      StripPadded(pre, s, post);
      StripOfTrimmed(s);
    }
  }

  /** Python compares strings by code point, a proper prefix first. */
  predicate StrLe(a: string, b: string) {
    a == [] || (b != [] && (a[0] < b[0] || (a[0] == b[0] && StrLe(a[1..], b[1..]))))
  }

  lemma {:induction false} StrLeTotal(a: string, b: string)
    ensures StrLe(a, b) || StrLe(b, a)
  {
    if a != [] && b != [] {
      StrLeTotal(a[1..], b[1..]);
    }
  }

  lemma {:induction false} StrLeTransitive(a: string, b: string, c: string)
    requires StrLe(a, b) && StrLe(b, c)
    ensures StrLe(a, c)
  {
    if a != [] && a[0] == b[0] && b[0] == c[0] {
      StrLeTransitive(a[1..], b[1..], c[1..]);
    }
  }

  lemma {:induction false} StrLeAntisymmetric(a: string, b: string)
    requires StrLe(a, b) && StrLe(b, a)
    ensures a == b
  {
    if a != [] {
      StrLeAntisymmetric(a[1..], b[1..]);
      assert a == [a[0]] + a[1..] && b == [b[0]] + b[1..];
    }
  }

  /** `a` comes before `b`: it is a proper prefix, or has the smaller character at the first position where they differ. */
  ghost predicate Precedes(a: string, b: string) {
    a < b || exists k: nat :: DiffersAt(a, b, k)
  }

  ghost predicate DiffersAt(a: string, b: string, k: nat) {
    k < |a| && k < |b| && a[..k] == b[..k] && a[k] < b[k]
  }

  lemma {:induction false} StrLeMeaning(a: string, b: string)
    ensures StrLe(a, b) <==> a == b || Precedes(a, b)
  {
    if a != [] && b != [] && a[0] == b[0] {
      StrLeMeaning(a[1..], b[1..]);
      assert a == [a[0]] + a[1..] && b == [b[0]] + b[1..];
      PrecedesCons(a[0], a[1..], b[1..]);
    } else if a != [] && b != [] && a[0] < b[0] {
      assert DiffersAt(a, b, 0);
    } else if a != [] && b != [] {
      forall k: nat ensures !DiffersAt(a, b, k) {
        assert 0 < k < |a| && k < |b| ==> a[..k][0] == a[0] && b[..k][0] == b[0];
      }
    }
  }

  lemma PrecedesCons(c: char, a: string, b: string)
    ensures Precedes([c] + a, [c] + b) <==> Precedes(a, b)
  {
    var x, y := [c] + a, [c] + b;
    assert x < y <==> a < b by {
      assert x[1..] == a && y[1..] == b;
    }
    if k: nat :| DiffersAt(a, b, k) {
      assert x[..k + 1] == [c] + a[..k] && y[..k + 1] == [c] + b[..k];
      assert DiffersAt(x, y, k + 1);
    }
    if k: nat :| DiffersAt(x, y, k) {
      assert x[..k][1..] == a[..k - 1] && y[..k][1..] == b[..k - 1];
      assert DiffersAt(a, b, k - 1);
    }
  }

  lemma PrecedesIrreflexive(a: string)
    ensures !Precedes(a, a)
  {
  }

  predicate IsDigit(c: char) {
    '0' <= c <= '9'
  }

  ghost predicate AllDigits(s: string) {
    forall i :: 0 <= i < |s| ==> IsDigit(s[i])
  }

  function DigitChar(d: nat): (c: char)
    requires d < 10
    ensures IsDigit(c) && DigitValue(c) == d
  {
    ('0' as int + d) as char
  }

  function DigitValue(c: char): (d: nat)
    requires IsDigit(c)
    ensures d < 10
  {
    c as int - '0' as int
  }

  /** Decimal text of a natural number, without leading zeros. */
  function NatText(n: nat): (s: string)
    ensures s != [] && AllDigits(s)
    ensures n > 0 ==> s[0] != '0'
    ensures n == 0 ==> s == "0"
  {
    if n < 10 then [DigitChar(n)] else NatText(n / 10) + [DigitChar(n % 10)]
  }

  /** `int(text)` on a text made of digits. */
  function NatValue(s: string): nat
    requires AllDigits(s)
  {
    if s == [] then 0 else 10 * NatValue(s[..|s| - 1]) + DigitValue(s[|s| - 1])
  }

  lemma {:induction false} NatRoundTrip(n: nat)
    ensures NatValue(NatText(n)) == n
  {
    if n >= 10 {
      NatRoundTrip(n / 10);
      var s := NatText(n);
      assert s[..|s| - 1] == NatText(n / 10);
    } else {
      assert NatText(n)[..0] == [];
    }
  }

  lemma {:induction false} LeadingZero(s: string)
    requires AllDigits(s)
    ensures NatValue("0" + s) == NatValue(s)
  {
    var z := "0" + s;
    if s != "" {
      assert z[..|z| - 1] == "0" + s[..|s| - 1];
      LeadingZero(s[..|s| - 1]);
    } else {
      assert z[..0] == "";
    }
  }

  /** How many digits `s` begins with. */
  function DigitRun(s: string): (k: nat)
    ensures k <= |s|
    ensures AllDigits(s[..k])
    ensures k < |s| ==> !IsDigit(s[k])
  {
    if s == [] || !IsDigit(s[0]) then 0
    else
      var k := 1 + DigitRun(s[1..]);
      assert forall i :: 0 <= i < k ==> s[..k][i] == if i == 0 then s[0] else s[1..][..k - 1][i - 1];
      k
  }

  /** Digits followed by something that is not a digit are found exactly. */
  lemma DigitRunOf(d: string, rest: string)
    requires AllDigits(d)
    requires rest == [] || !IsDigit(rest[0])
    ensures DigitRun(d + rest) == |d|
  {
    var s := d + rest;
    var k := DigitRun(s);
    assert forall i :: 0 <= i < |d| ==> s[i] == d[i];
    assert forall i :: 0 <= i < k ==> s[..k][i] == s[i];
    assert rest != [] ==> s[|d|] == rest[0];
  }
}
