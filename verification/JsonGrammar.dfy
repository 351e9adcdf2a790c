/** The canonical text itself: what is written for each kind of value, in which order, and with which escapes. */
module JsonGrammar {
  import opened Wrappers
  import opened PyText
  import opened JsonText
  import opened Json
  import opened Sorting
  import opened JsonCanonical

  // ---------------------------------------------------------------- key order

  /** The keys of every object, at every depth, ascend by code point. */
  ghost predicate Ascending(v: Value) {
    match v
    case Arr(items) => forall i :: 0 <= i < |items| ==> Ascending(items[i])
    case Obj(ms) => KeysAscend(ms) && forall i :: 0 <= i < |ms| ==> Ascending(ms[i].value)
    case _ => true
  }

  ghost predicate KeysAscend(ms: seq<Member>) {
    forall i, j :: 0 <= i < j < |ms| ==> Precedes(ms[i].key, ms[j].key)
  }

  lemma OrderedKeysAscend(ms: seq<Member>)
    requires DistinctKeys(ms)
    ensures Ordered(KeyLe, ms) <==> KeysAscend(ms)
  {
    forall i, j | 0 <= i < j < |ms| ensures KeyLe(ms[i], ms[j]) <==> Precedes(ms[i].key, ms[j].key) {
      StrLeMeaning(ms[i].key, ms[j].key);
    }
  }

  /** `sort_keys=True`: in the canonical form the keys of every object ascend by code point, at every depth. */
  lemma {:induction false} CanonAscends(v: Value)
    requires Valid(v)
    ensures Ascending(Canon(v))
  {
    match v
    case Arr(items) =>
      forall i | 0 <= i < |items| ensures Ascending(CanonItems(items)[i]) {
        CanonAscends(items[i]);
      }
    case Obj(ms) =>
      var cs := CanonMembers(ms);
      var sorted := Sort(KeyLe, cs);
      KeyOrder();
      SortOrdered(KeyLe, cs);
      DistinctUnderSort(cs);
      OrderedKeysAscend(sorted);
      SameElements(sorted, cs);
      forall i | 0 <= i < |sorted| ensures Ascending(sorted[i].value) {
        assert sorted[i] in cs;
        var j :| 0 <= j < |cs| && cs[j] == sorted[i];
        CanonAscends(ms[j].value);
      }
    case _ =>
  }

  // ---------------------------------------------------------------- the text

  /** `sep.join(parts)`. */
  function Joined(parts: seq<string>, sep: string): string {
    if parts == [] then "" else if |parts| == 1 then parts[0] else parts[0] + sep + Joined(parts[1..], sep)
  }

  function DumpedItems(items: seq<Value>): seq<string> {
    seq(|items|, i requires 0 <= i < |items| => Dumps(items[i]))
  }

  lemma {:induction false} ItemsJoined(items: seq<Value>)
    ensures PrintItems(CanonItems(items), COMPACT) == Joined(DumpedItems(items), ",")
  {
    if items != [] {
      ItemsJoined(items[1..]);
      assert CanonItems(items)[1..] == CanonItems(items[1..]);
      assert DumpedItems(items)[1..] == DumpedItems(items[1..]);
    }
  }

  /** An array is its items' texts between brackets, separated by a comma and nothing else. */
  lemma DumpsArray(items: seq<Value>)
    ensures Dumps(Arr(items)) == "[" + Joined(DumpedItems(items), ",") + "]"
  {
    ItemsJoined(items);
  }

  function DumpedMembers(ms: seq<Member>): seq<string> {
    seq(|ms|, i requires 0 <= i < |ms| => Dumps(Str(ms[i].key)) + ":" + Dumps(ms[i].value))
  }

  lemma {:induction false} MembersJoined(ms: seq<Member>)
    ensures PrintMembers(CanonMembers(ms), COMPACT) == Joined(DumpedMembers(ms), ",")
  {
    if ms != [] {
      MembersJoined(ms[1..]);
      assert CanonMembers(ms)[1..] == CanonMembers(ms[1..]);
      assert DumpedMembers(ms)[1..] == DumpedMembers(ms[1..]);
    }
  }

  /** An object whose keys ascend is written member by member in that order, without blanks. */
  lemma DumpsObject(ms: seq<Member>)
    requires DistinctKeys(ms) && KeysAscend(ms)
    ensures Dumps(Obj(ms)) == "{" + Joined(DumpedMembers(ms), ",") + "}"
  {
    var cs := CanonMembers(ms);
    KeyOrder();
    OrderedKeysAscend(ms);
    TiesAreEqual(cs);
    hide KeyLe, KeysAscend;
    SameKeysOrdered(ms, cs);
    SortOfOrdered(KeyLe, cs);
    MembersJoined(ms);
  }

  lemma SameKeysOrdered(ms: seq<Member>, ns: seq<Member>)
    requires Ordered(KeyLe, ms) && |ms| == |ns| && forall i :: 0 <= i < |ms| ==> ms[i].key == ns[i].key
    ensures Ordered(KeyLe, ns)
  {
    forall i, j | 0 <= i < j < |ns| ensures KeyLe(ns[i], ns[j]) {
      assert KeyLe(ms[i], ms[j]);
    }
  }

  /** The order members were put in does not show. */
  lemma DumpsOfSameMembers(ms: seq<Member>, ns: seq<Member>)
    requires DistinctKeys(ms) && DistinctKeys(ns)
    requires (forall m :: m in ms ==> m in ns) && (forall n :: n in ns ==> n in ms)
    ensures Dumps(Obj(ms)) == Dumps(Obj(ns))
  {
    CanonMembersWithin(ms, ns);
    CanonMembersWithin(ns, ms);
    SortOfSameMembers(CanonMembers(ms), CanonMembers(ns));
  }

  lemma CanonMembersWithin(ms: seq<Member>, ns: seq<Member>)
    requires forall m :: m in ms ==> m in ns
    ensures forall i :: 0 <= i < |ms| ==> CanonMembers(ms)[i] in CanonMembers(ns)
  {
    forall i | 0 <= i < |ms| ensures CanonMembers(ms)[i] in CanonMembers(ns) {
      assert ms[i] in ns;
      var j :| 0 <= j < |ns| && ns[j] == ms[i];
      assert CanonMembers(ns)[j] == CanonMembers(ms)[i];
    }
  }

  lemma DumpsScalar(n: int, s: string)
    ensures Dumps(Null) == "null" && Dumps(Bool(true)) == "true" && Dumps(Bool(false)) == "false"
    ensures Dumps(Int(n)) == if n < 0 then "-" + NatText(-n) else NatText(n)
    ensures Dumps(Str(s)) == "\"" + Escape(s) + "\""
  {
  }

  // ---------------------------------------------------------------- escapes

  const LOWER_HEX := "0123456789abcdef"

  /** `\uXXXX`, four lower-case hexadecimal digits. */
  ghost predicate IsUnicodeEscape(e: string, n: nat) {
    && |e| == 6 && e[..2] == "\\u"
    && exists a: nat, b: nat, c: nat, d: nat ::
      && a < 16 && b < 16 && c < 16 && d < 16 && n == 0x1000 * a + 0x100 * b + 0x10 * c + d
      && HasDigits(e, a, b, c, d)
  }

  ghost predicate HasDigits(e: string, a: nat, b: nat, c: nat, d: nat)
    requires |e| == 6 && a < 16 && b < 16 && c < 16 && d < 16
  {
    e[2..] == [LOWER_HEX[a], LOWER_HEX[b], LOWER_HEX[c], LOWER_HEX[d]]
  }

  /** The two-character escapes. */
  function ShortEscape(c: char): Option<string> {
    match c
    case '\"' => Some("\\\"")
    case '\\' => Some("\\\\")
    case '\n' => Some("\\n")
    case '\r' => Some("\\r")
    case '\t' => Some("\\t")
    case _ => if c == 8 as char then Some("\\b") else if c == 12 as char then Some("\\f") else None
  }

  lemma HexDigitIsLower(d: nat)
    requires d < 16
    ensures HexDigit(d) == LOWER_HEX[d]
  {
  }

  lemma UnicodeEscape(n: nat)
    requires n < 0x10000
    ensures IsUnicodeEscape("\\u" + Hex4(n), n)
  {
    var p := n / 0x10;
    var q := p / 0x10;
    HexDigitIsLower(q / 0x10);
    HexDigitIsLower(q % 0x10);
    HexDigitIsLower(p % 0x10);
    HexDigitIsLower(n % 0x10);
    var e := "\\u" + Hex4(n);
    assert e[2..] == Hex4(n);
    hide HexDigit;
    assert HasDigits(e, q / 0x10, q % 0x10, p % 0x10, n % 0x10);
  }

  lemma ShortEscapeIsBasic(c: char)
    ensures ShortEscape(c).Some? ==> (c as int) < 0x80
  {
  }

  lemma EscapeShortOrPlain(c: char)
    requires ShortEscape(c).Some? || 0x20 <= c as int <= 0x7e
    ensures EscapeChar(c) == if ShortEscape(c).Some? then ShortEscape(c).value else [c]
  {
  }

  lemma EscapeCodeUnit(c: char)
    requires ShortEscape(c).None? && !(0x20 <= c as int <= 0x7e) && (c as int) < 0x10000
    ensures IsUnicodeEscape(EscapeChar(c), c as int)
  {
    UnicodeEscape(c as int);
    hide IsUnicodeEscape, Hex4, ShortEscape;
  }

  lemma TwoUnits(a: string, b: string)
    requires |a| == |b| == 4
    ensures var e := "\\u" + a + "\\u" + b; |e| == 12 && e[..6] == "\\u" + a && e[6..] == "\\u" + b
  {
  }

  lemma EscapePair(c: char)
    requires c as int >= 0x10000
    ensures var e, v := EscapeChar(c), c as int - 0x10000;
            |e| == 12 && IsUnicodeEscape(e[..6], 0xd800 + v / 0x400) && IsUnicodeEscape(e[6..], 0xdc00 + v % 0x400)
  {
    hide IsUnicodeEscape, Hex4;
    var v := c as int - 0x10000;
    UnicodeEscape(0xd800 + v / 0x400);
    UnicodeEscape(0xdc00 + v % 0x400);
    TwoUnits(Hex4(0xd800 + v / 0x400), Hex4(0xdc00 + v % 0x400));
  }

  /** What `json.dumps` writes for one character: a short escape, the printable ASCII character itself, or its UTF-16 code units. */
  lemma EscapeCharMeaning(c: char)
    ensures var e, n := EscapeChar(c), c as int;
            if ShortEscape(c).Some? then e == ShortEscape(c).value
            else if 0x20 <= n <= 0x7e then e == [c]
            else if n < 0x10000 then IsUnicodeEscape(e, n)
            else |e| == 12 && IsUnicodeEscape(e[..6], 0xd800 + (n - 0x10000) / 0x400) && IsUnicodeEscape(e[6..], 0xdc00 + (n - 0x10000) % 0x400)
  {
    ShortEscapeIsBasic(c);
    hide EscapeChar, IsUnicodeEscape, ShortEscape;
    if ShortEscape(c).Some? || 0x20 <= c as int <= 0x7e {
      EscapeShortOrPlain(c);
    } else if (c as int) < 0x10000 {
      EscapeCodeUnit(c);
    } else {
      EscapePair(c);
    }
  }

  /** A string is escaped character by character. */
  lemma {:induction false} EscapeConcat(s: string, t: string)
    ensures Escape(s + t) == Escape(s) + Escape(t)
    ensures |t| == 1 ==> Escape(t) == EscapeChar(t[0])
  {
    if s == [] {
      assert s + t == t;
    } else {
      assert (s + t)[1..] == s[1..] + t;
      EscapeConcat(s[1..], t);
    }
  }
}
