/** Everything `json.dumps` writes is printable ASCII, so encoding it for the hash is the identity. */
module JsonAscii {
  import opened PyText
  import opened JsonText
  import opened Json
  import opened JsonCanonical

  ghost predicate Printable(s: string) {
    forall i :: 0 <= i < |s| ==> 0x20 <= s[i] as int <= 0x7e
  }

  lemma Joined(a: string, b: string)
    requires Printable(a) && Printable(b)
    ensures Printable(a + b)
  {
  }

  lemma HexPrintable(n: nat)
    requires n < 0x10000
    ensures Printable(Hex4(n))
  {
  }

  lemma EscapeCharPrintable(c: char)
    ensures Printable(EscapeChar(c))
  {
    var n := c as int;
    if n >= 0x10000 {
      var v := n - 0x10000;
      HexPrintable(0xd800 + v / 0x400);
      HexPrintable(0xdc00 + v % 0x400);
    } else {
      HexPrintable(n);
    }
    hide Hex4;
  }

  lemma {:induction false} EscapePrintable(s: string)
    ensures Printable(Escape(s))
  {
    if s != [] {
      EscapeCharPrintable(s[0]);
      EscapePrintable(s[1..]);
      Joined(EscapeChar(s[0]), Escape(s[1..]));
    }
  }

  lemma QuotePrintable(s: string)
    ensures Printable(Quote(s))
  {
    EscapePrintable(s);
  }

  lemma NumberPrintable(n: int)
    ensures Printable(IntString(n))
  {
  }

  lemma FloatPrintable(f: FloatText)
    requires ValidFloat(f)
    ensures Printable(FloatString(f))
  {
  }

  lemma {:induction false} PrintPrintable(v: Value, st: Style)
    requires Valid(v) && ValidStyle(st)
    ensures Printable(Print(v, st))
    decreases v, 2
  {
    match v
    case Null =>
    case Bool(_) =>
    case Int(n) => NumberPrintable(n);
    case Float(f) => FloatPrintable(f);
    case Str(s) => QuotePrintable(s);
    case Arr(items) => ItemsPrintable(items, st);
    case Obj(ms) => MembersPrintable(ms, st);
  }

  lemma {:induction false} ItemsPrintable(items: seq<Value>, st: Style)
    requires (forall i :: 0 <= i < |items| ==> Valid(items[i])) && ValidStyle(st)
    ensures Printable(PrintItems(items, st))
    decreases items, 1
  {
    if items != [] {
      PrintPrintable(items[0], st);
      ItemsPrintable(items[1..], st);
    }
  }

  lemma {:induction false} MemberPrintable(m: Member, st: Style)
    requires Valid(m.value) && ValidStyle(st)
    ensures Printable(PrintMember(m, st))
    decreases m, 3
  {
    QuotePrintable(m.key);
    PrintPrintable(m.value, st);
    hide Quote, Print;
  }

  lemma {:induction false} MembersPrintable(ms: seq<Member>, st: Style)
    requires (forall i :: 0 <= i < |ms| ==> Valid(ms[i].value)) && ValidStyle(st)
    ensures Printable(PrintMembers(ms, st))
    decreases ms, 1
  {
    if ms != [] {
      MemberPrintable(ms[0], st);
      MembersPrintable(ms[1..], st);
    }
  }

  /** The canonical text, and any stored text, is printable ASCII, whatever the strings in the payload. */
  lemma {:induction false} DumpsPrintable(v: Value)
    requires Valid(v)
    ensures Printable(Dumps(v))
  {
    CanonValid(v);
    PrintPrintable(Canon(v), COMPACT);
  }
}
