/** Reading back what was written, for every JSON-native value and either separator style. */
module JsonRoundTrip {
  import opened Wrappers
  import opened PyText
  import opened JsonText
  import JsonValid
  import opened Json

  lemma SkipNothing(s: string)
    requires s == [] || !Blank(s[0])
    ensures SkipBlank(s) == s
  {
  }

  lemma SkipAfterSeparator(sep: string, c: char, rest: string)
    requires IsSeparator(sep, c) && !Blank(c)
    requires rest == [] || !Blank(rest[0])
    ensures var u := sep + rest; u != [] && u[0] == c && SkipBlank(u) == u && SkipBlank(u[1..]) == rest
  {
  }

  /** No value starts with a blank or with a closing bracket. */
  lemma PrintStart(v: Value, st: Style)
    requires Valid(v)
    ensures Print(v, st) != []
    ensures var c := Print(v, st)[0]; !Blank(c) && c != ']' && c != '}'
    ensures v.Int? || v.Float? ==> var c := Print(v, st)[0]; IsDigit(c) || c == '-'
  {
  }

  lemma {:induction false} ItemsStart(items: seq<Value>, st: Style)
    requires items != [] && Valid(Arr(items))
    ensures PrintItems(items, st) != []
    ensures var c := PrintItems(items, st)[0]; !Blank(c) && c != ']'
  {
    PrintStart(items[0], st);
  }

  lemma MembersStart(ms: seq<Member>, st: Style)
    requires ms != []
    ensures PrintMembers(ms, st) != [] && PrintMembers(ms, st)[0] == '\"'
  {
  }

  lemma {:induction false} FreshKeyGoesLast(d: seq<Member>, m: Member)
    requires forall i :: 0 <= i < |d| ==> d[i].key != m.key
    ensures DictPut(d, m.key, m.value) == d + [m]
  {
    if d != [] {
      FreshKeyGoesLast(d[1..], m);
      assert [d[0]] + (d[1..] + [m]) == d + [m];
    } else {
      assert [] + [m] == [m];
    }
  }

  lemma ReadsAsNumber(s: string)
    requires s != [] && (IsDigit(s[0]) || s[0] == '-')
    ensures ParseValue(s) == ParseNumber(s)
  {
  }

  lemma IntBack(n: int, st: Style, rest: string)
    requires Stops(rest)
    ensures ParseValue(Print(Int(n), st) + rest) == Some(Scan(Int(n), rest))
  {
    PrintStart(Int(n), st);
    IntRoundTrip(n, rest);
    ReadsAsNumber(Print(Int(n), st) + rest);
  }

  lemma FloatBack(f: FloatText, st: Style, rest: string)
    requires ValidFloat(f) && Stops(rest)
    ensures ParseValue(Print(Float(f), st) + rest) == Some(Scan(Float(f), rest))
  {
    PrintStart(Float(f), st);
    FloatRoundTrip(f, rest);
    ReadsAsNumber(Print(Float(f), st) + rest);
  }

  lemma ReadsAsString(s: string)
    requires s != [] && s[0] == '\"'
    ensures ParseValue(s) ==
            match ReadString(s[1..])
            case None => None
            case Some(Scan(t, rest)) => Some(Scan(Str(t), rest))
  {
  }

  lemma QuoteBack(s: string, rest: string)
    ensures var text := Quote(s) + rest; text[0] == '\"' && ReadString(text[1..]) == Some(Scan(s, rest))
  {
    var close := "\"" + rest;
    assert Quote(s) + rest == "\"" + (Escape(s) + close);
    assert ("\"" + (Escape(s) + close))[1..] == Escape(s) + close;
    StringRoundTrip(s, rest);
  }

  lemma StringBack(s: string, st: Style, rest: string)
    ensures ParseValue(Print(Str(s), st) + rest) == Some(Scan(Str(s), rest))
  {
    QuoteBack(s, rest);
    ReadsAsString(Quote(s) + rest);
  }

  lemma WordBack(v: Value, st: Style, rest: string)
    requires v.Null? || v.Bool?
    ensures ParseValue(Print(v, st) + rest) == Some(Scan(v, rest))
  {
  }

  lemma {:induction false} ValueBack(v: Value, st: Style, rest: string)
    requires Valid(v) && ValidStyle(st) && Stops(rest)
    ensures ParseValue(Print(v, st) + rest) == Some(Scan(v, rest))
    decreases v, 1
  {
    match v
    case Arr(items) =>
      ArrayBack(items, st, rest);
    case Obj(ms) =>
      ObjectBack(ms, st, rest);
      assert [] + ms == ms;
      AbsorbedDistinct([], ms);
    case Str(s) =>
      StringBack(s, st, rest);
    case Int(n) =>
      IntBack(n, st, rest);
    case Float(f) =>
      FloatBack(f, st, rest);
    case _ =>
      WordBack(v, st, rest);
  }

  lemma ReadsAsArray(body: string)
    requires body != [] && !Blank(body[0])
    ensures ParseValue("[" + body) ==
            if body[0] == ']' then Some(Scan(Arr([]), body[1..]))
            else match ParseItems(body)
                 case None => None
                 case Some(Scan(items, rest)) => Some(Scan(Arr(items), rest))
  {
  }

  lemma {:induction false} ArrayBack(items: seq<Value>, st: Style, rest: string)
    requires Valid(Arr(items)) && ValidStyle(st)
    ensures ParseValue(Print(Arr(items), st) + rest) == Some(Scan(Arr(items), rest))
    decreases items, 1
  {
    var body := PrintItems(items, st) + "]" + rest;
    assert Print(Arr(items), st) + rest == "[" + body;
    if items == [] {
      assert body == "]" + rest && body[1..] == rest;
    } else {
      ItemsStart(items, st);
      ItemsBack(items, st, rest);
    }
    ReadsAsArray(body);
  }

  lemma LastItem(text: string, v: Value, rest: string)
    requires ParseValue(text) == Some(Scan(v, "]" + rest))
    ensures ParseItems(text) == Some(Scan([v], rest))
  {
  }

  lemma MoreItems(text: string, v: Value, sep: string, tail: string)
    requires IsSeparator(sep, ',') && tail != [] && !Blank(tail[0])
    requires ParseValue(text) == Some(Scan(v, sep + tail))
    ensures ParseItems(text) ==
            match ParseItems(tail)
            case None => None
            case Some(Scan(vs, rest)) => Some(Scan([v] + vs, rest))
  {
    SkipAfterSeparator(sep, ',', tail);
  }

  lemma {:induction false} ItemsBack(items: seq<Value>, st: Style, rest: string)
    requires items != [] && Valid(Arr(items)) && ValidStyle(st)
    ensures ParseItems(PrintItems(items, st) + "]" + rest) == Some(Scan(items, rest))
    decreases items, 0
  {
    hide Print;
    var text := PrintItems(items, st) + "]" + rest;
    if |items| == 1 {
      assert text == Print(items[0], st) + ("]" + rest);
      ValueBack(items[0], st, "]" + rest);
      LastItem(text, items[0], rest);
      assert items == [items[0]];
    } else {
      var tail := PrintItems(items[1..], st) + "]" + rest;
      assert text == Print(items[0], st) + (st.itemSep + tail);
      ValueBack(items[0], st, st.itemSep + tail);
      ItemsStart(items[1..], st);
      ItemsBack(items[1..], st, rest);
      MoreItems(text, items[0], st.itemSep, tail);
      assert items == [items[0]] + items[1..];
    }
  }

  lemma ReadsAsObject(body: string)
    requires body != [] && !Blank(body[0])
    ensures ParseValue("{" + body) ==
            if body[0] == '}' then Some(Scan(Obj([]), body[1..]))
            else match ParseMembers(body, [])
                 case None => None
                 case Some(Scan(ms, rest)) => Some(Scan(Obj(ms), rest))
  {
    assert ("{" + body)[1..] == body;
    SkipNothing(body);
  }

  /** A `dict` after putting the given members into it, one by one. */
  function Absorbed(d: seq<Member>, ms: seq<Member>): seq<Member>
    decreases ms
  {
    if ms == [] then d else Absorbed(DictPut(d, ms[0].key, ms[0].value), ms[1..])
  }

  /** New keys go behind the old ones, in order. */
  lemma {:induction false} AbsorbedDistinct(d: seq<Member>, ms: seq<Member>)
    requires DistinctKeys(d + ms)
    ensures Absorbed(d, ms) == d + ms
    decreases ms
  {
    if ms == [] {
      assert d + ms == d;
    } else {
      NextMember(d, ms);
      AbsorbedDistinct(d + [ms[0]], ms[1..]);
    }
  }

  lemma {:induction false} ObjectBack(ms: seq<Member>, st: Style, rest: string)
    requires (forall i :: 0 <= i < |ms| ==> Valid(ms[i].value)) && ValidStyle(st)
    ensures ParseValue(Print(Obj(ms), st) + rest) == Some(Scan(Obj(Absorbed([], ms)), rest))
    decreases ms, 3
  {
    var body := PrintMembers(ms, st) + "}" + rest;
    assert Print(Obj(ms), st) + rest == "{" + body;
    if ms == [] {
      assert body == "}" + rest && body[1..] == rest;
    } else {
      MembersStart(ms, st);
      MembersBack(ms, [], st, rest);
    }
    ReadsAsObject(body);
  }

  lemma ReadsAsMember(key: string, sep: string, value: string)
    requires IsSeparator(sep, ':') && value != [] && !Blank(value[0])
    ensures ParseMember(Quote(key) + (sep + value)) ==
            match ParseValue(value)
            case None => None
            case Some(Scan(v, rest)) => Some(Scan(Member(key, v), rest))
  {
    QuoteBack(key, sep + value);
    SkipAfterSeparator(sep, ':', value);
  }

  lemma {:induction false} MemberBack(m: Member, st: Style, rest: string)
    requires Valid(m.value) && ValidStyle(st) && Stops(rest)
    ensures ParseMember(PrintMember(m, st) + rest) == Some(Scan(m, rest))
    decreases m, 2
  {
    var value := Print(m.value, st) + rest;
    assert PrintMember(m, st) + rest == Quote(m.key) + (st.keySep + value);
    PrintStart(m.value, st);
    ReadsAsMember(m.key, st.keySep, value);
    ValueBack(m.value, st, rest);
  }

  lemma NextMember(acc: seq<Member>, ms: seq<Member>)
    requires ms != [] && DistinctKeys(acc + ms)
    ensures DictPut(acc, ms[0].key, ms[0].value) == acc + [ms[0]]
    ensures acc + [ms[0]] + ms[1..] == acc + ms
  {
    assert forall i :: 0 <= i < |acc| ==> (acc + ms)[i] == acc[i];
    assert (acc + ms)[|acc|] == ms[0];
    FreshKeyGoesLast(acc, ms[0]);
  }

  lemma LastMemberBack(m: Member, acc: seq<Member>, st: Style, rest: string)
    requires ValidStyle(st) && Valid(m.value)
    ensures ParseMembers(PrintMembers([m], st) + "}" + rest, acc) == Some(Scan(DictPut(acc, m.key, m.value), rest))
    decreases m, 3
  {
    var t := "}" + rest;
    assert PrintMembers([m], st) + "}" + rest == PrintMember(m, st) + t;
    MemberBack(m, st, t);
    SkipNothing(t);
    assert t[1..] == rest;
  }

  lemma {:induction false} MembersBack(ms: seq<Member>, acc: seq<Member>, st: Style, rest: string)
    requires ms != [] && ValidStyle(st)
    requires forall i :: 0 <= i < |ms| ==> Valid(ms[i].value)
    ensures ParseMembers(PrintMembers(ms, st) + "}" + rest, acc) == Some(Scan(Absorbed(acc, ms), rest))
    decreases ms, 2
  {
    hide PrintMember;
    if |ms| == 1 {
      LastMemberBack(ms[0], acc, st, rest);
      assert ms == [ms[0]];
    } else {
      var tail := PrintMembers(ms[1..], st) + "}" + rest;
      var t := st.itemSep + tail;
      assert PrintMembers(ms, st) + "}" + rest == PrintMember(ms[0], st) + t;
      MemberBack(ms[0], st, t);
      MembersStart(ms[1..], st);
      SkipAfterSeparator(st.itemSep, ',', tail);
      MembersBack(ms[1..], DictPut(acc, ms[0].key, ms[0].value), st, rest);
    }
  }

  /** `json.loads(json.dumps(v)) == v`, members in the same order. */
  lemma {:induction false} LoadsPrint(v: Value, st: Style)
    requires Valid(v) && ValidStyle(st)
    ensures Loads(Print(v, st)) == Some(v)
  {
    PrintStart(v, st);
    SkipNothing(Print(v, st));
    ValueBack(v, st, "");
    assert Print(v, st) + "" == Print(v, st);
  }

  // ---------------------------------------------------------------- repeated keys

  /** `m` is the last member with its key. */
  ghost predicate LastOfKey(m: Member, ms: seq<Member>) {
    exists i :: 0 <= i < |ms| && ms[i] == m && forall j :: i < j < |ms| ==> ms[j].key != m.key
  }

  lemma {:induction false} PutMembers(d: seq<Member>, key: string, value: Value, m: Member)
    requires DistinctKeys(d)
    ensures m in DictPut(d, key, value) <==> m == Member(key, value) || (m in d && m.key != key)
  {
    if d != [] {
      assert d == [d[0]] + d[1..];
      PutMembers(d[1..], key, value, m);
    }
  }

  lemma {:induction false} AbsorbedLast(d: seq<Member>, ms: seq<Member>, m: Member)
    requires DistinctKeys(d)
    ensures m in Absorbed(d, ms) <==> LastOfKey(m, ms) || (m in d && forall j :: 0 <= j < |ms| ==> ms[j].key != m.key)
    decreases ms
  {
    if ms != [] {
      var d' := DictPut(d, ms[0].key, ms[0].value);
      JsonValid.DictPutKeepsKeysDistinct(d, ms[0].key, ms[0].value);
      AbsorbedLast(d', ms[1..], m);
      PutMembers(d, ms[0].key, ms[0].value, m);
      LastOfKeyCons(m, ms);
    }
  }

  lemma LastOfKeyCons(m: Member, ms: seq<Member>)
    requires ms != []
    ensures LastOfKey(m, ms) <==> LastOfKey(m, ms[1..]) || (m == ms[0] && forall j :: 0 < j < |ms| ==> ms[j].key != m.key)
  {
    if i :| 0 <= i < |ms[1..]| && ms[1..][i] == m && forall j :: i < j < |ms[1..]| ==> ms[1..][j].key != m.key {
      assert ms[i + 1] == m && forall j :: i + 1 < j < |ms| ==> ms[j] == ms[1..][j - 1];
    }
    if i :| 0 < i < |ms| && ms[i] == m && forall j :: i < j < |ms| ==> ms[j].key != m.key {
      assert ms[1..][i - 1] == m;
    }
  }

  /** Reading an object that repeats keys gives each key once, with the value it was given last. */
  lemma LastValueWins(ms: seq<Member>, st: Style)
    requires (forall i :: 0 <= i < |ms| ==> Valid(ms[i].value)) && ValidStyle(st)
    ensures var v := Loads(Print(Obj(ms), st));
            && v.Some? && v.value.Obj? && DistinctKeys(v.value.members)
            && forall m :: m in v.value.members <==> LastOfKey(m, ms)
  {
    var text := Print(Obj(ms), st);
    SkipNothing(text);
    ObjectBack(ms, st, "");
    assert text + "" == text;
    JsonValid.LoadsValid(text);
    forall m ensures m in Absorbed([], ms) <==> LastOfKey(m, ms) {
      AbsorbedLast([], ms, m);
    }
  }
}
