/** Whatever text `json.loads` accepts, what it returns is a proper Python value: keys are unique and floats are number texts. */
module JsonValid {
  import opened Wrappers
  import opened PyText
  import opened JsonText
  import opened Json

  // ---------------------------------------------------------------- numbers

  lemma FracRead(t: string)
    ensures FracRun(t) == 0 || IsFrac(t[..FracRun(t)])
  {
    var k := FracRun(t);
    if k > 0 {
      assert t[..k][1..] == t[1..][..k - 1];
    }
  }

  lemma ExpRead(u: string)
    ensures ExpRun(u) == 0 || IsExp(u[..ExpRun(u)])
  {
    var k := ExpRun(u);
    if k > 0 {
      var sign := if |u| >= 2 && (u[1] == '+' || u[1] == '-') then 1 else 0;
      assert u[..k][1 + sign..] == u[1 + sign..][..k - 1 - sign];
    }
  }

  lemma WholeRead(b: string)
    ensures WholeRun(b) == 0 || IsWhole(b[..WholeRun(b)])
  {
  }

  lemma NumberValid(s: string)
    ensures ReadNumber(s).Some? && ReadNumber(s).value.value.Fractional? ==> ValidFloat(ReadNumber(s).value.value.f)
  {
    var neg := s != [] && s[0] == '-';
    var b := if neg then s[1..] else s;
    var k := WholeRun(b);
    if k > 0 {
      WholeRead(b);
      var t := b[k..];
      FracRead(t);
      ExpRead(t[FracRun(t)..]);
      hide IsWhole, IsFrac, IsExp, WholeRun, FracRun, ExpRun;
    }
  }

  // ---------------------------------------------------------------- members

  lemma {:induction false} DictPutKeepsKeysDistinct(d: seq<Member>, key: string, value: Value)
    requires DistinctKeys(d)
    ensures DistinctKeys(DictPut(d, key, value))
    ensures forall i :: 0 <= i < |DictPut(d, key, value)| ==>
              DictPut(d, key, value)[i].key == key || exists j :: 0 <= j < |d| && d[j].key == DictPut(d, key, value)[i].key
  {
    if d != [] && d[0].key != key {
      DictPutKeepsKeysDistinct(d[1..], key, value);
      var r := DictPut(d[1..], key, value);
      forall i | 0 <= i < |r| ensures r[i].key != d[0].key {
        if r[i].key != key {
          var j :| 0 <= j < |d[1..]| && d[1..][j].key == r[i].key;
          assert d[j + 1].key == r[i].key;
        }
      }
      forall i | 0 <= i < |DictPut(d, key, value)|
        ensures DictPut(d, key, value)[i].key == key || exists j :: 0 <= j < |d| && d[j].key == DictPut(d, key, value)[i].key
      {
        if i > 0 && r[i - 1].key != key {
          var j :| 0 <= j < |d[1..]| && d[1..][j].key == r[i - 1].key;
          assert d[j + 1].key == r[i - 1].key;
        }
      }
    }
  }

  ghost predicate AllValid(ms: seq<Member>) {
    forall i :: 0 <= i < |ms| ==> Valid(ms[i].value)
  }

  lemma {:induction false} DictPutKeepsValid(d: seq<Member>, key: string, value: Value)
    requires AllValid(d) && Valid(value)
    ensures AllValid(DictPut(d, key, value))
  {
    if d != [] && d[0].key != key {
      DictPutKeepsValid(d[1..], key, value);
    }
  }

  // ---------------------------------------------------------------- values

  lemma ScalarValid(s: string)
    requires s != []
    ensures ParseScalar(s).Some? ==> Valid(ParseScalar(s).value.value)
  {
    NumberValid(s);
    hide ReadNumber, ValidFloat;
  }

  lemma {:induction false} ValueValid(s: string)
    ensures ParseValue(s).Some? ==> Valid(ParseValue(s).value.value)
    decreases |s|, 0
  {
    if s != [] {
      var b := SkipBlank(s[1..]);
      if s[0] == '[' {
        ItemsValid(b);
      } else if s[0] == '{' {
        MembersValid(b, []);
      } else {
        ScalarValid(s);
      }
    }
  }

  lemma {:induction false} ItemsValid(s: string)
    ensures ParseItems(s).Some? ==> Valid(Arr(ParseItems(s).value.value))
    decreases |s|, 1
  {
    ValueValid(s);
    if ParseValue(s).Some? {
      var u := SkipBlank(ParseValue(s).value.rest);
      if u != [] && u[0] == ',' {
        ItemsValid(SkipBlank(u[1..]));
      }
    }
  }

  lemma {:induction false} MemberValid(s: string)
    ensures ParseMember(s).Some? ==> Valid(ParseMember(s).value.value.value)
    decreases |s|, 1
  {
    if s != [] && ReadString(s[1..]).Some? {
      var u := SkipBlank(ReadString(s[1..]).value.rest);
      if u != [] {
        ValueValid(SkipBlank(u[1..]));
      }
    }
  }

  lemma {:induction false} MembersValid(s: string, acc: seq<Member>)
    requires DistinctKeys(acc) && AllValid(acc)
    ensures ParseMembers(s, acc).Some? ==> Valid(Obj(ParseMembers(s, acc).value.value))
    decreases |s|, 2
  {
    MemberValid(s);
    if ParseMember(s).Some? {
      var Scan(m, t) := ParseMember(s).value;
      DictPutKeepsKeysDistinct(acc, m.key, m.value);
      DictPutKeepsValid(acc, m.key, m.value);
      var u := SkipBlank(t);
      if u != [] && u[0] == ',' {
        MembersValid(SkipBlank(u[1..]), DictPut(acc, m.key, m.value));
      }
    }
  }

  /** Parsing never yields anything but a proper value, for every text. */
  lemma LoadsValid(text: string)
    ensures Loads(text).Some? ==> Valid(Loads(text).value)
  {
    ValueValid(SkipBlank(text));
  }
}
