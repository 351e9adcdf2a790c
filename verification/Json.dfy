/**
 JSON-native Python values, `json.dumps` and `json.loads`.

 A `dict` keeps its insertion order, so an object is a sequence of members. `Dumps` sorts the
 keys (`sort_keys=True`) at every level; `Print` writes members in the order they are stored.
 `Loads` accepts any amount of blank space between tokens, as Python does.
 */
module Json {
  import opened Wrappers
  import opened PyText
  import opened JsonText
  import opened Sorting

  datatype Member = Member(key: string, value: Value)

  datatype Value =
    | Null
    | Bool(b: bool)
    | Int(n: int)
    | Float(f: FloatText)
    | Str(s: string)
    | Arr(items: seq<Value>)
    | Obj(members: seq<Member>)

  ghost predicate DistinctKeys(ms: seq<Member>) {
    forall i, j :: 0 <= i < j < |ms| ==> ms[i].key != ms[j].key
  }

  /** What a Python value made of JSON types always satisfies. */
  ghost predicate Valid(v: Value) {
    match v
    case Float(f) => ValidFloat(f)
    case Arr(items) => forall i :: 0 <= i < |items| ==> Valid(items[i])
    case Obj(ms) => DistinctKeys(ms) && forall i :: 0 <= i < |ms| ==> Valid(ms[i].value)
    case _ => true
  }

  /** `d[key] = value` on an insertion-ordered `dict`. */
  function DictPut(d: seq<Member>, key: string, value: Value): seq<Member> {
    if d == [] then [Member(key, value)]
    else if d[0].key == key then [Member(key, value)] + d[1..]
    else [d[0]] + DictPut(d[1..], key, value)
  }

  // ---------------------------------------------------------------- writing

  /** The `separators` argument of `json.dumps`. */
  datatype Style = Style(itemSep: string, keySep: string)

  const COMPACT := Style(",", ":")
  const SPACED := Style(", ", ": ")

  predicate IsSeparator(sep: string, c: char) {
    sep == [c] || sep == [c, ' ']
  }

  predicate ValidStyle(st: Style) {
    IsSeparator(st.itemSep, ',') && IsSeparator(st.keySep, ':')
  }

  function Quote(s: string): string {
    "\"" + Escape(s) + "\""
  }

  function Print(v: Value, st: Style): string
    decreases v, 1
  {
    match v
    case Null => "null"
    case Bool(b) => if b then "true" else "false"
    case Int(n) => IntString(n)
    case Float(f) => FloatString(f)
    case Str(s) => Quote(s)
    case Arr(items) => "[" + PrintItems(items, st) + "]"
    case Obj(ms) => "{" + PrintMembers(ms, st) + "}"
  }

  function PrintItems(items: seq<Value>, st: Style): string
    decreases items, 0
  {
    if items == [] then ""
    else if |items| == 1 then Print(items[0], st)
    else Print(items[0], st) + st.itemSep + PrintItems(items[1..], st)
  }

  function PrintMember(m: Member, st: Style): string
    decreases m, 2
  {
    Quote(m.key) + st.keySep + Print(m.value, st)
  }

  function PrintMembers(ms: seq<Member>, st: Style): string
    decreases ms, 0
  {
    if ms == [] then ""
    else if |ms| == 1 then PrintMember(ms[0], st)
    else PrintMember(ms[0], st) + st.itemSep + PrintMembers(ms[1..], st)
  }

  // ---------------------------------------------------------------- canonical order

  predicate KeyLe(a: Member, b: Member) {
    StrLe(a.key, b.key)
  }

  /** The value with the members of every object sorted by key. */
  function Canon(v: Value): Value
    decreases v, 1
  {
    match v
    case Arr(items) => Arr(CanonItems(items))
    case Obj(ms) => Obj(Sort(KeyLe, CanonMembers(ms)))
    case _ => v
  }

  function CanonItems(items: seq<Value>): (r: seq<Value>)
    ensures |r| == |items|
    ensures forall i :: 0 <= i < |r| ==> r[i] == Canon(items[i])
    decreases items, 0
  {
    if items == [] then [] else [Canon(items[0])] + CanonItems(items[1..])
  }

  function CanonMembers(ms: seq<Member>): (r: seq<Member>)
    ensures |r| == |ms|
    ensures forall i :: 0 <= i < |r| ==> r[i] == Member(ms[i].key, Canon(ms[i].value))
    decreases ms, 0
  {
    if ms == [] then [] else [Member(ms[0].key, Canon(ms[0].value))] + CanonMembers(ms[1..])
  }

  /** `json.dumps(v, sort_keys=True, separators=(",", ":"))`. */
  function Dumps(v: Value): string {
    Print(Canon(v), COMPACT)
  }

  /**
   Equality of Python values that also tells `1`, `1.0` and `True` apart: arrays are compared
   item by item, objects as mappings, whatever the order of their members.
   */
  ghost predicate Same(v: Value, w: Value) {
    match v
    case Arr(xs) =>
      w.Arr? && |xs| == |w.items| && forall i :: 0 <= i < |xs| ==> Same(xs[i], w.items[i])
    case Obj(ms) =>
      && w.Obj?
      && (forall i :: 0 <= i < |ms| ==> FoundIn(ms[i], w.members))
      && (forall j :: 0 <= j < |w.members| ==> Finds(ms, w.members[j]))
    case _ => v == w
  }

  /** Some member of `ns` has the key of `m` and the same value. */
  ghost predicate FoundIn(m: Member, ns: seq<Member>) {
    exists j :: 0 <= j < |ns| && m.key == ns[j].key && Same(m.value, ns[j].value)
  }

  /** Some member of `ms` has the key of `n` and the same value. */
  ghost predicate Finds(ms: seq<Member>, n: Member) {
    exists i :: 0 <= i < |ms| && ms[i].key == n.key && Same(ms[i].value, n.value)
  }

  // ---------------------------------------------------------------- reading

  predicate Blank(c: char) {
    c == ' ' || c == '\t' || c == '\n' || c == '\r'
  }

  function SkipBlank(s: string): (r: string)
    ensures |r| <= |s|
    ensures r != [] ==> !Blank(r[0])
  {
    if s != [] && Blank(s[0]) then SkipBlank(s[1..]) else s
  }

  function ParseNumber(s: string): (r: Option<Scan<Value>>)
    ensures r.Some? ==> |r.value.rest| < |s|
  {
    match ReadNumber(s)
    case None => None
    case Some(Scan(Whole(n), rest)) => Some(Scan(Int(n), rest))
    case Some(Scan(Fractional(f), rest)) => Some(Scan(Float(f), rest))
  }

  function ParseScalar(s: string): (r: Option<Scan<Value>>)
    requires s != []
    ensures r.Some? ==> |r.value.rest| < |s|
  {
    if IsDigit(s[0]) || s[0] == '-' then ParseNumber(s)
    else if s[0] == '\"' then
      match ReadString(s[1..])
      case None => None
      case Some(Scan(t, rest)) => Some(Scan(Str(t), rest))
    else if s[0] == 'n' then if "null" <= s then Some(Scan(Null, s[4..])) else None
    else if s[0] == 't' then if "true" <= s then Some(Scan(Bool(true), s[4..])) else None
    else if s[0] == 'f' then if "false" <= s then Some(Scan(Bool(false), s[5..])) else None
    else None
  }

  function ParseValue(s: string): (r: Option<Scan<Value>>)
    ensures r.Some? ==> |r.value.rest| < |s|
    decreases |s|, 0
  {
    if s == [] then None
    else if s[0] == '[' then
      var b := SkipBlank(s[1..]);
      if b != [] && b[0] == ']' then Some(Scan(Arr([]), b[1..]))
      else
        match ParseItems(b)
        case None => None
        case Some(Scan(items, rest)) => Some(Scan(Arr(items), rest))
    else if s[0] == '{' then
      var b := SkipBlank(s[1..]);
      if b != [] && b[0] == '}' then Some(Scan(Obj([]), b[1..]))
      else
        match ParseMembers(b, [])
        case None => None
        case Some(Scan(ms, rest)) => Some(Scan(Obj(ms), rest))
    else ParseScalar(s)
  }

  /** Reads `value , value ... ]`. */
  function ParseItems(s: string): (r: Option<Scan<seq<Value>>>)
    ensures r.Some? ==> |r.value.rest| < |s|
    decreases |s|, 1
  {
    match ParseValue(s)
    case None => None
    case Some(Scan(v, t)) =>
      var u := SkipBlank(t);
      if u == [] then None
      else if u[0] == ']' then Some(Scan([v], u[1..]))
      else if u[0] == ',' then
        match ParseItems(SkipBlank(u[1..]))
        case None => None
        case Some(Scan(vs, rest)) => Some(Scan([v] + vs, rest))
      else None
  }

  /** Reads `"key" : value`. */
  function ParseMember(s: string): (r: Option<Scan<Member>>)
    ensures r.Some? ==> |r.value.rest| < |s|
    decreases |s|, 1
  {
    if s == [] || s[0] != '\"' then None
    else
      match ReadString(s[1..])
      case None => None
      case Some(Scan(key, t)) =>
        var u := SkipBlank(t);
        if u == [] || u[0] != ':' then None
        else
          match ParseValue(SkipBlank(u[1..]))
          case None => None
          case Some(Scan(v, rest)) => Some(Scan(Member(key, v), rest))
  }

  /** Reads `member , member ... }` into a `dict` that already holds `acc`. */
  function ParseMembers(s: string, acc: seq<Member>): (r: Option<Scan<seq<Member>>>)
    ensures r.Some? ==> |r.value.rest| < |s|
    decreases |s|, 2
  {
    match ParseMember(s)
    case None => None
    case Some(Scan(m, t)) =>
      var d := DictPut(acc, m.key, m.value);
      var u := SkipBlank(t);
      if u == [] then None
      else if u[0] == '}' then Some(Scan(d, u[1..]))
      else if u[0] == ',' then ParseMembers(SkipBlank(u[1..]), d)
      else None
  }

  /** `json.loads(text)`, `None` standing for a decoding error. */
  function Loads(text: string): Option<Value> {
    match ParseValue(SkipBlank(text))
    case None => None
    case Some(Scan(v, rest)) => if SkipBlank(rest) == [] then Some(v) else None
  }
}
