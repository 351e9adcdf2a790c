/**
 The restricted ISO 8601 duration parser (`timestamps.py`): `P`, then weeks and days, then
 optionally `T` and hours, minutes and seconds, every component optional but in that order.
 Durations are whole seconds, and digits are the ASCII ones.
 */
module Duration {
  import opened Wrappers
  import opened PyText

  /** The digits of each component that is written; `time` is what follows the `T`, if there is one. */
  datatype Parts = Parts(weeks: Option<string>, days: Option<string>, time: Option<TimeParts>)
  datatype TimeParts = TimeParts(hours: Option<string>, minutes: Option<string>, seconds: Option<string>)

  /** `timedelta` refuses a magnitude of more than 999999999 days. */
  datatype DurationError = OverflowError

  const SECONDS_PER_DAY := 86_400
  const FIRST_OVERFLOW := 1_000_000_000 * SECONDS_PER_DAY

  // ---------------------------------------------------------------- the grammar

  ghost predicate Digits(c: Option<string>) {
    c.Some? ==> c.value != "" && AllDigits(c.value)
  }

  ghost predicate WellFormed(p: Parts) {
    && Digits(p.weeks) && Digits(p.days)
    && (p.time.Some? ==> WellFormedTime(p.time.value))
  }

  ghost predicate WellFormedTime(t: TimeParts) {
    Digits(t.hours) && Digits(t.minutes) && Digits(t.seconds)
  }

  /** A component in front of what follows it. */
  function Component(c: Option<string>, unit: char, rest: string): string {
    match c
    case Some(digits) => digits + ([unit] + rest)
    case None => rest
  }

  function TimeText(t: TimeParts): string {
    Component(t.hours, 'H', Component(t.minutes, 'M', Component(t.seconds, 'S', "")))
  }

  function AfterDays(time: Option<TimeParts>): string {
    match time
    case Some(t) => ['T'] + TimeText(t)
    case None => ""
  }

  function Text(p: Parts): string {
    ['P'] + Component(p.weeks, 'W', Component(p.days, 'D', AfterDays(p.time)))
  }

  // ---------------------------------------------------------------- the parser

  /** `(\d+)unit` at the front of `s`. */
  predicate Starts(s: string, unit: char) {
    var k := DigitRun(s);
    0 < k < |s| && s[k] == unit
  }

  /** `(?:(\d+)unit)?` and what it leaves. */
  function Take(s: string, unit: char): (r: (Option<string>, string))
    ensures Digits(r.0) && s == Component(r.0, unit, r.1)
  {
    if Starts(s, unit) then
      var k := DigitRun(s);
      assert s == s[..k] + ([unit] + s[k + 1..]);
      (Some(s[..k]), s[k + 1..])
    else (None, s)
  }

  function MatchTime(s: string): Option<TimeParts> {
    var (h, s1) := Take(s, 'H');
    var (m, s2) := Take(s1, 'M');
    var (sec, s3) := Take(s2, 'S');
    if s3 == "" then Some(TimeParts(h, m, sec)) else None
  }

  /** `_ISO8601_DURATION.match`. */
  function Match(s: string): Option<Parts> {
    if s == "" || s[0] != 'P' then None
    else
      var (w, s1) := Take(s[1..], 'W');
      var (d, s2) := Take(s1, 'D');
      if s2 == "" then Some(Parts(w, d, None))
      else if s2[0] != 'T' then None
      else
        match MatchTime(s2[1..])
        case Some(t) => Some(Parts(w, d, Some(t)))
        case None => None
  }

  /** `int(...)` of a component, a missing one being 0. */
  function Amount(c: Option<string>): nat
    requires Digits(c)
  {
    match c
    case Some(digits) => NatValue(digits)
    case None => 0
  }

  function Seconds(p: Parts): nat
    requires WellFormed(p)
  {
    var clock := match p.time
      case Some(t) => 3600 * Amount(t.hours) + 60 * Amount(t.minutes) + Amount(t.seconds)
      case None => 0;
    SECONDS_PER_DAY * (7 * Amount(p.weeks) + Amount(p.days)) + clock
  }

  /** `timedelta(seconds=n)`. */
  function Timedelta(n: nat): Result<Option<nat>, DurationError> {
    if n < FIRST_OVERFLOW then Ok(Some(n)) else Err(OverflowError)
  }

  /** `parse_iso8601_duration`. */
  function Parse(value: Option<string>): Result<Option<nat>, DurationError> {
    if value == None || value.value == "" then Ok(None)
    else
      var text := Strip(value.value);
      var m := Match(text);
      if m == None || text == "P" then Ok(None)
      else
        MatchSound(text);
        Timedelta(Seconds(m.value))
  }

  // ---------------------------------------------------------------- the parser accepts exactly the grammar

  lemma MatchSound(s: string)
    requires Match(s).Some?
    ensures WellFormed(Match(s).value) && Text(Match(s).value) == s
  {
    var (w, s1) := Take(s[1..], 'W');
    var (d, s2) := Take(s1, 'D');
    if s2 != "" {
      MatchTimeSound(s2[1..]);
      assert s2 == ['T'] + s2[1..];
    }
    assert s == ['P'] + s[1..];
  }

  lemma MatchTimeSound(s: string)
    requires MatchTime(s).Some?
    ensures WellFormedTime(MatchTime(s).value) && TimeText(MatchTime(s).value) == s
  {
  }

  lemma StartsComponent(c: Option<string>, unit: char, rest: string, wanted: char)
    requires Digits(c) && !IsDigit(unit)
    ensures Starts(Component(c, unit, rest), wanted) <==> if c.Some? then unit == wanted else Starts(rest, wanted)
  {
    if c.Some? {
      DigitRunOf(c.value, [unit] + rest);
    }
  }

  /** A written component is taken off; so is a missing one, when nothing behind it looks like it. */
  lemma TakeComponent(c: Option<string>, unit: char, rest: string)
    requires Digits(c) && !IsDigit(unit)
    requires c.None? ==> !Starts(rest, unit)
    ensures Take(Component(c, unit, rest), unit) == (c, rest)
  {
    StartsComponent(c, unit, rest, unit);
    if c.Some? {
      var s := Component(c, unit, rest);
      DigitRunOf(c.value, [unit] + rest);
      assert s[..|c.value|] == c.value && s[|c.value| + 1..] == rest;
    }
  }

  lemma StartsNowhere(rest: string, unit: char)
    requires rest == "" || !IsDigit(rest[0])
    ensures !Starts(rest, unit)
  {
  }

  lemma MatchTimeComplete(t: TimeParts)
    requires WellFormedTime(t)
    ensures MatchTime(TimeText(t)) == Some(t)
  {
    var s2 := Component(t.seconds, 'S', "");
    var s1 := Component(t.minutes, 'M', s2);
    StartsNowhere("", 'S');
    StartsNowhere("", 'M');
    StartsNowhere("", 'H');
    StartsComponent(t.seconds, 'S', "", 'M');
    StartsComponent(t.seconds, 'S', "", 'H');
    StartsComponent(t.minutes, 'M', s2, 'H');
    TakeComponent(t.hours, 'H', s1);
    TakeComponent(t.minutes, 'M', s2);
    TakeComponent(t.seconds, 'S', "");
  }

  lemma AfterDaysMatched(w: Option<string>, d: Option<string>, time: Option<TimeParts>, s: string)
    requires time.Some? ==> WellFormedTime(time.value)
    requires s != "" && s[0] == 'P'
    requires Take(s[1..], 'W').0 == w && Take(Take(s[1..], 'W').1, 'D') == (d, AfterDays(time))
    ensures Match(s) == Some(Parts(w, d, time))
  {
    if time.Some? {
      MatchTimeComplete(time.value);
      assert AfterDays(time)[1..] == TimeText(time.value);
    }
  }

  lemma MatchComplete(p: Parts)
    requires WellFormed(p)
    ensures Match(Text(p)) == Some(p)
  {
    hide Match, MatchTime, TimeText;
    var s2 := AfterDays(p.time);
    var s1 := Component(p.days, 'D', s2);
    StartsNowhere(s2, 'D');
    StartsNowhere(s2, 'W');
    StartsComponent(p.days, 'D', s2, 'W');
    TakeComponent(p.weeks, 'W', s1);
    TakeComponent(p.days, 'D', s2);
    assert Text(p)[1..] == Component(p.weeks, 'W', s1);
    AfterDaysMatched(p.weeks, p.days, p.time, Text(p));
  }

  /**
   The parser finds a decomposition exactly when it is one, so a text has at most one: greedy
   scanning and the regular expression's backtracking cannot differ.
   */
  lemma MatchIff(s: string, p: Parts)
    ensures Match(s) == Some(p) <==> WellFormed(p) && Text(p) == s
  {
    if Match(s) == Some(p) {
      MatchSound(s);
    }
    if WellFormed(p) && Text(p) == s {
      MatchComplete(p);
    }
  }

  lemma DecompositionUnique(p: Parts, q: Parts)
    requires WellFormed(p) && WellFormed(q) && Text(p) == Text(q)
    ensures p == q
  {
    MatchComplete(p);
    MatchComplete(q);
  }

  /** `v`, without the blanks around it, is written as `p` and is not the bare `P`. */
  ghost predicate Writes(v: string, p: Parts) {
    WellFormed(p) && Text(p) == Strip(v) && p != Parts(None, None, None)
  }

  /** What the parser answers, for every text: the weighted sum, an overflow, or `None` when the grammar does not produce the text. */
  lemma ParseMeaning(v: string)
    ensures forall p :: Writes(v, p) ==> Parse(Some(v)) == Timedelta(Seconds(p))
    ensures (forall p :: !Writes(v, p)) <==> Parse(Some(v)) == Ok(None)
  {
    var s := Strip(v);
    BareDesignator();
    forall p | Writes(v, p) ensures Parse(Some(v)) == Timedelta(Seconds(p)) {
      MatchIff(s, p);
      NotBare(p);
    }
    if Match(s).Some? {
      MatchSound(s);
      if s != "P" {
        assert Writes(v, Match(s).value);
      }
    }
  }

  lemma BareDesignator()
    ensures Match("P") == Some(Parts(None, None, None))
  {
  }

  lemma NotBare(p: Parts)
    requires WellFormed(p) && p != Parts(None, None, None)
    ensures Text(p) != "P"
  {
  }

  // ---------------------------------------------------------------- the canonical printer

  datatype Length = Length(weeks: nat, days: nat, hours: nat, minutes: nat, seconds: nat)

  function Total(d: Length): nat {
    SECONDS_PER_DAY * (7 * d.weeks + d.days) + 3600 * d.hours + 60 * d.minutes + d.seconds
  }

  function Shown(n: nat): (c: Option<string>)
    ensures Digits(c)
  {
    if n == 0 then None else Some(NatText(n))
  }

  /** Components that are zero are left out, and nothing at all is written `PT0S`. */
  function Printed(d: Length): (p: Parts)
    ensures WellFormed(p) && p != Parts(None, None, None)
  {
    if d == Length(0, 0, 0, 0, 0) then Parts(None, None, Some(TimeParts(None, None, Some("0"))))
    else if d.hours == d.minutes == d.seconds == 0 then Parts(Shown(d.weeks), Shown(d.days), None)
    else Parts(Shown(d.weeks), Shown(d.days), Some(TimeParts(Shown(d.hours), Shown(d.minutes), Shown(d.seconds))))
  }

  lemma ShownAmount(n: nat)
    ensures Amount(Shown(n)) == n
  {
    if n > 0 {
      NatRoundTrip(n);
    }
  }

  lemma PrintedSeconds(d: Length)
    ensures Seconds(Printed(d)) == Total(d)
  {
    ShownAmount(d.weeks);
    ShownAmount(d.days);
    ShownAmount(d.hours);
    ShownAmount(d.minutes);
    ShownAmount(d.seconds);
    NatRoundTrip(0);
  }

  ghost predicate EndsSolid(s: string) {
    s != "" ==> !IsSpace(s[|s| - 1])
  }

  lemma LastOf(c: Option<string>, unit: char, rest: string)
    requires EndsSolid(rest) && !IsSpace(unit)
    ensures EndsSolid(Component(c, unit, rest))
  {
  }

  lemma AfterDaysSolid(time: Option<TimeParts>)
    ensures EndsSolid(AfterDays(time))
  {
    if time.Some? {
      var t := time.value;
      LastOf(t.hours, 'H', Component(t.minutes, 'M', Component(t.seconds, 'S', "")));
      LastOf(t.minutes, 'M', Component(t.seconds, 'S', ""));
      LastOf(t.seconds, 'S', "");
      hide Component;
      assert EndsSolid(TimeText(t));
    }
  }

  lemma TextNotBlank(p: Parts)
    ensures |Text(p)| > 0 && !IsSpace(Text(p)[0]) && !IsSpace(Text(p)[|Text(p)| - 1])
  {
    hide Component, AfterDays;
    AfterDaysSolid(p.time);
    LastOf(p.days, 'D', AfterDays(p.time));
    LastOf(p.weeks, 'W', Component(p.days, 'D', AfterDays(p.time)));
  }

  /** Parsing what the printer wrote gives the duration back, for every tuple of components: its total, or the overflow. */
  lemma ParsePrint(d: Length)
    ensures Parse(Some(Text(Printed(d)))) == Timedelta(Total(d))
  {
    var p := Printed(d);
    TextNotBlank(p);
    StripOfTrimmed(Text(p));
    assert Writes(Text(p), p);
    ParseMeaning(Text(p));
    PrintedSeconds(d);
  }

  /** The length with the given number of seconds whose components are as small as they can be. */
  function Normal(n: nat): Length {
    var inDay := n % SECONDS_PER_DAY;
    var inHour := inDay % 3600;
    Length(0, n / SECONDS_PER_DAY, inDay / 3600, inHour / 60, inHour % 60)
  }

  lemma NormalTotal(n: nat)
    ensures Total(Normal(n)) == n
  {
  }

  /** Every duration in range has a text the parser reads as that duration. */
  lemma EveryDurationParses(n: nat)
    requires n < FIRST_OVERFLOW
    ensures Parse(Some(Text(Printed(Normal(n))))) == Ok(Some(n))
  {
    ParsePrint(Normal(n));
    NormalTotal(n);
  }

  // ---------------------------------------------------------------- the units

  /** `PTnS` is n seconds, up to `timedelta`'s bound of 999999999 days and the rest of a day. */
  lemma SecondsAlone(n: nat)
    ensures Parse(Some("PT" + NatText(n) + "S")) == if n < 86_400_000_000_000 then Ok(Some(n)) else Err(OverflowError)
  {
    hide Parse, Strip, NatText, NatValue;
    var p := Parts(None, None, Some(TimeParts(None, None, Some(NatText(n)))));
    assert Text(p) == "PT" + NatText(n) + "S";
    TrimmedParse(p);
    NatRoundTrip(n);
  }

  lemma TrimmedParse(p: Parts)
    requires WellFormed(p) && p != Parts(None, None, None)
    ensures Parse(Some(Text(p))) == Timedelta(Seconds(p))
  {
    TextNotBlank(p);
    StripOfTrimmed(Text(p));
    assert Writes(Text(p), p);
    ParseMeaning(Text(p));
  }

  /** Each larger unit in terms of the next smaller one. */
  lemma UnitLaws(n: nat)
    ensures Parse(Some("P" + NatText(n) + "W")) == Parse(Some("P" + NatText(7 * n) + "D"))
    ensures Parse(Some("P" + NatText(n) + "D")) == Parse(Some("PT" + NatText(24 * n) + "H"))
    ensures Parse(Some("PT" + NatText(n) + "H")) == Parse(Some("PT" + NatText(60 * n) + "M"))
    ensures Parse(Some("PT" + NatText(n) + "M")) == Parse(Some("PT" + NatText(60 * n) + "S"))
  {
    hide Parse, Strip, NatText, NatValue;
    WeeksAlone(n);
    DaysAlone(7 * n);
    DaysAlone(n);
    HoursAlone(24 * n);
    HoursAlone(n);
    MinutesAlone(60 * n);
    MinutesAlone(n);
    SecondsAlone(60 * n);
  }

  lemma WeeksAlone(n: nat)
    ensures Parse(Some("P" + NatText(n) + "W")) == Timedelta(604_800 * n)
  {
    hide Parse, Strip, NatText, NatValue;
    var p := Parts(Some(NatText(n)), None, None);
    assert Text(p) == "P" + NatText(n) + "W";
    TrimmedParse(p);
    NatRoundTrip(n);
  }

  lemma DaysAlone(n: nat)
    ensures Parse(Some("P" + NatText(n) + "D")) == Timedelta(86_400 * n)
  {
    hide Parse, Strip, NatText, NatValue;
    var p := Parts(None, Some(NatText(n)), None);
    assert Text(p) == "P" + NatText(n) + "D";
    TrimmedParse(p);
    NatRoundTrip(n);
  }

  lemma HoursAlone(n: nat)
    ensures Parse(Some("PT" + NatText(n) + "H")) == Timedelta(3600 * n)
  {
    hide Parse, Strip, NatText, NatValue;
    var p := Parts(None, None, Some(TimeParts(Some(NatText(n)), None, None)));
    assert Text(p) == "PT" + NatText(n) + "H";
    TrimmedParse(p);
    NatRoundTrip(n);
  }

  lemma MinutesAlone(n: nat)
    ensures Parse(Some("PT" + NatText(n) + "M")) == Timedelta(60 * n)
  {
    hide Parse, Strip, NatText, NatValue;
    var p := Parts(None, None, Some(TimeParts(None, Some(NatText(n)), None)));
    assert Text(p) == "PT" + NatText(n) + "M";
    TrimmedParse(p);
    NatRoundTrip(n);
  }

  /** A text with several components means the same as their sum written in seconds alone. */
  lemma SameAsSeconds(v: string, p: Parts)
    requires Writes(v, p)
    ensures var t := if p.time.Some? then p.time.value else TimeParts(None, None, None);
            var n := 604_800 * Amount(p.weeks) + 86_400 * Amount(p.days) + 3600 * Amount(t.hours) + 60 * Amount(t.minutes) + Amount(t.seconds);
            Parse(Some(v)) == Parse(Some("PT" + NatText(n) + "S"))
  {
    hide Parse, Strip, NatText, NatValue;
    ParseMeaning(v);
    SecondsAlone(Seconds(p));
  }

  /** Blanks around a text are ignored. */
  lemma BlanksIgnored(pre: string, v: string, post: string)
    requires AllSpace(pre) && AllSpace(post)
    ensures Parse(Some(pre + v + post)) == Parse(Some(v))
  {
    StripPadded(pre, v, post);
    StripOfTrimmed("");
  }

  // ---------------------------------------------------------------- beyond the standard

  predicate Written(c: Option<string>) {
    c.Some?
  }

  /** ISO 8601 asks for at least one component, and for one after every `T`. */
  predicate Standard(p: Parts) {
    match p.time
    case None => Written(p.weeks) || Written(p.days)
    case Some(t) => Written(t.hours) || Written(t.minutes) || Written(t.seconds)
  }

  /** The parser goes beyond the standard on exactly the texts that end in `T`, such as `PT`. */
  lemma BeyondStandardIff(v: string, p: Parts)
    requires Writes(v, p)
    ensures !Standard(p) <==> Strip(v)[|Strip(v)| - 1] == 'T'
  {
    var s2 := AfterDays(p.time);
    if p.time.Some? {
      var t := p.time.value;
      LastUnit(t.hours, 'H', Component(t.minutes, 'M', Component(t.seconds, 'S', "")));
      LastUnit(t.minutes, 'M', Component(t.seconds, 'S', ""));
      LastUnit(t.seconds, 'S', "");
    }
    LastUnit(p.weeks, 'W', Component(p.days, 'D', s2));
    LastUnit(p.days, 'D', s2);
  }

  lemma LastUnit(c: Option<string>, unit: char, rest: string)
    ensures var s := Component(c, unit, rest);
            && (s == "" <==> c.None? && rest == "")
            && (rest != "" ==> s != "" && s[|s| - 1] == rest[|rest| - 1])
            && (rest == "" && c.Some? ==> s != "" && s[|s| - 1] == unit)
  {
  }

  /** `PT` is zero while `P` is refused. */
  lemma DesignatorAlone()
    ensures Parse(Some("PT")) == Ok(Some(0)) && Parse(Some("P")) == Ok(None)
  {
    var p := Parts(None, None, Some(TimeParts(None, None, None)));
    StripOfTrimmed("PT");
    StripOfTrimmed("P");
    assert Writes("PT", p);
    ParseMeaning("PT");
  }
}
