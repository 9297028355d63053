/** Timeouts written as text: crates/contracts/src/mcp.rs. */
module McpDurations {
  import opened Base
  import opened Text
  import opened AclText

  /** u64::from_str: digits, optionally behind a plus sign, within 64 bits. */
  function ParseU64(s: string): (r: Option<U64>) {
    var digits := if s != "" && s[0] == '+' then s[1..] else s;
    if IsDigits(digits) && DigitsValue(digits) <= U64_MAX then Some(DigitsValue(digits)) else None
  }

  datatype TimeUnit = Millis | Seconds | Minutes | Bare

  function Suffix(u: TimeUnit): (s: string) {
    match u
    case Millis => "ms"
    case Seconds => "s"
    case Minutes => "m"
    case Bare => ""
  }

  function InMillis(n: nat, u: TimeUnit): (ms: nat)
    ensures n <= ms
  {
    match u
    case Millis => n
    case Seconds => 1000 * n
    case Minutes => 60000 * n
    case Bare => 1000 * n
  }

  predicate EndsWith(s: string, t: string) {
    |t| <= |s| && s[|s| - |t|..] == t
  }

  /** The strip_suffix chain. */
  function UnitOf(s: string): (u: TimeUnit)
    ensures EndsWith(s, Suffix(u))
  {
    if EndsWith(s, "ms") then Millis
    else if EndsWith(s, "s") then Seconds
    else if EndsWith(s, "m") then Minutes
    else Bare
  }

  predicate IsWhitespace(c: char) {
    c == ' ' || '\t' <= c <= '\r'
  }

  /** validate_duration, in milliseconds. */
  function ParseDuration(s: string, maximum: nat): (r: Option<nat>) {
    if s == "" || exists i :: 0 <= i < |s| && IsWhitespace(s[i]) then None
    else
      var u := UnitOf(s);
      var value := ParseU64(s[..|s| - |Suffix(u)|]);
      if value.None? || value.value == 0 then None
      else if u.Minutes? && 60 * value.value > U64_MAX then None
      else if InMillis(value.value, u) > maximum then None
      else Some(InMillis(value.value, u))
  }

  /** A number written with or without its plus sign. */
  predicate Writes(text: string, n: nat) {
    || (IsDigits(text) && DigitsValue(text) == n)
    || (text != "" && text[0] == '+' && IsDigits(text[1..]) && DigitsValue(text[1..]) == n)
  }

  lemma NumbersHoldNoUnit(text: string, n: nat)
    requires Writes(text, n)
    ensures text != ""
    ensures forall i :: 0 <= i < |text| ==> text[i] != 's' && text[i] != 'm' && !IsWhitespace(text[i])
  {
    if text[0] == '+' {
      assert forall i :: 0 < i < |text| ==> text[i] == text[1..][i - 1];
    }
  }

  lemma UnitOfSuffixed(text: string, u: TimeUnit)
    requires text != "" && text[|text| - 1] != 's' && text[|text| - 1] != 'm'
    ensures UnitOf(text + Suffix(u)) == u
  {
    var s := text + Suffix(u);
    assert s[|text| - 1] == text[|text| - 1];
    assert s[|text|..] == Suffix(u);
  }

  /** The suffix chain reads every written duration with the unit it was written with. */
  lemma UnitIsUnambiguous(text: string, n: nat, u: TimeUnit)
    requires Writes(text, n)
    ensures UnitOf(text + Suffix(u)) == u
    ensures (text + Suffix(u))[..|text|] == text
  {
    NumbersHoldNoUnit(text, n);
    UnitOfSuffixed(text, u);
  }

  /** Durations, exactly: a text is accepted as `ms` milliseconds under a bound that fits 64 bits if
      and only if it is a positive number of one unit, and that many units are `ms` and within the
      bound. Neither overflow check ever decides the outcome. */
  lemma DurationAcceptedIff(s: string, maximum: nat, ms: nat)
    requires maximum <= U64_MAX
    ensures ParseDuration(s, maximum) == Some(ms) <==>
            exists text, n: nat, u :: Written(s, ms, maximum, text, n, u)
  {
    if ParseDuration(s, maximum) == Some(ms) {
      var u := UnitOf(s);
      var text := s[..|s| - |Suffix(u)|];
      assert s == text + Suffix(u);
      assert Written(s, ms, maximum, text, ParseU64(text).value, u);
    }
    if exists text, n: nat, u :: Written(s, ms, maximum, text, n, u) {
      var text, n: nat, u :| Written(s, ms, maximum, text, n, u);
      WrittenIsAccepted(s, ms, maximum, text, n, u);
    }
  }

  predicate Written(s: string, ms: nat, maximum: nat, text: string, n: nat, u: TimeUnit) {
    && s == text + Suffix(u)
    && Writes(text, n)
    && 0 < n
    && ms == InMillis(n, u)
    && ms <= maximum
  }

  lemma WrittenIsAccepted(s: string, ms: nat, maximum: nat, text: string, n: nat, u: TimeUnit)
    requires maximum <= U64_MAX && Written(s, ms, maximum, text, n, u)
    ensures ParseDuration(s, maximum) == Some(ms)
  {
    NumbersHoldNoUnit(text, n);
    UnitIsUnambiguous(text, n, u);
    NoWhitespace(s, text, u);
    assert s[..|s| - |Suffix(u)|] == text;
    assert n <= U64_MAX;
  }

  lemma NoWhitespace(s: string, text: string, u: TimeUnit)
    requires s == text + Suffix(u)
    requires forall i :: 0 <= i < |text| ==> !IsWhitespace(text[i])
    ensures forall i :: 0 <= i < |s| ==> !IsWhitespace(s[i])
  {
    assert forall i :: 0 <= i < |Suffix(u)| ==> !IsWhitespace(Suffix(u)[i]);
  }

  /** What a written number of a unit reads as, under a bound. */
  lemma WrittenReads(text: string, n: nat, u: TimeUnit, maximum: nat)
    requires maximum <= U64_MAX && Writes(text, n) && 0 < n
    ensures ParseDuration(text + Suffix(u), maximum) ==
            if InMillis(n, u) <= maximum then Some(InMillis(n, u)) else None
  {
    var s := text + Suffix(u);
    if InMillis(n, u) <= maximum {
      WrittenIsAccepted(s, InMillis(n, u), maximum, text, n, u);
    } else {
      NumbersHoldNoUnit(text, n);
      UnitIsUnambiguous(text, n, u);
      assert s[..|s| - |Suffix(u)|] == text;
    }
  }

  /** A time written in plain decimal digits. */
  function TimeText(n: nat, u: TimeUnit): (s: string) {
    Decimal(n) + Suffix(u)
  }

  lemma TimeReads(n: nat, u: TimeUnit, maximum: nat)
    requires maximum <= U64_MAX && 0 < n
    ensures ParseDuration(TimeText(n, u), maximum) == if InMillis(n, u) <= maximum then Some(InMillis(n, u)) else None
  {
    DecimalReadsBack(n);
    WrittenReads(Decimal(n), n, u, maximum);
  }

  lemma SameTimeSameReading(n: nat, u: TimeUnit, m: nat, v: TimeUnit, maximum: nat)
    requires maximum <= U64_MAX && 0 < n && 0 < m && InMillis(n, u) == InMillis(m, v)
    ensures ParseDuration(TimeText(n, u), maximum) == ParseDuration(TimeText(m, v), maximum)
  {
    TimeReads(n, u, maximum);
    TimeReads(m, v, maximum);
  }

  /** The units by their ratios, whatever the bound: n milliseconds read as n, */
  lemma MillisReadAsWritten(n: nat, maximum: nat)
    requires maximum <= U64_MAX && 0 < n
    ensures ParseDuration(TimeText(n, Millis), maximum) == if n <= maximum then Some(n) else None
  {
    TimeReads(n, Millis, maximum);
  }

  /** a second is a thousand of them, a minute is sixty seconds, and a bare number counts seconds. */
  lemma UnitsAreInProportion(minutes: nat, seconds: nat, millis: nat, maximum: nat)
    requires maximum <= U64_MAX && 0 < seconds && millis == 1000 * seconds
    ensures ParseDuration(TimeText(seconds, Seconds), maximum) == ParseDuration(TimeText(millis, Millis), maximum)
    ensures ParseDuration(TimeText(seconds, Bare), maximum) == ParseDuration(TimeText(millis, Millis), maximum)
    ensures seconds == 60 * minutes ==>
              ParseDuration(TimeText(minutes, Minutes), maximum) == ParseDuration(TimeText(millis, Millis), maximum)
  {
    SameTimeSameReading(seconds, Seconds, millis, Millis, maximum);
    SameTimeSameReading(seconds, Bare, millis, Millis, maximum);
    if seconds == 60 * minutes {
      SameTimeSameReading(minutes, Minutes, millis, Millis, maximum);
    }
  }

  /** And how they are written. */
  lemma UnitsAreWritten(n: nat)
    ensures TimeText(n, Millis) == Decimal(n) + "ms"
    ensures TimeText(n, Seconds) == Decimal(n) + "s"
    ensures TimeText(n, Minutes) == Decimal(n) + "m"
    ensures TimeText(n, Bare) == Decimal(n)
  {
    assert Decimal(n) + "" == Decimal(n);
  }
}
