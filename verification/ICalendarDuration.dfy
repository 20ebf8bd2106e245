/** Relative alarm triggers: whole minutes printed as durations and read back. */
module ICalendarDuration {
  import opened Basics

  function DigitChar(d: nat): char
    requires d < 10
  {
    "0123456789"[d]
  }

  predicate IsDigit(c: char) {
    '0' <= c <= '9'
  }

  function DigitValue(c: char): (d: nat)
    requires IsDigit(c)
    ensures d < 10
  {
    c as int - '0' as int
  }

  function Decimal(n: nat): (s: string)
    ensures |s| > 0 && forall k :: 0 <= k < |s| ==> IsDigit(s[k])
  {
    if n < 10 then [DigitChar(n)] else Decimal(n / 10) + [DigitChar(n % 10)]
  }

  function ValueOf(digits: string): nat
    requires forall k :: 0 <= k < |digits| ==> IsDigit(digits[k])
  {
    if digits == "" then 0 else ValueOf(digits[..|digits| - 1]) * 10 + DigitValue(digits[|digits| - 1])
  }

  function DigitRun(s: string): (n: nat)
    ensures n <= |s| && (forall k :: 0 <= k < n ==> IsDigit(s[k])) && (n < |s| ==> !IsDigit(s[n]))
  {
    if s == "" || !IsDigit(s[0]) then 0 else DigitRun(s[1..]) + 1
  }

  /** An optional number with its unit, and what follows it. */
  function Take(s: string, unit: char): (nat, string) {
    var n := DigitRun(s);
    if 0 < n < |s| && s[n] == unit then (ValueOf(s[..n]), s[n + 1..]) else (0, s)
  }

  datatype DurationError = UnsupportedDuration | NotWholeMinutes

  /** The seconds after the T, when nothing is left over. */
  function ClockSeconds(s: string): Option<nat> {
    var hours := Take(s, 'H');
    var minutes := Take(hours.1, 'M');
    var seconds := Take(minutes.1, 'S');
    if seconds.1 != "" then None else Some((hours.0 * 60 + minutes.0) * 60 + seconds.0)
  }

  /** The seconds after the P, when nothing is left over. */
  function SpanSeconds(s: string): Option<nat> {
    var weeks := Take(s, 'W');
    var days := Take(weeks.1, 'D');
    var whole := (weeks.0 * 7 + days.0) * 86400;
    if days.1 == "" then Some(whole)
    else if days.1[0] != 'T' then None
    else
      var clock := ClockSeconds(days.1[1..]);
      if clock.None? then None else Some(whole + clock.value)
  }

  function Minutes(seconds: Option<nat>): Result<int, DurationError> {
    if seconds.None? then Err(UnsupportedDuration)
    else if seconds.value == 0 || seconds.value % 60 != 0 then Err(NotWholeMinutes)
    else Ok(seconds.value / 60)
  }

  function ParsePositive(s: string): Result<int, DurationError> {
    if s == "" || s[0] != 'P' then Err(UnsupportedDuration) else Minutes(SpanSeconds(s[1..]))
  }

  function ParseRelativeMinutes(s: string): Result<int, DurationError> {
    if s != "" && s[0] == '-' then
      var minutes := ParsePositive(s[1..]);
      if minutes.Ok? then Ok(-minutes.value) else Err(minutes.error)
    else
      var minutes := ParsePositive(s);
      if minutes.Ok? then Ok(minutes.value) else Err(minutes.error)
  }

  function Counted(n: nat, unit: char): string {
    if n == 0 then "" else Decimal(n) + [unit]
  }

  function PrintClock(hours: nat, remaining: nat): string {
    if hours > 0 || remaining > 0 then "T" + (Counted(hours, 'H') + Counted(remaining, 'M')) else ""
  }

  function PrintSpan(days: nat, hours: nat, remaining: nat): string {
    Counted(days, 'D') + PrintClock(hours, remaining)
  }

  function PrintPositive(absolute: nat): string {
    "P" + PrintSpan(absolute / 1440, absolute % 1440 / 60, absolute % 60)
  }

  function DurationFromMinutes(minutes: int): string {
    if minutes < 0 then "-" + PrintPositive(-minutes) else PrintPositive(minutes)
  }

  lemma {:induction false} DecimalReadsBack(n: nat)
    ensures ValueOf(Decimal(n)) == n
  {
    if n >= 10 {
      DecimalReadsBack(n / 10);
      assert Decimal(n)[..|Decimal(n)| - 1] == Decimal(n / 10);
    }
  }

  lemma {:induction false} RunOf(digits: string, rest: string)
    requires forall k :: 0 <= k < |digits| ==> IsDigit(digits[k])
    requires rest == "" || !IsDigit(rest[0])
    ensures DigitRun(digits + rest) == |digits|
  {
    if digits == "" {
      assert digits + rest == rest;
    } else {
      RunOf(digits[1..], rest);
      assert (digits + rest)[1..] == digits[1..] + rest;
    }
  }

  /** A counted unit is taken whole, and a missing or different unit leaves the text alone. */
  lemma TakeCounted(n: nat, unit: char, rest: string)
    requires !IsDigit(unit) && (rest == "" || !IsDigit(rest[0]) || n > 0)
    ensures n > 0 ==> Take(Counted(n, unit) + rest, unit) == (n, rest)
    ensures n > 0 ==> forall other :: other != unit ==> Take(Counted(n, unit) + rest, other) == (0, Counted(n, unit) + rest)
    ensures n == 0 ==> Counted(n, unit) + rest == rest
  {
    if n > 0 {
      DecimalReadsBack(n);
      RunOf(Decimal(n), [unit] + rest);
      assert Counted(n, unit) + rest == Decimal(n) + ([unit] + rest);
      var s := Counted(n, unit) + rest;
      assert s[..|Decimal(n)|] == Decimal(n) && s[|Decimal(n)| + 1..] == rest;
    }
  }

  lemma TakeNothing(s: string, unit: char)
    requires s == "" || !IsDigit(s[0])
    ensures Take(s, unit) == (0, s)
  {
  }

  lemma ClockReadsBack(hours: nat, remaining: nat)
    ensures var h := Take(Counted(hours, 'H') + Counted(remaining, 'M'), 'H');
            var m := Take(h.1, 'M');
            h.0 == hours && m == (remaining, "")
  {
    var minutes := Counted(remaining, 'M');
    TakeCounted(remaining, 'M', "");
    assert minutes + "" == minutes;
    if hours > 0 {
      TakeCounted(hours, 'H', minutes);
    } else {
      assert Counted(hours, 'H') + minutes == minutes;
    }
  }

  lemma ClockOfParts(s: string, hours: nat, rest: string, remaining: nat)
    requires Take(s, 'H') == (hours, rest) && Take(rest, 'M') == (remaining, "")
    ensures ClockSeconds(s) == Some((hours * 60 + remaining) * 60)
  {
    TakeNothing("", 'S');
  }

  lemma ClockSecondsReadBack(hours: nat, remaining: nat)
    ensures ClockSeconds(Counted(hours, 'H') + Counted(remaining, 'M')) == Some((hours * 60 + remaining) * 60)
  {
    var s := Counted(hours, 'H') + Counted(remaining, 'M');
    ClockReadsBack(hours, remaining);
    ClockOfParts(s, hours, Take(s, 'H').1, remaining);
  }

  lemma TakeDays(days: nat, clock: string)
    requires clock == "" || !IsDigit(clock[0])
    ensures Take(Counted(days, 'D') + clock, 'W') == (0, Counted(days, 'D') + clock)
    ensures Take(Counted(days, 'D') + clock, 'D') == (days, clock)
  {
    TakeCounted(days, 'D', clock);
    if days == 0 {
      TakeNothing(clock, 'W');
      TakeNothing(clock, 'D');
    }
  }

  lemma SpanOfParts(s: string, days: nat, clock: string, seconds: nat)
    requires Take(s, 'W') == (0, s) && Take(s, 'D') == (days, clock)
    requires if clock == "" then seconds == 0 else clock[0] == 'T' && ClockSeconds(clock[1..]) == Some(seconds)
    ensures SpanSeconds(s) == Some(days * 86400 + seconds)
  {
  }

  function ClockValue(hours: nat, remaining: nat): nat {
    (hours * 60 + remaining) * 60
  }

  lemma ClockIsRead(hours: nat, remaining: nat)
    ensures var (clock, seconds) := (PrintClock(hours, remaining), ClockValue(hours, remaining));
            if clock == "" then seconds == 0 else clock[0] == 'T' && ClockSeconds(clock[1..]) == Some(seconds)
  {
    var clock := PrintClock(hours, remaining);
    if clock != "" {
      assert clock[1..] == Counted(hours, 'H') + Counted(remaining, 'M');
      ClockSecondsReadBack(hours, remaining);
    }
  }

  lemma ClockStarts(hours: nat, remaining: nat)
    ensures PrintClock(hours, remaining) == "" || !IsDigit(PrintClock(hours, remaining)[0])
  {
  }

  lemma SpanWithClock(days: nat, clock: string, seconds: nat)
    requires clock == "" || !IsDigit(clock[0])
    requires if clock == "" then seconds == 0 else clock[0] == 'T' && ClockSeconds(clock[1..]) == Some(seconds)
    ensures SpanSeconds(Counted(days, 'D') + clock) == Some(days * 86400 + seconds)
  {
    TakeDays(days, clock);
    SpanOfParts(Counted(days, 'D') + clock, days, clock, seconds);
  }

  lemma SpanReadsBack(days: nat, hours: nat, remaining: nat)
    ensures SpanSeconds(PrintSpan(days, hours, remaining)) == Some(days * 86400 + ClockValue(hours, remaining))
  {
    ClockStarts(hours, remaining);
    ClockIsRead(hours, remaining);
    SpanWithClock(days, PrintClock(hours, remaining), ClockValue(hours, remaining));
  }

  lemma Recombine(absolute: nat)
    ensures absolute / 1440 * 86400 + ClockValue(absolute % 1440 / 60, absolute % 60) == absolute * 60
  {
    var days, rest := absolute / 1440, absolute % 1440;
    assert absolute == days * 1440 + rest;
    assert rest == rest / 60 * 60 + rest % 60;
    SixtyAndRest(absolute, days * 24 + rest / 60, rest % 60);
  }

  lemma SixtyAndRest(whole: nat, k: nat, r: nat)
    requires whole == 60 * k + r && r < 60
    ensures whole % 60 == r
  {
  }

  lemma MinutesOfSeconds(absolute: nat)
    ensures Minutes(Some(absolute * 60)) == if absolute == 0 then Err(NotWholeMinutes) else Ok(absolute)
  {
  }

  lemma PositiveReadsBack(absolute: nat)
    ensures ParsePositive(PrintPositive(absolute)) == if absolute == 0 then Err(NotWholeMinutes) else Ok(absolute)
  {
    var days, hours, remaining := absolute / 1440, absolute % 1440 / 60, absolute % 60;
    assert PrintPositive(absolute)[1..] == PrintSpan(days, hours, remaining);
    SpanReadsBack(days, hours, remaining);
    Recombine(absolute);
    MinutesOfSeconds(absolute);
  }

  lemma SignedReadsBack(minutes: int, p: string)
    requires p != "" && p[0] == 'P'
    requires ParsePositive(p) == if minutes == 0 then Err(NotWholeMinutes) else Ok(if minutes < 0 then -minutes else minutes)
    ensures ParseRelativeMinutes(if minutes < 0 then "-" + p else p) == if minutes == 0 then Err(NotWholeMinutes) else Ok(minutes)
  {
    assert ("-" + p)[1..] == p;
  }

  lemma PositiveStarts(absolute: nat)
    ensures PrintPositive(absolute) != "" && PrintPositive(absolute)[0] == 'P'
  {
  }

  /** Printing then reading gives the minutes back, exactly when there are any. */
  lemma DurationRoundTripIff(minutes: int)
    ensures ParseRelativeMinutes(DurationFromMinutes(minutes)) == Ok(minutes) <==> minutes != 0
    ensures minutes == 0 ==> ParseRelativeMinutes(DurationFromMinutes(minutes)) == Err(NotWholeMinutes)
  {
    var absolute: nat := if minutes < 0 then -minutes else minutes;
    PositiveStarts(absolute);
    PositiveReadsBack(absolute);
    SignedReadsBack(minutes, PrintPositive(absolute));
  }

  /** Whatever duration is accepted, printing its minutes gives a text with the same meaning. */
  lemma AcceptedDurationsReprint(s: string)
    requires ParseRelativeMinutes(s).Ok?
    ensures ParseRelativeMinutes(DurationFromMinutes(ParseRelativeMinutes(s).value)) == ParseRelativeMinutes(s)
  {
    DurationRoundTripIff(ParseRelativeMinutes(s).value);
  }
}
