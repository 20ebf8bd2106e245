/** One content line: its name, its parameters and its value. */
module ICalendarProperty {
  import opened Basics
  import opened ICalendarLines
  import opened ICalendarText
  import opened Lists

  datatype Property = Property(name: string, params: map<string, seq<string>>, value: string)

  /** Upper case of the ASCII letters. */
  function UpperChar(c: char): char {
    if 'a' <= c <= 'z' then "ABCDEFGHIJKLMNOPQRSTUVWXYZ"[c as int - 'a' as int] else c
  }

  function Upper(s: string): (r: string)
    ensures |r| == |s| && forall k :: 0 <= k < |s| ==> r[k] == UpperChar(s[k])
  {
    if s == "" then "" else [UpperChar(s[0])] + Upper(s[1..])
  }

  predicate Letter(c: char) {
    'A' <= c <= 'Z'
  }

  predicate IsName(s: string) {
    s != "" && Letter(s[0]) && forall k :: 0 <= k < |s| ==> Letter(s[k]) || '0' <= s[k] <= '9' || s[k] == '-'
  }

  /** Index of the first colon that is not between double quotes. */
  function Separator(line: string, quoted: bool): (r: Option<nat>)
    ensures r.Some? ==> r.value < |line|
  {
    if line == "" then None
    else
      var inside := if line[0] == '"' then !quoted else quoted;
      if line[0] == ':' && !inside then Some(0)
      else
        var rest := Separator(line[1..], inside);
        if rest.None? then None else Some(rest.value + 1)
  }

  function IndexOf(s: string, c: char): (r: Option<nat>)
    ensures r.Some? ==> r.value < |s|
  {
    if s == "" then None
    else if s[0] == c then Some(0)
    else
      var rest := IndexOf(s[1..], c);
      if rest.None? then None else Some(rest.value + 1)
  }

  /** Without a leading and without a trailing double quote. */
  function Unquoted(s: string): string {
    var front := if s != "" && s[0] == '"' then s[1..] else s;
    if front != "" && front[|front| - 1] == '"' then front[..|front| - 1] else front
  }

  function ParseParameter(segment: string): Result<(string, seq<string>), ICalendarError> {
    var equals := IndexOf(segment, '=');
    if equals.None? || equals.value < 1 then Err(MalformedProperty)
    else
      var key := Upper(segment[..equals.value]);
      var values := Map(Unquoted, Cut(segment[equals.value + 1..], ',', PLAIN));
      if !IsName(key) || "" in values then Err(MalformedProperty) else Ok((key, values))
  }

  function With(params: map<string, seq<string>>, key: string, values: seq<string>): map<string, seq<string>> {
    params[key := (if key in params then params[key] else []) + values]
  }

  function ParseParameters(segments: seq<string>, params: map<string, seq<string>>): Result<map<string, seq<string>>, ICalendarError> {
    if segments == [] then Ok(params)
    else
      var parameter := ParseParameter(segments[0]);
      if parameter.Err? then Err(parameter.error)
      else ParseParameters(segments[1..], With(params, parameter.value.0, parameter.value.1))
  }

  function ParseLine(line: string): Result<Property, ICalendarError> {
    var separator := Separator(line, false);
    if separator.None? || separator.value < 1 then Err(MalformedProperty)
    else
      var segments := Cut(line[..separator.value], ';', PLAIN);
      var name := Upper(segments[0]);
      if !IsName(name) then Err(MalformedProperty)
      else
        var params := ParseParameters(segments[1..], map[]);
        if params.Err? then Err(params.error)
        else Ok(Property(name, params.value, line[separator.value + 1..]))
  }

  method ParseProperty(line: string) returns (r: Result<Property, ICalendarError>)
    ensures r == ParseLine(line)
  {
    var quoted, index := false, 0;
    assert line[0..] == line;
    while index < |line| && !(line[index] == ':' && !quoted)
      invariant 0 <= index <= |line|
      invariant Separator(line, false) == if Separator(line[index..], quoted).None? then None
                                          else Some(index + Separator(line[index..], quoted).value)
    {
      assert line[index..][1..] == line[index + 1..];
      if line[index] == '"' {
        quoted := !quoted;
      }
      index := index + 1;
    }
    if index == |line| || index < 1 {
      return Err(MalformedProperty);
    }
    var segments := SplitUnescaped(line[..index], ';');
    var name := Upper(segments[0]);
    if !IsName(name) {
      return Err(MalformedProperty);
    }
    var params: map<string, seq<string>> := map[];
    var k := 1;
    while k < |segments|
      invariant 1 <= k <= |segments|
      invariant ParseParameters(segments[1..], map[]) == ParseParameters(segments[k..], params)
    {
      var segment := segments[k];
      assert segments[k..][1..] == segments[k + 1..];
      var equals := IndexOf(segment, '=');
      if equals.None? || equals.value < 1 {
        return Err(MalformedProperty);
      }
      var key := Upper(segment[..equals.value]);
      var parts := SplitUnescaped(segment[equals.value + 1..], ',');
      var values := Map(Unquoted, parts);
      if !IsName(key) || "" in values {
        return Err(MalformedProperty);
      }
      params := With(params, key, values);
      k := k + 1;
    }
    return Ok(Property(name, params, line[index + 1..]));
  }

  // Printing

  datatype Value = Value(text: string, quoted: bool)
  datatype Parameter = Parameter(key: string, values: seq<Value>)
  datatype Entry = Entry(name: string, parameters: seq<Parameter>, value: string)

  function PrintValue(v: Value): string {
    if v.quoted then "\"" + v.text + "\"" else v.text
  }

  function PrintParameter(p: Parameter): string {
    p.key + "=" + Join(Map(PrintValue, p.values), ',')
  }

  function Head(e: Entry): string {
    Join([e.name] + Map(PrintParameter, e.parameters), ';')
  }

  function PrintEntry(e: Entry): string {
    Head(e) + ":" + e.value
  }

  /** Quoted text is free of double quotes and line breaks; other text also of delimiters and backslashes. */
  predicate SafeChar(c: char, quoted: bool) {
    && c != '"' && c != '\r' && c != '\n'
    && (quoted || (c != ';' && c != ':' && c != ',' && c != '\\'))
  }

  ghost predicate SafeValue(v: Value) {
    v.text != "" && forall k :: 0 <= k < |v.text| ==> SafeChar(v.text[k], v.quoted)
  }

  ghost predicate SafeParameter(p: Parameter) {
    IsName(p.key) && |p.values| > 0 && forall k :: 0 <= k < |p.values| ==> SafeValue(p.values[k])
  }

  ghost predicate SafeEntry(e: Entry) {
    IsName(e.name) && NoBreak(e.value) && forall k :: 0 <= k < |e.parameters| ==> SafeParameter(e.parameters[k])
  }

  function FinalBackslashes(s: string): nat {
    if s == "" || s[|s| - 1] != '\\' then 0 else 1 + FinalBackslashes(s[..|s| - 1])
  }

  /** The quoted text ends in a backslash that makes the reader take the closing quote for text. */
  predicate Dangles(v: Value) {
    v.quoted && FinalBackslashes(v.text) % 2 == 1
  }

  /** No value dangles before another one; `last` says that nothing follows these values. */
  predicate SettledValues(values: seq<Value>, last: bool) {
    values == [] || (|values| == 1 && last) || (!Dangles(values[0]) && SettledValues(values[1..], last))
  }

  predicate Settled(parameters: seq<Parameter>) {
    parameters == [] || (SettledValues(parameters[0].values, |parameters| == 1) && Settled(parameters[1..]))
  }

  function TextOf(v: Value): string {
    v.text
  }

  /** The parameters as the reader keeps them: one list of values for each key. */
  function Gathered(parameters: seq<Parameter>, params: map<string, seq<string>>): map<string, seq<string>> {
    if parameters == [] then params
    else Gathered(parameters[1..], With(params, parameters[0].key, Map(TextOf, parameters[0].values)))
  }

  function PropertyOf(e: Entry): Property {
    Property(e.name, Gathered(e.parameters, map[]), e.value)
  }

  // Finding the colon

  /** Reading s meets no colon outside of double quotes; the result says whether a quotation is open then. */
  function Over(s: string, quoted: bool): Option<bool> {
    if s == "" then Some(quoted)
    else
      var inside := if s[0] == '"' then !quoted else quoted;
      if s[0] == ':' && !inside then None else Over(s[1..], inside)
  }

  lemma {:induction false} OverConcat(a: string, b: string, quoted: bool)
    ensures Over(a + b, quoted) == if Over(a, quoted).None? then None else Over(b, Over(a, quoted).value)
  {
    if a == "" {
      assert a + b == b;
    } else {
      assert (a + b)[1..] == a[1..] + b;
      OverConcat(a[1..], b, if a[0] == '"' then !quoted else quoted);
    }
  }

  lemma {:induction false} OverTame(s: string, quoted: bool)
    requires forall k :: 0 <= k < |s| ==> s[k] != '"' && (quoted || s[k] != ':')
    ensures Over(s, quoted) == Some(quoted)
  {
    if s != "" { OverTame(s[1..], quoted); }
  }

  lemma {:induction false} SeparatorBehind(head: string, value: string, quoted: bool)
    requires Over(head, quoted) == Some(false)
    ensures Separator(head + ":" + value, quoted) == Some(|head|)
  {
    var line := head + ":" + value;
    if head != "" {
      SeparatorBehind(head[1..], value, if head[0] == '"' then !quoted else quoted);
      assert line[1..] == head[1..] + ":" + value;
    }
  }

  ghost predicate Passed(s: string) {
    Over(s, false) == Some(false) && NoBreak(s)
  }

  lemma {:induction false} JoinIsPassed(parts: seq<string>, glue: char)
    requires (glue == ',' || glue == ';') && forall k :: 0 <= k < |parts| ==> Passed(parts[k])
    ensures Passed(Join(parts, glue))
  {
    if |parts| > 1 {
      JoinIsPassed(parts[1..], glue);
      OverConcat(parts[0], [glue], false);
      OverConcat(parts[0] + [glue], Join(parts[1..], glue), false);
    }
  }

  lemma ValueIsPassed(v: Value)
    requires SafeValue(v)
    ensures Passed(PrintValue(v))
  {
    OverTame(v.text, v.quoted);
    if v.quoted {
      OverConcat("\"", v.text, false);
      OverConcat("\"" + v.text, "\"", false);
    }
  }

  lemma NameIsTame(s: string)
    requires IsName(s)
    ensures Upper(s) == s && Passed(s) && forall k :: 0 <= k < |s| ==> SafeChar(s[k], false) && s[k] != '='
  {
    OverTame(s, false);
    assert forall k :: 0 <= k < |s| ==> Upper(s)[k] == s[k];
  }

  lemma HeadIsPassed(e: Entry)
    requires SafeEntry(e)
    ensures Passed(Head(e)) && Head(e) != "" && Head(e)[0] == e.name[0]
  {
    var pieces := [e.name] + Map(PrintParameter, e.parameters);
    forall k | 0 <= k < |pieces| ensures Passed(pieces[k]) {
      if k == 0 {
        NameIsTame(e.name);
      } else {
        ParameterIsPassed(e.parameters[k - 1]);
      }
    }
    JoinIsPassed(pieces, ';');
  }

  lemma ParameterIsPassed(p: Parameter)
    requires SafeParameter(p)
    ensures Passed(PrintParameter(p))
  {
    var printed := Map(PrintValue, p.values);
    forall k | 0 <= k < |printed| ensures Passed(printed[k]) { ValueIsPassed(p.values[k]); }
    JoinIsPassed(printed, ',');
    NameIsTame(p.key);
    OverConcat(p.key, "=", false);
    OverConcat(p.key + "=", Join(printed, ','), false);
  }

  // Cutting the head

  lemma {:induction false} ScanOfConcat(a: string, b: string, delimiter: char, mode: Mode)
    ensures Scan(a + b, mode) == Scan(b, Scan(a, mode))
    ensures NoBare(a, delimiter, mode) && NoBare(b, delimiter, Scan(a, mode)) ==> NoBare(a + b, delimiter, mode)
  {
    if a == "" {
      assert a + b == b;
    } else {
      ScanOfConcat(a[1..], b, delimiter, Step(mode, a[0]));
      assert (a + b)[1..] == a[1..] + b;
    }
  }

  lemma {:induction false} TameScan(s: string, delimiter: char)
    requires forall k :: 0 <= k < |s| ==> SafeChar(s[k], false)
    requires delimiter == ',' || delimiter == ';'
    ensures Scan(s, PLAIN) == PLAIN && NoBare(s, delimiter, PLAIN)
  {
    if s != "" {
      TameScan(s[1..], delimiter);
    }
  }

  lemma {:induction false} QuotedHasNoBare(s: string, delimiter: char, escaped: bool)
    requires '"' !in s
    ensures NoBare(s, delimiter, Mode(escaped, true)) && Scan(s, Mode(escaped, true)).quoted
  {
    if s != "" {
      QuotedHasNoBare(s[1..], delimiter, Step(Mode(escaped, true), s[0]).escaped);
    }
  }

  lemma {:induction false} QuotedScan(s: string)
    requires '"' !in s
    ensures Scan(s, Mode(false, true)) == Mode(FinalBackslashes(s) % 2 == 1, true)
  {
    if s != "" {
      var front, last := s[..|s| - 1], s[|s| - 1];
      QuotedScan(front);
      assert s == front + [last] && last in s;
      ScanOfConcat(front, [last], ',', Mode(false, true));
      assert Scan([last], Scan(front, Mode(false, true))) == Step(Scan(front, Mode(false, true)), last);
    }
  }

  /** A printed value has no delimiter of its own, and leaves its quotation open exactly when it dangles. */
  lemma PrintedValueScan(v: Value, delimiter: char)
    requires SafeValue(v) && (delimiter == ',' || delimiter == ';')
    ensures NoBare(PrintValue(v), delimiter, PLAIN) && Scan(PrintValue(v), PLAIN) == Mode(false, Dangles(v))
    ensures Unquoted(PrintValue(v)) == v.text
  {
    var s := PrintValue(v);
    if v.quoted {
      QuotedHasNoBare(v.text, delimiter, false);
      QuotedScan(v.text);
      var after := Scan(v.text, Mode(false, true));
      ScanOfConcat(v.text, "\"", delimiter, Mode(false, true));
      assert Scan("\"", after) == Step(after, '"') && NoBare("\"", delimiter, after);
      assert s == "\"" + (v.text + "\"") && s[1..] == v.text + "\"";
      assert (v.text + "\"")[..|v.text|] == v.text;
    } else {
      TameScan(v.text, delimiter);
    }
  }

  ghost predicate AllSafe(values: seq<Value>) {
    |values| > 0 && forall k :: 0 <= k < |values| ==> SafeValue(values[k])
  }

  function Printed(values: seq<Value>): string {
    Join(Map(PrintValue, values), ',')
  }

  lemma PrintedMore(values: seq<Value>)
    requires |values| > 1
    ensures Printed(values) == PrintValue(values[0]) + "," + Printed(values[1..])
    ensures Map(PrintValue, values)[1..] == Map(PrintValue, values[1..])
  {
    assert Map(PrintValue, values)[1..] == Map(PrintValue, values[1..]);
  }

  lemma {:induction false} SettledValuesScan(values: seq<Value>, last: bool)
    requires AllSafe(values) && SettledValues(values, last)
    ensures Whole(Map(PrintValue, values), ',', PLAIN)
    ensures NoBare(Printed(values), ';', PLAIN) && (!last ==> Scan(Printed(values), PLAIN) == PLAIN)
  {
    PrintedValueScan(values[0], ',');
    PrintedValueScan(values[0], ';');
    if |values| > 1 {
      SettledValuesScan(values[1..], last);
      PrintedMore(values);
      ScanOfConcat(PrintValue(values[0]), ",", ';', PLAIN);
      ScanOfConcat(PrintValue(values[0]) + ",", Printed(values[1..]), ';', PLAIN);
    }
  }

  lemma {:induction false} IndexBehind(front: string, c: char, rest: string)
    requires c !in front
    ensures IndexOf(front + [c] + rest, c) == Some(|front|)
  {
    if front != "" {
      IndexBehind(front[1..], c, rest);
      assert (front + [c] + rest)[1..] == front[1..] + [c] + rest;
    }
  }

  /** Any list of values behind a key is read as that key's values. */
  lemma KeyReadsBack(key: string, rest: string)
    requires IsName(key)
    ensures var values := Map(Unquoted, Cut(rest, ',', PLAIN));
            ParseParameter(key + "=" + rest) == if "" in values then Err(MalformedProperty) else Ok((key, values))
    ensures NoBare(key + "=", ';', PLAIN) && Scan(key + "=", PLAIN) == PLAIN
  {
    var s := key + "=" + rest;
    NameIsTame(key);
    IndexBehind(key, '=', rest);
    assert s[..|key|] == key && s[|key| + 1..] == rest;
    TameScan(key + "=", ';');
  }

  lemma SettledParameterReadsBack(p: Parameter, last: bool)
    requires SafeParameter(p) && SettledValues(p.values, last)
    ensures ParseParameter(PrintParameter(p)) == Ok((p.key, Map(TextOf, p.values)))
    ensures NoBare(PrintParameter(p), ';', PLAIN) && (!last ==> Scan(PrintParameter(p), PLAIN) == PLAIN)
  {
    SettledValuesScan(p.values, last);
    JoinThenCut(Map(PrintValue, p.values), ',', PLAIN);
    KeyReadsBack(p.key, Printed(p.values));
    ScanOfConcat(p.key + "=", Printed(p.values), ';', PLAIN);
    forall k | 0 <= k < |p.values| ensures Unquoted(PrintValue(p.values[k])) == p.values[k].text {
      PrintedValueScan(p.values[k], ',');
    }
    assert Map(Unquoted, Map(PrintValue, p.values)) == Map(TextOf, p.values);
  }

  ghost predicate SafeParameters(parameters: seq<Parameter>) {
    forall k :: 0 <= k < |parameters| ==> SafeParameter(parameters[k])
  }

  lemma {:induction false} SettledParametersReadBack(parameters: seq<Parameter>, params: map<string, seq<string>>)
    requires SafeParameters(parameters) && Settled(parameters)
    ensures ParseParameters(Map(PrintParameter, parameters), params) == Ok(Gathered(parameters, params))
    ensures parameters != [] ==> Whole(Map(PrintParameter, parameters), ';', PLAIN)
  {
    if parameters != [] {
      SettledParameterReadsBack(parameters[0], |parameters| == 1);
      assert Map(PrintParameter, parameters)[1..] == Map(PrintParameter, parameters[1..]);
      SettledParametersReadBack(parameters[1..], With(params, parameters[0].key, Map(TextOf, parameters[0].values)));
    }
  }

  // A value that dangles swallows the delimiter behind it

  ghost predicate HasQuote(params: map<string, seq<string>>) {
    exists key, k :: key in params && 0 <= k < |params[key]| && '"' in params[key][k]
  }

  /** The segment is refused, or one of its values has a double quote inside. */
  ghost predicate Spoiled(segment: string) {
    var r := ParseParameter(segment);
    r.Err? || exists k :: 0 <= k < |r.value.1| && '"' in r.value.1[k]
  }

  /** The text of a dangling value, its closing quote and the delimiter behind it are in one piece. */
  lemma SwallowedDelimiter(v: Value, d: char, more: string, delimiter: char)
    requires SafeValue(v) && Dangles(v) && (delimiter == ',' || delimiter == ';') && d != '"' && d != '\\'
    ensures var piece := Cut(PrintValue(v) + ([d] + more), delimiter, PLAIN)[0];
            (exists z :: piece == PrintValue(v) + ([d] + z)) && '"' in Unquoted(piece)
  {
    var s, rest := PrintValue(v), [d] + more;
    PrintedValueScan(v, delimiter);
    CutBehind(s, rest, delimiter, PLAIN);
    assert rest[1..] == more;
    var z := Cut(more, delimiter, Mode(false, true))[0];
    var piece := Cut(s + rest, delimiter, PLAIN)[0];
    assert Cut(rest, delimiter, Mode(false, true))[0] == [d] + z;
    assert piece == s + ([d] + z);
    assert s == "\"" + v.text + "\"" && piece[1..][|v.text|] == '"';
    var front := piece[1..];
    assert |front| > |v.text| + 1 && Unquoted(piece)[|v.text|] == front[|v.text|];
  }

  /** What stands behind the last of some values: nothing, or the next parameter. */
  predicate Behind(tail: string, last: bool) {
    if last then tail == "" else tail != "" && tail[0] == ';'
  }

  lemma SegmentAcrossValue(v: Value, rest: string)
    requires SafeValue(v) && !Dangles(v)
    ensures var segment, inner := Cut(PrintValue(v) + "," + rest, ';', PLAIN)[0], Cut(rest, ';', PLAIN)[0];
            Cut(segment, ',', PLAIN) == [PrintValue(v)] + Cut(inner, ',', PLAIN)
  {
    var first, inner := PrintValue(v), Cut(rest, ';', PLAIN)[0];
    PrintedValueScan(v, ';');
    PrintedValueScan(v, ',');
    ScanOfConcat(first, ",", ';', PLAIN);
    CutBehind(first + ",", rest, ';', PLAIN);
    CutAcrossJoin(first, inner, ',', PLAIN);
    assert first + "," + inner == first + [','] + inner;
  }

  /** Where a value dangles before another one, the first segment has a value with a double quote inside. */
  lemma {:induction false} UnsettledValuesSpoil(values: seq<Value>, last: bool, tail: string)
    requires AllSafe(values) && !SettledValues(values, last) && Behind(tail, last)
    ensures var segment := Cut(Printed(values) + tail, ';', PLAIN)[0];
            exists k :: 0 <= k < |Cut(segment, ',', PLAIN)| && '"' in Unquoted(Cut(segment, ',', PLAIN)[k])
  {
    var first := PrintValue(values[0]);
    var rest := (if |values| > 1 then "," + Printed(values[1..]) else "") + tail;
    if |values| > 1 { PrintedMore(values); }
    assert Printed(values) + tail == first + rest;
    var segment := Cut(first + rest, ';', PLAIN)[0];
    if Dangles(values[0]) {
      assert rest == [rest[0]] + rest[1..];
      SwallowedDelimiter(values[0], rest[0], rest[1..], ';');
      var z :| segment == first + ([rest[0]] + z);
      SwallowedDelimiter(values[0], rest[0], z, ',');
    } else {
      var tailOfRest := Printed(values[1..]) + tail;
      var inner := Cut(tailOfRest, ';', PLAIN)[0];
      assert first + rest == (first + ",") + tailOfRest;
      SegmentAcrossValue(values[0], tailOfRest);
      UnsettledValuesSpoil(values[1..], last, tail);
      var k :| 0 <= k < |Cut(inner, ',', PLAIN)| && '"' in Unquoted(Cut(inner, ',', PLAIN)[k]);
      assert Cut(segment, ',', PLAIN)[k + 1] == Cut(inner, ',', PLAIN)[k];
    }
  }

  lemma UnsettledParameterSpoils(p: Parameter, last: bool, tail: string)
    requires SafeParameter(p) && !SettledValues(p.values, last) && Behind(tail, last)
    ensures Spoiled(Cut(PrintParameter(p) + tail, ';', PLAIN)[0])
  {
    UnsettledValuesSpoil(p.values, last, tail);
    var segment := Cut(Printed(p.values) + tail, ';', PLAIN)[0];
    KeyReadsBack(p.key, segment);
    CutBehind(p.key + "=", Printed(p.values) + tail, ';', PLAIN);
    assert PrintParameter(p) + tail == p.key + "=" + (Printed(p.values) + tail);
  }

  lemma SegmentsBehind(p: Parameter, rest: string)
    requires SafeParameter(p) && SettledValues(p.values, false)
    ensures Cut(PrintParameter(p) + ([';'] + rest), ';', PLAIN) == [PrintParameter(p)] + Cut(rest, ';', PLAIN)
  {
    SettledParameterReadsBack(p, false);
    CutBehind(PrintParameter(p), [';'] + rest, ';', PLAIN);
    assert ([';'] + rest)[1..] == rest && PrintParameter(p) + "" == PrintParameter(p);
  }

  ghost predicate AnySpoiled(segments: seq<string>) {
    exists k :: 0 <= k < |segments| && Spoiled(segments[k])
  }

  lemma SpoiledBehind(first: string, rest: seq<string>)
    requires AnySpoiled(rest)
    ensures AnySpoiled([first] + rest)
  {
    var k :| 0 <= k < |rest| && Spoiled(rest[k]);
    assert ([first] + rest)[k + 1] == rest[k];
  }

  lemma {:induction false} UnsettledParametersSpoil(parameters: seq<Parameter>)
    requires SafeParameters(parameters) && !Settled(parameters)
    ensures AnySpoiled(Cut(Join(Map(PrintParameter, parameters), ';'), ';', PLAIN))
  {
    var p, last := parameters[0], |parameters| == 1;
    var rest := Join(Map(PrintParameter, parameters[1..]), ';');
    var tail := if last then "" else [';'] + rest;
    var all := Join(Map(PrintParameter, parameters), ';');
    assert Map(PrintParameter, parameters)[1..] == Map(PrintParameter, parameters[1..]);
    assert all == PrintParameter(p) + tail;
    if SettledValues(p.values, last) {
      UnsettledParametersSpoil(parameters[1..]);
      SegmentsBehind(p, rest);
      SpoiledBehind(PrintParameter(p), Cut(rest, ';', PLAIN));
    } else {
      UnsettledParameterSpoils(p, last, tail);
      assert Spoiled(Cut(all, ';', PLAIN)[0]);
    }
  }

  lemma {:induction false} QuotesStay(segments: seq<string>, params: map<string, seq<string>>)
    requires HasQuote(params) && ParseParameters(segments, params).Ok?
    ensures HasQuote(ParseParameters(segments, params).value)
  {
    if segments != [] {
      var parameter := ParseParameter(segments[0]).value;
      var next := With(params, parameter.0, parameter.1);
      var key, k :| key in params && 0 <= k < |params[key]| && '"' in params[key][k];
      assert next[key][k] == params[key][k];
      QuotesStay(segments[1..], next);
    }
  }

  lemma {:induction false} SpoiledIsNoticed(segments: seq<string>, params: map<string, seq<string>>, k: nat)
    requires k < |segments| && Spoiled(segments[k]) && ParseParameters(segments, params).Ok?
    ensures HasQuote(ParseParameters(segments, params).value)
  {
    var parameter := ParseParameter(segments[0]).value;
    var next := With(params, parameter.0, parameter.1);
    if k > 0 {
      SpoiledIsNoticed(segments[1..], next, k - 1);
    } else {
      var j :| 0 <= j < |parameter.1| && '"' in parameter.1[j];
      var before := if parameter.0 in params then |params[parameter.0]| else 0;
      assert next[parameter.0][before + j] == parameter.1[j];
      QuotesStay(segments[1..], next);
    }
  }

  lemma {:induction false} GatheredHasNoQuote(parameters: seq<Parameter>, params: map<string, seq<string>>)
    requires SafeParameters(parameters) && !HasQuote(params)
    ensures !HasQuote(Gathered(parameters, params))
  {
    if parameters != [] {
      var p := parameters[0];
      var next := With(params, p.key, Map(TextOf, p.values));
      forall key, k | key in next && 0 <= k < |next[key]| ensures '"' !in next[key][k] {
        var before := if key in params then |params[key]| else 0;
        if k >= before { assert SafeValue(p.values[k - before]); }
      }
      GatheredHasNoQuote(parameters[1..], next);
    }
  }

  // Printed lines

  lemma SegmentsOfHead(e: Entry)
    requires SafeEntry(e)
    ensures e.parameters == [] ==> Cut(Head(e), ';', PLAIN) == [e.name]
    ensures e.parameters != [] ==>
              Cut(Head(e), ';', PLAIN) == [e.name] + Cut(Join(Map(PrintParameter, e.parameters), ';'), ';', PLAIN)
  {
    NameIsTame(e.name);
    TameScan(e.name, ';');
    var all := Join(Map(PrintParameter, e.parameters), ';');
    assert ([e.name] + Map(PrintParameter, e.parameters))[1..] == Map(PrintParameter, e.parameters);
    if e.parameters == [] {
      CutBehind(e.name, "", ';', PLAIN);
      assert e.name + "" == e.name;
    } else {
      CutBehind(e.name, [';'] + all, ';', PLAIN);
      assert Head(e) == e.name + ([';'] + all) && ([';'] + all)[1..] == all && e.name + "" == e.name;
    }
  }

  /** Whatever its parameters do, a printed line keeps its name and value, or is refused. */
  lemma PrintedLineKeepsName(e: Entry)
    requires SafeEntry(e)
    ensures ContentLine(PrintEntry(e))
    ensures var segments := Cut(Head(e), ';', PLAIN);
            var params := ParseParameters(segments[1..], map[]);
            ParseLine(PrintEntry(e)) == if params.Err? then Err(params.error) else Ok(Property(e.name, params.value, e.value))
  {
    var line := PrintEntry(e);
    HeadIsPassed(e);
    SeparatorBehind(Head(e), e.value, false);
    assert line[..|Head(e)|] == Head(e) && line[|Head(e)| + 1..] == e.value;
    SegmentsOfHead(e);
    NameIsTame(e.name);
  }

  lemma SettledEntryReadsBack(e: Entry)
    requires SafeEntry(e) && Settled(e.parameters)
    ensures ParseLine(PrintEntry(e)) == Ok(PropertyOf(e))
  {
    PrintedLineKeepsName(e);
    SegmentsOfHead(e);
    SettledParametersReadBack(e.parameters, map[]);
    if e.parameters != [] { JoinThenCut(Map(PrintParameter, e.parameters), ';', PLAIN); }
  }

  /** A line with a dangling value before another one is refused or read with a double quote in a value. */
  lemma UnsettledEntryIsSpoiled(e: Entry)
    requires SafeEntry(e) && !Settled(e.parameters) && ParseLine(PrintEntry(e)).Ok?
    ensures var p := ParseLine(PrintEntry(e)).value; p.name == e.name && HasQuote(p.params)
  {
    PrintedLineKeepsName(e);
    SegmentsOfHead(e);
    UnsettledParametersSpoil(e.parameters);
    var segments := Cut(Join(Map(PrintParameter, e.parameters), ';'), ';', PLAIN);
    var k :| 0 <= k < |segments| && Spoiled(segments[k]);
    SpoiledIsNoticed(segments, map[], k);
  }

  /** A printed line is read back as the property it was printed from exactly when no quoted value before
      the last one of the line ends in an odd number of backslashes. */
  lemma PrintedEntryReadsBackIff(e: Entry)
    requires SafeEntry(e)
    ensures ParseLine(PrintEntry(e)) == Ok(PropertyOf(e)) <==> Settled(e.parameters)
    ensures ContentLine(PrintEntry(e))
  {
    PrintedLineKeepsName(e);
    if Settled(e.parameters) {
      SettledEntryReadsBack(e);
    } else if ParseLine(PrintEntry(e)).Ok? {
      UnsettledEntryIsSpoiled(e);
      GatheredHasNoQuote(e.parameters, map[]);
    }
  }

  /** A property with a text value, as for a summary or a description. */
  function TextEntry(name: string, text: string): Entry {
    Entry(name, [], EscapeText(text))
  }

  /** Every text can be printed as a line of its own and is read back with its line breaks as LF. */
  lemma TextLineReadsBack(name: string, text: string)
    requires IsName(name)
    ensures SafeEntry(TextEntry(name, text))
    ensures var r := ParseLine(PrintEntry(TextEntry(name, text)));
            r == Ok(Property(name, map[], EscapeText(text))) && UnescapeText(r.value.value) == WithLf(text)
  {
    EscapedTextHasNoBreak(text);
    SettledEntryReadsBack(TextEntry(name, text));
    UnescapeUndoesEscape(text);
  }
}
