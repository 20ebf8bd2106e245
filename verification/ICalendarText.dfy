/** Text values of calendar files: escaping, and cutting lists at their unescaped delimiters. */
module ICalendarText {
  import opened Lists

  // Escaping

  function ReplaceAll(s: string, c: char, written: string): string {
    if s == "" then "" else (if s[0] == c then written else [s[0]]) + ReplaceAll(s[1..], c, written)
  }

  /** Writes every CRLF, CR or LF as the given text. */
  function ReplaceBreaks(s: string, written: string): string {
    if s == "" then ""
    else if |s| > 1 && s[0] == '\r' && s[1] == '\n' then written + ReplaceBreaks(s[2..], written)
    else (if s[0] == '\r' || s[0] == '\n' then written else [s[0]]) + ReplaceBreaks(s[1..], written)
  }

  function EscapeText(s: string): string {
    ReplaceAll(ReplaceAll(ReplaceBreaks(ReplaceAll(s, '\\', "\\\\"), "\\n"), ';', "\\;"), ',', "\\,")
  }

  function UnescapeText(s: string): string {
    if s == "" then ""
    else if |s| > 1 && s[0] == '\\' && s[1] in "\\,;nN" then
      [if s[1] == 'n' || s[1] == 'N' then '\n' else s[1]] + UnescapeText(s[2..])
    else [s[0]] + UnescapeText(s[1..])
  }

  /** What the four passes do to the front of a text. */
  function Escaped(c: char): string {
    if c == '\\' then "\\\\"
    else if c == '\r' || c == '\n' then "\\n"
    else if c == ';' then "\\;"
    else if c == ',' then "\\,"
    else [c]
  }

  lemma {:induction false} ReplaceAllOfConcat(a: string, b: string, c: char, written: string)
    ensures ReplaceAll(a + b, c, written) == ReplaceAll(a, c, written) + ReplaceAll(b, c, written)
  {
    if a == "" {
      assert a + b == b;
    } else {
      ReplaceAllOfConcat(a[1..], b, c, written);
      assert (a + b)[1..] == a[1..] + b;
      Assoc(if a[0] == c then written else [a[0]], ReplaceAll(a[1..], c, written), ReplaceAll(b, c, written));
    }
  }

  /** The pair of passes over delimiters, behind a front that they meet first. */
  lemma DelimiterPasses(front: string, rest: string)
    requires 1 <= |front| <= 2
    ensures ReplaceAll(ReplaceAll(front + rest, ';', "\\;"), ',', "\\,")
            == ReplaceAll(ReplaceAll(front, ';', "\\;"), ',', "\\,") + ReplaceAll(ReplaceAll(rest, ';', "\\;"), ',', "\\,")
  {
    ReplaceAllOfConcat(front, rest, ';', "\\;");
    ReplaceAllOfConcat(ReplaceAll(front, ';', "\\;"), ReplaceAll(rest, ';', "\\;"), ',', "\\,");
  }

  lemma ShortPasses()
    ensures forall c :: c != ';' && c != ',' ==> ReplaceAll(ReplaceAll([c], ';', "\\;"), ',', "\\,") == [c]
    ensures ReplaceAll(ReplaceAll(";", ';', "\\;"), ',', "\\,") == "\\;"
    ensures ReplaceAll(ReplaceAll(",", ';', "\\;"), ',', "\\,") == "\\,"
    ensures ReplaceAll(ReplaceAll("\\\\", ';', "\\;"), ',', "\\,") == "\\\\"
    ensures ReplaceAll(ReplaceAll("\\n", ';', "\\;"), ',', "\\,") == "\\n"
  {
    ReplaceAllOfConcat("\\", "n", ';', "\\;");
    ReplaceAllOfConcat("\\", "n", ',', "\\,");
    ReplaceAllOfConcat("\\", "\\", ';', "\\;");
    ReplaceAllOfConcat("\\", "\\", ',', "\\,");
    ReplaceAllOfConcat("\\", ";", ',', "\\,");
    assert "\\" + "n" == "\\n" && "\\" + "\\" == "\\\\" && "\\" + ";" == "\\;";
  }

  predicate StartsWithCrLf(s: string) {
    |s| > 1 && s[0] == '\r' && s[1] == '\n'
  }

  lemma BreaksOfCrLf(rest: string, written: string)
    ensures ReplaceBreaks("\r" + "\n" + rest, written) == written + ReplaceBreaks(rest, written)
  {
    var s := "\r" + "\n" + rest;
    assert s[2..] == rest && s[0] == '\r' && s[1] == '\n';
  }

  lemma EscapeCrLf(s: string)
    requires StartsWithCrLf(s)
    ensures EscapeText(s) == "\\n" + EscapeText(s[2..])
  {
    ShortPasses();
    var rest := ReplaceAll(s[2..], '\\', "\\\\");
    assert s[1..][1..] == s[2..];
    assert ReplaceAll(s[1..], '\\', "\\\\") == "\n" + rest;
    Assoc("\r", "\n", rest);
    BreaksOfCrLf(rest, "\\n");
    DelimiterPasses("\\n", ReplaceBreaks(rest, "\\n"));
  }

  lemma EscapeBackslash(s: string)
    requires s != "" && s[0] == '\\'
    ensures EscapeText(s) == "\\\\" + EscapeText(s[1..])
  {
    ShortPasses();
    var doubled := ReplaceAll(s, '\\', "\\\\");
    var rest := ReplaceAll(s[1..], '\\', "\\\\");
    assert doubled == "\\" + ("\\" + rest);
    assert ("\\" + rest)[1..] == rest && doubled[1..] == "\\" + rest;
    assert ReplaceBreaks(doubled, "\\n") == "\\" + ("\\" + ReplaceBreaks(rest, "\\n"));
    assert ReplaceBreaks(doubled, "\\n") == "\\\\" + ReplaceBreaks(rest, "\\n");
    DelimiterPasses("\\\\", ReplaceBreaks(rest, "\\n"));
  }

  lemma EscapeOther(s: string)
    requires s != "" && s[0] != '\\' && !StartsWithCrLf(s)
    ensures EscapeText(s) == Escaped(s[0]) + EscapeText(s[1..])
  {
    ShortPasses();
    var doubled := ReplaceAll(s, '\\', "\\\\");
    var rest := ReplaceAll(s[1..], '\\', "\\\\");
    assert doubled[1..] == rest;
    assert |s| > 1 ==> rest[0] == s[1];
    var front := if s[0] == '\r' || s[0] == '\n' then "\\n" else [s[0]];
    assert ReplaceBreaks(doubled, "\\n") == front + ReplaceBreaks(rest, "\\n");
    DelimiterPasses(front, ReplaceBreaks(rest, "\\n"));
  }

  /** The four passes in sequence act on each character, or CRLF, in turn. */
  lemma EscapeStep(s: string)
    requires s != ""
    ensures |s| > 1 && s[0] == '\r' && s[1] == '\n' ==> EscapeText(s) == "\\n" + EscapeText(s[2..])
    ensures !(|s| > 1 && s[0] == '\r' && s[1] == '\n') ==> EscapeText(s) == Escaped(s[0]) + EscapeText(s[1..])
  {
    if StartsWithCrLf(s) {
      EscapeCrLf(s);
    } else if s[0] == '\\' {
      EscapeBackslash(s);
    } else {
      EscapeOther(s);
    }
  }

  /** Unescaping what was escaped gives the text back, with every line break as LF. */
  lemma {:induction false} UnescapeUndoesEscape(s: string)
    ensures UnescapeText(EscapeText(s)) == ReplaceBreaks(s, "\n")
  {
    if s != "" {
      EscapeStep(s);
      if |s| > 1 && s[0] == '\r' && s[1] == '\n' {
        UnescapeUndoesEscape(s[2..]);
        assert ("\\n" + EscapeText(s[2..]))[2..] == EscapeText(s[2..]);
      } else {
        UnescapeUndoesEscape(s[1..]);
        assert (Escaped(s[0]) + EscapeText(s[1..]))[|Escaped(s[0])|..] == EscapeText(s[1..]);
      }
    }
  }

  /** An escaped text fits on one line. */
  lemma {:induction false} EscapedTextHasNoBreak(s: string)
    ensures '\r' !in EscapeText(s) && '\n' !in EscapeText(s)
  {
    if s != "" {
      EscapeStep(s);
      if |s| > 1 && s[0] == '\r' && s[1] == '\n' {
        EscapedTextHasNoBreak(s[2..]);
      } else {
        EscapedTextHasNoBreak(s[1..]);
      }
    }
  }

  // Cutting at delimiters

  datatype Mode = Mode(escaped: bool, quoted: bool)

  const PLAIN := Mode(false, false)

  function Step(mode: Mode, c: char): Mode {
    if mode.escaped then Mode(false, mode.quoted)
    else if c == '\\' then Mode(true, mode.quoted)
    else if c == '"' then Mode(false, !mode.quoted)
    else mode
  }

  predicate Bare(mode: Mode, c: char, delimiter: char) {
    c == delimiter && mode == PLAIN && c != '\\' && c != '"'
  }

  function Scan(s: string, mode: Mode): Mode {
    if s == "" then mode else Scan(s[1..], Step(mode, s[0]))
  }

  predicate NoBare(s: string, delimiter: char, mode: Mode) {
    s == "" || (!Bare(mode, s[0], delimiter) && NoBare(s[1..], delimiter, Step(mode, s[0])))
  }

  function Prefixed(front: string, parts: seq<string>): seq<string>
    requires |parts| > 0
  {
    [front + parts[0]] + parts[1..]
  }

  lemma PrefixedTwice(a: string, b: string, parts: seq<string>)
    requires |parts| > 0
    ensures Prefixed(a, Prefixed(b, parts)) == Prefixed(a + b, parts)
    ensures Prefixed("", parts) == parts
  {
    assert a + (b + parts[0]) == (a + b) + parts[0];
    assert "" + parts[0] == parts[0];
  }

  /** The pieces between the delimiters that are neither escaped nor quoted. */
  function Cut(s: string, delimiter: char, mode: Mode): (parts: seq<string>)
    ensures |parts| > 0
  {
    if s == "" then [""]
    else if Bare(mode, s[0], delimiter) then [""] + Cut(s[1..], delimiter, mode)
    else Prefixed([s[0]], Cut(s[1..], delimiter, Step(mode, s[0])))
  }

  /** What has been read of the current part, with the backslash that waits for its character. */
  function WithPending(current: string, escaped: bool): string {
    if escaped then current + "\\" else current
  }

  /** The parts still to come, given what has been read of the current one. */
  ghost function Rest(current: string, mode: Mode, s: string, delimiter: char): seq<string> {
    Prefixed(WithPending(current, mode.escaped), Cut(s, delimiter, mode))
  }

  lemma SplitStep(current: string, mode: Mode, s: string, delimiter: char)
    requires s != ""
    ensures mode.escaped ==> Rest(current, mode, s, delimiter) == Rest(current + ['\\', s[0]], Step(mode, s[0]), s[1..], delimiter)
    ensures !mode.escaped && s[0] == '\\' ==> Rest(current, mode, s, delimiter) == Rest(current, Step(mode, s[0]), s[1..], delimiter)
    ensures Bare(mode, s[0], delimiter) ==> Rest(current, mode, s, delimiter) == [current] + Rest("", mode, s[1..], delimiter)
    ensures !mode.escaped && s[0] != '\\' && !Bare(mode, s[0], delimiter) ==>
              Rest(current, mode, s, delimiter) == Rest(current + [s[0]], Step(mode, s[0]), s[1..], delimiter)
  {
    var rest := Cut(s[1..], delimiter, Step(mode, s[0]));
    PrefixedTwice(WithPending(current, mode.escaped), [s[0]], rest);
    assert current + "" == current;
    assert current + "\\" + [s[0]] == current + ['\\', s[0]];
  }

  /** The loop of the split: i characters are read, parts are complete, current is under way. */
  ghost predicate Splitting(value: string, delimiter: char, parts: seq<string>, current: string, mode: Mode, i: nat) {
    i <= |value| && Cut(value, delimiter, PLAIN) == parts + Rest(current, mode, value[i..], delimiter)
  }

  lemma SplitNext(value: string, delimiter: char, parts: seq<string>, current: string, mode: Mode, i: nat)
    requires i < |value| && Splitting(value, delimiter, parts, current, mode, i)
    ensures var (c, next) := (value[i], Step(mode, value[i]));
            if mode.escaped then Splitting(value, delimiter, parts, current + ['\\', c], next, i + 1)
            else if c == '\\' then Splitting(value, delimiter, parts, current, next, i + 1)
            else if Bare(mode, c, delimiter) then Splitting(value, delimiter, parts + [current], "", next, i + 1)
            else Splitting(value, delimiter, parts, current + [c], next, i + 1)
  {
    SplitStep(current, mode, value[i..], delimiter);
    assert value[i..][1..] == value[i + 1..];
    if Bare(mode, value[i], delimiter) {
      var rest := Rest("", mode, value[i + 1..], delimiter);
      assert parts + ([current] + rest) == (parts + [current]) + rest;
    }
  }

  lemma SplitEnds(value: string, delimiter: char)
    ensures Splitting(value, delimiter, [], "", PLAIN, 0)
    ensures forall parts, current, mode :: Splitting(value, delimiter, parts, current, mode, |value|) ==>
              Cut(value, delimiter, PLAIN) == parts + [WithPending(current, mode.escaped)]
  {
    PrefixedTwice("", "", Cut(value, delimiter, PLAIN));
    assert value[0..] == value;
    forall parts, current, mode | Splitting(value, delimiter, parts, current, mode, |value|)
      ensures Cut(value, delimiter, PLAIN) == parts + [WithPending(current, mode.escaped)]
    {
      assert WithPending(current, mode.escaped) + "" == WithPending(current, mode.escaped);
    }
  }

  method SplitUnescaped(value: string, delimiter: char) returns (parts: seq<string>)
    ensures parts == Cut(value, delimiter, PLAIN)
  {
    parts := [];
    var current := "";
    var escaped, quoted := false, false;
    var i: nat := 0;
    SplitEnds(value, delimiter);
    while i < |value|
      invariant Splitting(value, delimiter, parts, current, Mode(escaped, quoted), i)
    {
      var character := value[i];
      SplitNext(value, delimiter, parts, current, Mode(escaped, quoted), i);
      if escaped {
        current := current + ['\\', character];
        escaped := false;
      } else if character == '\\' {
        escaped := true;
      } else if character == '"' {
        quoted := !quoted;
        current := current + [character];
      } else if character == delimiter && !quoted {
        parts := parts + [current];
        current := "";
      } else {
        current := current + [character];
      }
      i := i + 1;
    }
    if escaped {
      current := current + "\\";
    }
    parts := parts + [current];
  }

  function Join(parts: seq<string>, delimiter: char): string {
    if parts == [] then "" else if |parts| == 1 then parts[0]
    else parts[0] + [delimiter] + Join(parts[1..], delimiter)
  }

  /** Pieces that a cut can produce: no bare delimiter inside, and none but the last left open. */
  ghost predicate Whole(parts: seq<string>, delimiter: char, mode: Mode) {
    && |parts| > 0
    && NoBare(parts[0], delimiter, mode)
    && (|parts| > 1 ==> Bare(Scan(parts[0], mode), delimiter, delimiter) && Whole(parts[1..], delimiter, PLAIN))
  }

  lemma {:induction false} CutThenJoin(s: string, delimiter: char, mode: Mode)
    ensures Join(Cut(s, delimiter, mode), delimiter) == s
    ensures Whole(Cut(s, delimiter, mode), delimiter, mode)
  {
    if s != "" {
      var parts := Cut(s, delimiter, mode);
      if Bare(mode, s[0], delimiter) {
        CutThenJoin(s[1..], delimiter, mode);
        assert parts[1..] == Cut(s[1..], delimiter, mode);
      } else {
        CutThenJoin(s[1..], delimiter, Step(mode, s[0]));
        var rest := Cut(s[1..], delimiter, Step(mode, s[0]));
        assert parts[1..] == rest[1..];
        assert parts[0][1..] == rest[0];
      }
    }
  }

  /** A piece without bare delimiters is carried over into the first part. */
  lemma {:induction false} CutBehind(piece: string, rest: string, delimiter: char, mode: Mode)
    requires NoBare(piece, delimiter, mode)
    ensures Cut(piece + rest, delimiter, mode) == Prefixed(piece, Cut(rest, delimiter, Scan(piece, mode)))
  {
    if piece == "" {
      assert piece + rest == rest;
      PrefixedTwice("", "", Cut(rest, delimiter, mode));
    } else {
      CutBehind(piece[1..], rest, delimiter, Step(mode, piece[0]));
      assert (piece + rest)[1..] == piece[1..] + rest;
      PrefixedTwice([piece[0]], piece[1..], Cut(rest, delimiter, Scan(piece, mode)));
      assert [piece[0]] + piece[1..] == piece;
    }
  }

  lemma {:induction false} JoinThenCut(parts: seq<string>, delimiter: char, mode: Mode)
    requires Whole(parts, delimiter, mode)
    ensures Cut(Join(parts, delimiter), delimiter, mode) == parts
  {
    if |parts| == 1 {
      CutBehind(parts[0], "", delimiter, mode);
      assert parts[0] + "" == parts[0];
      assert parts == [parts[0]];
    } else {
      var rest := [delimiter] + Join(parts[1..], delimiter);
      CutBehind(parts[0], rest, delimiter, mode);
      assert Join(parts, delimiter) == parts[0] + rest;
      assert rest[1..] == Join(parts[1..], delimiter);
      JoinThenCut(parts[1..], delimiter, PLAIN);
      assert Cut(rest, delimiter, Scan(parts[0], mode)) == [""] + parts[1..];
      assert parts[0] + "" == parts[0];
    }
  }

  /** Cutting undoes joining exactly for the lists of pieces that a cut can produce. */
  lemma CutUndoesJoinIffWhole(parts: seq<string>, delimiter: char)
    ensures Cut(Join(parts, delimiter), delimiter, PLAIN) == parts <==> Whole(parts, delimiter, PLAIN)
  {
    CutThenJoin(Join(parts, delimiter), delimiter, PLAIN);
    if Whole(parts, delimiter, PLAIN) { JoinThenCut(parts, delimiter, PLAIN); }
  }

  // Categories

  function Quotes(s: string): nat {
    if s == "" then 0 else (if s[0] == '"' then 1 else 0) + Quotes(s[1..])
  }

  lemma StepsOfEscaped(c: char, rest: string, delimiter: char, mode: Mode)
    requires !mode.escaped && (delimiter == ',' || delimiter == ';')
    ensures Scan(Escaped(c) + rest, mode) == Scan(rest, if c == '"' then Mode(false, !mode.quoted) else mode)
    ensures NoBare(rest, delimiter, if c == '"' then Mode(false, !mode.quoted) else mode) ==> NoBare(Escaped(c) + rest, delimiter, mode)
  {
    var s := Escaped(c) + rest;
    if |Escaped(c)| == 2 {
      assert s[1..][1..] == rest && s[1] == Escaped(c)[1];
      assert Step(Step(mode, s[0]), s[1]) == mode;
      assert Scan(s, mode) == Scan(s[1..], Step(mode, s[0])) == Scan(s[1..][1..], Step(Step(mode, s[0]), s[1..][0]));
    } else {
      assert s[1..] == rest;
    }
  }

  /** An escaped text has no bare delimiter, closes its escapes, and toggles quotation with each double quote. */
  lemma {:induction false} EscapedTextIsSealed(s: string, delimiter: char, mode: Mode)
    requires !mode.escaped && (delimiter == ',' || delimiter == ';')
    ensures NoBare(EscapeText(s), delimiter, mode)
    ensures Scan(EscapeText(s), mode) == Mode(false, if Quotes(s) % 2 == 0 then mode.quoted else !mode.quoted)
  {
    if s != "" {
      EscapeStep(s);
      if |s| > 1 && s[0] == '\r' && s[1] == '\n' {
        EscapedTextIsSealed(s[2..], delimiter, mode);
        StepsOfEscaped('\n', EscapeText(s[2..]), delimiter, mode);
        assert Quotes(s) == Quotes(s[1..]) == Quotes(s[1..][1..]) && s[1..][1..] == s[2..];
      } else {
        EscapedTextIsSealed(s[1..], delimiter, Step(mode, if s[0] == '"' then '"' else 'a'));
        StepsOfEscaped(s[0], EscapeText(s[1..]), delimiter, mode);
      }
    }
  }

  /** The value of the CATEGORIES line; there is no line for an empty list. */
  function PrintCategories(categories: seq<string>): seq<string> {
    if categories == [] then [] else [Join(Map(EscapeText, categories), ',')]
  }

  function NonEmpty(texts: seq<string>): seq<string> {
    if texts == [] then [] else (if texts[0] != "" then [texts[0]] else []) + NonEmpty(texts[1..])
  }

  /** The categories of all CATEGORIES lines. */
  function ParseCategories(values: seq<string>): seq<string> {
    if values == [] then []
    else NonEmpty(Map(UnescapeText, Cut(values[0], ',', PLAIN))) + ParseCategories(values[1..])
  }

  /** Every category but the last has an even number of double quotes. */
  predicate QuotesPaired(categories: seq<string>) {
    forall k :: 0 <= k < |categories| - 1 ==> Quotes(categories[k]) % 2 == 0
  }

  /** No double quote of an earlier text is left open before a later one. */
  predicate Closed(texts: seq<string>, quoted: bool) {
    |texts| > 1 ==> Scan(texts[0], Mode(false, quoted)) == PLAIN && Closed(texts[1..], false)
  }

  lemma {:induction false} ClosedMeansPaired(categories: seq<string>)
    ensures Closed(Map(EscapeText, categories), false) <==> QuotesPaired(categories)
  {
    if |categories| > 1 {
      ClosedMeansPaired(categories[1..]);
      EscapedTextIsSealed(categories[0], ',', PLAIN);
      assert Map(EscapeText, categories)[1..] == Map(EscapeText, categories[1..]);
      assert QuotesPaired(categories) <==> Quotes(categories[0]) % 2 == 0 && QuotesPaired(categories[1..]) by {
        FirstAndRestPaired(categories);
      }
    }
  }

  lemma FirstAndRestPaired(categories: seq<string>)
    requires |categories| > 1
    ensures QuotesPaired(categories) <==> Quotes(categories[0]) % 2 == 0 && QuotesPaired(categories[1..])
  {
    assert forall k :: 1 <= k < |categories| ==> categories[1..][k - 1] == categories[k];
    assert forall k :: 0 <= k < |categories[1..]| ==> categories[1..][k] == categories[k + 1];
  }

  ghost predicate Sealed(text: string, delimiter: char) {
    && NoBare(text, delimiter, PLAIN) && NoBare(text, delimiter, Mode(false, true))
    && !Scan(text, PLAIN).escaped && !Scan(text, Mode(false, true)).escaped
  }

  lemma CutAcrossJoin(text: string, tail: string, delimiter: char, mode: Mode)
    requires NoBare(text, delimiter, mode) && delimiter == ','
    ensures var after := Scan(text, mode);
            Cut(text + [delimiter] + tail, delimiter, mode)
            == if after == PLAIN then [text] + Cut(tail, delimiter, PLAIN)
               else Prefixed(text + [delimiter], Cut(tail, delimiter, Step(after, delimiter)))
  {
    var after := Scan(text, mode);
    var rest := [delimiter] + tail;
    CutBehind(text, rest, delimiter, mode);
    assert text + [delimiter] + tail == text + rest;
    assert rest[1..] == tail;
    if after == PLAIN {
      assert text + "" == text;
    } else {
      PrefixedTwice(text, [delimiter], Cut(tail, delimiter, Step(after, delimiter)));
    }
  }

  /** The joined line has a part for each text exactly when no quote swallows a comma. */
  lemma {:induction false} PartsOfJoined(texts: seq<string>, quoted: bool)
    requires |texts| > 0 && forall k :: 0 <= k < |texts| ==> Sealed(texts[k], ',')
    ensures var parts := Cut(Join(texts, ','), ',', Mode(false, quoted));
            && |parts| <= |texts|
            && (|parts| == |texts| <==> Closed(texts, quoted))
            && (Closed(texts, quoted) ==> parts == texts)
  {
    var mode := Mode(false, quoted);
    assert Sealed(texts[0], ',');
    if |texts| == 1 {
      CutBehind(texts[0], "", ',', mode);
      assert texts[0] + "" == texts[0];
      assert [texts[0]] == texts;
    } else {
      CutAcrossJoin(texts[0], Join(texts[1..], ','), ',', mode);
      PartsOfJoined(texts[1..], Scan(texts[0], mode).quoted);
      assert texts == [texts[0]] + texts[1..];
    }
  }

  lemma PartsOfCategories(categories: seq<string>)
    requires |categories| > 0
    ensures var parts := Cut(Join(Map(EscapeText, categories), ','), ',', PLAIN);
            && |parts| <= |categories|
            && (|parts| == |categories| <==> QuotesPaired(categories))
            && (QuotesPaired(categories) ==> parts == Map(EscapeText, categories))
  {
    var texts := Map(EscapeText, categories);
    forall k | 0 <= k < |texts| ensures Sealed(texts[k], ',') {
      EscapedTextIsSealed(categories[k], ',', PLAIN);
      EscapedTextIsSealed(categories[k], ',', Mode(false, true));
    }
    PartsOfJoined(texts, false);
    ClosedMeansPaired(categories);
  }

  lemma {:induction false} NonEmptyKeeps(texts: seq<string>)
    ensures |NonEmpty(texts)| <= |texts|
    ensures |NonEmpty(texts)| == |texts| <==> "" !in texts
    ensures "" !in texts ==> NonEmpty(texts) == texts
  {
    if texts != [] {
      NonEmptyKeeps(texts[1..]);
      assert texts == [texts[0]] + texts[1..];
    }
  }

  function WithLf(s: string): string {
    ReplaceBreaks(s, "\n")
  }

  lemma {:induction false} EmptyStaysEmpty(s: string)
    ensures WithLf(s) == "" <==> s == ""
  {
    if s != "" {
      assert WithLf(s) != "";
    }
  }

  /** Categories survive the file exactly when none is empty and all but the last have paired double quotes. */
  lemma CategoriesSurviveIff(categories: seq<string>)
    ensures ParseCategories(PrintCategories(categories)) == Map(WithLf, categories)
            <==> "" !in categories && QuotesPaired(categories)
  {
    if categories != [] {
      var texts := Map(EscapeText, categories);
      var parts := Cut(Join(texts, ','), ',', PLAIN);
      var read := Map(UnescapeText, parts);
      PartsOfCategories(categories);
      NonEmptyKeeps(read);
      assert ParseCategories(PrintCategories(categories)) == NonEmpty(read) + ParseCategories([]);
      if QuotesPaired(categories) {
        forall k | 0 <= k < |categories| ensures read[k] == WithLf(categories[k]) {
          UnescapeUndoesEscape(categories[k]);
        }
        assert read == Map(WithLf, categories);
        forall k | 0 <= k < |categories| ensures read[k] == "" <==> categories[k] == "" {
          EmptyStaysEmpty(categories[k]);
        }
        assert "" in read <==> "" in categories;
      }
    }
  }
}
