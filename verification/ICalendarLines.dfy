/** Content lines and physical lines: folding at 75 octets, and unfolding. */
module ICalendarLines {
  import opened Basics
  import opened ICalendarText
  import opened Lists

  const LINE_OCTETS := 75

  datatype ICalendarError = NothingToContinue | MalformedProperty | NotBalanced | OutsideComponent | NotOneCalendar

  // Folding

  /** Octets of a character in UTF-8. */
  function Octets(c: char): (n: nat)
    ensures 1 <= n <= 4
  {
    var code := c as int;
    if code < 0x80 then 1 else if code < 0x800 then 2 else if code < 0x10000 then 3 else 4
  }

  function ByteLength(s: string): nat {
    if s == "" then 0 else ByteLength(s[..|s| - 1]) + Octets(s[|s| - 1])
  }

  /** The physical lines, where current is the one under way. */
  function FoldFrom(current: string, rest: string): (lines: seq<string>)
    ensures |lines| > 0
    decreases |rest|
  {
    if rest == "" then [current]
    else if ByteLength(current + [rest[0]]) > LINE_OCTETS then [current] + FoldFrom([' ', rest[0]], rest[1..])
    else FoldFrom(current + [rest[0]], rest[1..])
  }

  function Fold(line: string): seq<string> {
    FoldFrom("", line)
  }

  method FoldLine(line: string) returns (lines: seq<string>)
    ensures lines == Fold(line)
  {
    lines := [];
    var current := "";
    var i: nat := 0;
    assert line[0..] == line;
    while i < |line|
      invariant i <= |line| && Fold(line) == lines + FoldFrom(current, line[i..])
    {
      var character := line[i];
      assert line[i..][1..] == line[i + 1..];
      if ByteLength(current + [character]) > LINE_OCTETS {
        lines := lines + [current];
        current := [' ', character];
      } else {
        current := current + [character];
      }
      i := i + 1;
    }
    lines := lines + [current];
  }

  ghost predicate Continuation(line: string) {
    |line| > 1 && line[0] == ' '
  }

  lemma {:induction false} FoldFromFits(current: string, rest: string)
    requires ByteLength(current) <= LINE_OCTETS
    ensures forall k :: 0 <= k < |FoldFrom(current, rest)| ==> ByteLength(FoldFrom(current, rest)[k]) <= LINE_OCTETS
    decreases |rest|
  {
    if rest != "" {
      if ByteLength(current + [rest[0]]) > LINE_OCTETS {
        var next := [' ', rest[0]];
        assert next[..1] == " " && " "[..0] == "";
        assert ByteLength(" ") == 1;
        FoldFromFits(next, rest[1..]);
      } else {
        FoldFromFits(current + [rest[0]], rest[1..]);
      }
    }
  }

  /** No physical line is longer than 75 octets. */
  lemma FoldedLinesFit(line: string)
    ensures forall k :: 0 <= k < |Fold(line)| ==> ByteLength(Fold(line)[k]) <= LINE_OCTETS
  {
    FoldFromFits("", line);
  }

  lemma {:induction false} ShortFolds(current: string, rest: string)
    requires ByteLength(current + rest) <= LINE_OCTETS
    ensures FoldFrom(current, rest) == [current + rest]
    decreases |rest|
  {
    if rest == "" {
      assert current + rest == current;
    } else {
      LongerIsLonger(current + [rest[0]], rest[1..]);
      assert current + [rest[0]] + rest[1..] == current + rest;
      ShortFolds(current + [rest[0]], rest[1..]);
    }
  }

  lemma {:induction false} LongerIsLonger(a: string, b: string)
    ensures ByteLength(a) <= ByteLength(a + b)
  {
    if b == "" {
      assert a + b == a;
    } else {
      LongerIsLonger(a, b[..|b| - 1]);
      assert (a + b)[..|a + b| - 1] == a + b[..|b| - 1];
    }
  }

  /** A line that fits is left alone. */
  lemma ShortLinesStay(line: string)
    requires ByteLength(line) <= LINE_OCTETS
    ensures Fold(line) == [line]
  {
    assert "" + line == line;
    ShortFolds("", line);
  }

  lemma DropFirst(a: string, b: string, c: string, d: string)
    requires a != "" && c != "" && a + b == c + d
    ensures a[1..] + b == c[1..] + d
  {
    assert a[1..] + b == (a + b)[1..];
    assert c[1..] + d == (c + d)[1..];
  }

  /** The first physical line continues what was under way; all others are continuations that lose nothing. */
  lemma {:induction false} FoldFromShape(current: string, rest: string)
    ensures var lines := FoldFrom(current, rest);
            && current <= lines[0]
            && (forall k :: 1 <= k < |lines| ==> Continuation(lines[k]))
            && lines[0] + Tails(lines[1..]) == current + rest
    decreases |rest|
  {
    var lines := FoldFrom(current, rest);
    if rest != "" {
      if ByteLength(current + [rest[0]]) > LINE_OCTETS {
        var next := [' ', rest[0]];
        FoldFromShape(next, rest[1..]);
        var after := FoldFrom(next, rest[1..]);
        assert lines[1..] == after;
        assert |after[0]| > 1 && after[0][0] == next[0];
        assert forall k :: 1 <= k < |lines| ==> lines[k] == after[k - 1];
        DropFirst(after[0], Tails(after[1..]), next, rest[1..]);
        assert next[1..] + rest[1..] == rest;
      } else {
        FoldFromShape(current + [rest[0]], rest[1..]);
        assert current + [rest[0]] + rest[1..] == current + rest;
      }
    }
  }

  /** Continuations without their leading space, in a row. */
  function Tails(lines: seq<string>): string {
    if lines == [] then "" else (if lines[0] == "" then "" else lines[0][1..]) + Tails(lines[1..])
  }

  // Unfolding

  function SplitLines(s: string): (lines: seq<string>)
    ensures |lines| > 0
  {
    if s == "" then [""]
    else if s[0] == '\n' then [""] + SplitLines(s[1..])
    else Prefixed([s[0]], SplitLines(s[1..]))
  }

  function Physical(source: string): seq<string> {
    SplitLines(WithLf(if source != "" && source[0] == '\U{FEFF}' then source[1..] else source))
  }

  predicate Folded(line: string) {
    line != "" && (line[0] == ' ' || line[0] == '\t')
  }

  function UnfoldFrom(physical: seq<string>, logical: seq<string>): Result<seq<string>, ICalendarError> {
    if physical == [] then Ok(logical)
    else if Folded(physical[0]) then
      if logical == [] || logical[|logical| - 1] == "" then Err(NothingToContinue)
      else UnfoldFrom(physical[1..], logical[|logical| - 1 := logical[|logical| - 1] + physical[0][1..]])
    else if physical[0] != "" then UnfoldFrom(physical[1..], logical + [physical[0]])
    else UnfoldFrom(physical[1..], logical)
  }

  method Unfold(source: string) returns (r: Result<seq<string>, ICalendarError>)
    ensures r == UnfoldFrom(Physical(source), [])
  {
    var physical := Physical(source);
    var logical: seq<string> := [];
    var i: nat := 0;
    while i < |physical|
      invariant i <= |physical| && UnfoldFrom(Physical(source), []) == UnfoldFrom(physical[i..], logical)
    {
      var line := physical[i];
      assert physical[i..][1..] == physical[i + 1..];
      if Folded(line) {
        if |logical| == 0 || logical[|logical| - 1] == "" {
          return Err(NothingToContinue);
        }
        logical := logical[|logical| - 1 := logical[|logical| - 1] + line[1..]];
      } else if line != "" {
        logical := logical + [line];
      }
      i := i + 1;
    }
    return Ok(logical);
  }

  /** Unfolding fails exactly when the first line that is not empty is a continuation. */
  lemma {:induction false} UnfoldFailsIff(physical: seq<string>, logical: seq<string>)
    requires forall k :: 0 <= k < |logical| ==> logical[k] != ""
    ensures UnfoldFrom(physical, logical).Err? <==> logical == [] && LeadsWithFold(physical)
  {
    if physical != [] {
      if Folded(physical[0]) {
        if logical != [] {
          UnfoldFailsIff(physical[1..], logical[|logical| - 1 := logical[|logical| - 1] + physical[0][1..]]);
        }
      } else if physical[0] != "" {
        UnfoldFailsIff(physical[1..], logical + [physical[0]]);
      } else {
        UnfoldFailsIff(physical[1..], logical);
      }
    }
  }

  predicate LeadsWithFold(physical: seq<string>) {
    physical != [] && (Folded(physical[0]) || (physical[0] == "" && LeadsWithFold(physical[1..])))
  }

  // Round trip

  predicate NoBreak(s: string) {
    '\r' !in s && '\n' !in s
  }

  /** What can stand as a content line: not empty, no break, no leading space, no byte order mark. */
  predicate ContentLine(line: string) {
    line != "" && NoBreak(line) && line[0] != ' ' && line[0] != '\t' && line[0] != '\U{FEFF}'
  }

  /** Physical lines, each with its CRLF. */
  function Text(physical: seq<string>): string {
    if physical == [] then "" else physical[0] + "\r\n" + Text(physical[1..])
  }

  function FoldAll(lines: seq<string>): seq<string> {
    if lines == [] then [] else Fold(lines[0]) + FoldAll(lines[1..])
  }

  lemma {:induction false} LineThenRest(line: string, rest: string)
    requires NoBreak(line)
    ensures SplitLines(WithLf(line + "\r\n" + rest)) == [line] + SplitLines(WithLf(rest))
  {
    var s := line + "\r\n" + rest;
    if line == "" {
      assert s[2..] == rest;
      assert ("\n" + WithLf(rest))[1..] == WithLf(rest);
    } else {
      LineThenRest(line[1..], rest);
      assert s[1..] == line[1..] + "\r\n" + rest;
      assert s[0] in line;
      assert WithLf(s) == [s[0]] + WithLf(s[1..]);
      assert WithLf(s)[1..] == WithLf(s[1..]);
      assert [line[0]] + line[1..] == line;
    }
  }

  lemma {:induction false} LinesOfText(physical: seq<string>)
    requires forall k :: 0 <= k < |physical| ==> NoBreak(physical[k])
    ensures SplitLines(WithLf(Text(physical))) == physical + [""]
  {
    if physical != [] {
      LineThenRest(physical[0], Text(physical[1..]));
      LinesOfText(physical[1..]);
      assert physical == [physical[0]] + physical[1..];
    } else {
      assert physical + [""] == [""];
    }
  }

  lemma {:induction false} ContinuationsUnfold(lines: seq<string>, rest: seq<string>, logical: seq<string>, last: string)
    requires last != "" && forall k :: 0 <= k < |lines| ==> Continuation(lines[k])
    ensures UnfoldFrom(lines + rest, logical + [last]) == UnfoldFrom(rest, logical + [last + Tails(lines)])
  {
    if lines == [] {
      assert lines + rest == rest;
      assert last + "" == last;
    } else {
      var longer := last + lines[0][1..];
      assert (lines + rest)[1..] == lines[1..] + rest;
      assert (logical + [last])[|logical| := longer] == logical + [longer];
      ContinuationsUnfold(lines[1..], rest, logical, longer);
      assert longer + Tails(lines[1..]) == last + Tails(lines);
    }
  }

  lemma FirstLineOf(line: string)
    requires ContentLine(line)
    ensures Fold(line)[0] != "" && Fold(line)[0][0] == line[0]
  {
    var first := [line[0]];
    assert first[..0] == "" && ByteLength(first) <= 4;
    assert "" + first == first;
    FoldFromShape(first, line[1..]);
  }

  lemma FoldedLineUnfolds(line: string, rest: seq<string>, logical: seq<string>)
    requires ContentLine(line)
    ensures UnfoldFrom(Fold(line) + rest, logical) == UnfoldFrom(rest, logical + [line])
  {
    var lines := Fold(line);
    FoldFromShape("", line);
    FirstLineOf(line);
    assert "" + line == line;
    assert (lines + rest)[1..] == lines[1..] + rest;
    ContinuationsUnfold(lines[1..], rest, logical, lines[0]);
  }

  lemma {:induction false} FoldedLinesUnfold(lines: seq<string>, logical: seq<string>)
    requires forall k :: 0 <= k < |lines| ==> ContentLine(lines[k])
    ensures UnfoldFrom(FoldAll(lines) + [""], logical) == Ok(logical + lines)
  {
    if lines == [] {
      assert FoldAll(lines) + [""] == [""];
      assert logical + lines == logical;
    } else {
      FoldedLineUnfolds(lines[0], FoldAll(lines[1..]) + [""], logical);
      assert FoldAll(lines) + [""] == Fold(lines[0]) + (FoldAll(lines[1..]) + [""]);
      FoldedLinesUnfold(lines[1..], logical + [lines[0]]);
      assert logical + [lines[0]] + lines[1..] == logical + lines;
    }
  }

  lemma {:induction false} FoldFromHasNoBreak(current: string, rest: string)
    requires NoBreak(current) && NoBreak(rest)
    ensures forall k :: 0 <= k < |FoldFrom(current, rest)| ==> NoBreak(FoldFrom(current, rest)[k])
    decreases |rest|
  {
    if rest != "" {
      assert rest[0] in rest;
      if ByteLength(current + [rest[0]]) > LINE_OCTETS {
        FoldFromHasNoBreak([' ', rest[0]], rest[1..]);
      } else {
        FoldFromHasNoBreak(current + [rest[0]], rest[1..]);
      }
    }
  }

  lemma {:induction false} FoldedLinesHaveNoBreak(lines: seq<string>)
    requires forall k :: 0 <= k < |lines| ==> ContentLine(lines[k])
    ensures forall k :: 0 <= k < |FoldAll(lines)| ==> NoBreak(FoldAll(lines)[k])
  {
    if lines != [] {
      FoldFromHasNoBreak("", lines[0]);
      FoldedLinesHaveNoBreak(lines[1..]);
    }
  }

  /** Folding content lines, ending each physical line with CRLF, and unfolding gives the content lines back. */
  lemma UnfoldUndoesFold(lines: seq<string>)
    requires forall k :: 0 <= k < |lines| ==> ContentLine(lines[k])
    ensures UnfoldFrom(Physical(Text(FoldAll(lines))), []) == Ok(lines)
  {
    var physical := FoldAll(lines);
    var text := Text(physical);
    FoldedLinesHaveNoBreak(lines);
    LinesOfText(physical);
    FoldedLinesUnfold(lines, []);
    assert [] + lines == lines;
    if lines != [] {
      FirstLineOf(lines[0]);
      assert physical[0] == Fold(lines[0])[0];
      assert text[0] == physical[0][0];
    }
  }
}
