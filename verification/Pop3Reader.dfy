/** The bounded line reader of the POP3 account test, and its multi-line answers. */
module Pop3Reader {
  import opened Basics
  import opened Lists

  newtype Byte = b: int | 0 <= b < 256
  type Line = seq<Byte>

  const CR: Byte := 13
  const LF: Byte := 10
  const DOT: Byte := 46

  datatype Pop3Error = Protocol | TooBig | Connection

  /** The lines of a stretch of bytes, what is left, and the error that ended the reading. */
  datatype Scanned = Scanned(lines: seq<Line>, rest: seq<Byte>, error: Option<Pop3Error>)

  function IndexOfLf(bytes: seq<Byte>): (r: Option<nat>)
    ensures r.Some? ==> r.value < |bytes| && bytes[r.value] == LF && forall k :: 0 <= k < r.value ==> bytes[k] != LF
    ensures r.None? ==> LF !in bytes
  {
    if bytes == [] then None
    else if bytes[0] == LF then Some(0)
    else
      var rest := IndexOfLf(bytes[1..]);
      if rest.None? then None else Some(rest.value + 1)
  }

  function Scan(bytes: seq<Byte>, max: nat): Scanned
    decreases |bytes|
  {
    var lf := IndexOfLf(bytes);
    if lf.None? then Scanned([], bytes, if |bytes| > max then Some(TooBig) else None)
    else if lf.value == 0 || bytes[lf.value - 1] != CR then Scanned([], bytes, Some(Protocol))
    else if lf.value + 1 > max then Scanned([], bytes, Some(TooBig))
    else
      Behind([bytes[..lf.value - 1]], Scan(bytes[lf.value + 1..], max))
  }

  /** Lines read earlier, and then the rest of the reading. */
  function Behind(lines: seq<Line>, s: Scanned): Scanned {
    Scanned(lines + s.lines, s.rest, s.error)
  }

  lemma BehindTwice(a: seq<Line>, b: seq<Line>, s: Scanned)
    ensures Behind(a, Behind(b, s)) == Behind(a + b, s) && Behind([], s) == s
  {
    Assoc(a, b, s.lines);
    assert [] + s.lines == s.lines;
  }

  // The bytes of lines

  function Wire(lines: seq<Line>): seq<Byte> {
    if lines == [] then [] else lines[0] + [CR, LF] + Wire(lines[1..])
  }

  predicate Fits(line: Line, max: nat) {
    LF !in line && |line| + 2 <= max
  }

  lemma {:induction false} WireOfConcat(a: seq<Line>, b: seq<Line>)
    ensures Wire(a + b) == Wire(a) + Wire(b)
  {
    if a == [] {
      assert a + b == b;
    } else {
      WireOfConcat(a[1..], b);
      assert (a + b)[1..] == a[1..] + b;
      Assoc(a[0] + [CR, LF], Wire(a[1..]), Wire(b));
    }
  }

  lemma {:induction false} LfBehind(front: seq<Byte>, more: seq<Byte>)
    requires LF !in front
    ensures IndexOfLf(front + more) == if IndexOfLf(more).None? then None else Some(|front| + IndexOfLf(more).value)
  {
    if front == [] {
      assert front + more == more;
    } else {
      assert front[0] in front;
      LfBehind(front[1..], more);
      assert (front + more)[1..] == front[1..] + more;
    }
  }

  lemma ScanOneLine(line: Line, rest: seq<Byte>, max: nat)
    requires Fits(line, max)
    ensures Scan(line + [CR, LF] + rest, max) == Behind([line], Scan(rest, max))
  {
    var bytes := line + [CR, LF] + rest;
    assert bytes == (line + [CR]) + ([LF] + rest);
    assert LF !in line + [CR];
    LfBehind(line + [CR], [LF] + rest);
    assert bytes[|line| + 2..] == rest && bytes[..|line|] == line;
  }

  /** Lines that fit are read back, whatever comes behind them. */
  lemma {:induction false} ScanOfWire(lines: seq<Line>, rest: seq<Byte>, max: nat)
    requires forall k :: 0 <= k < |lines| ==> Fits(lines[k], max)
    ensures Scan(Wire(lines) + rest, max) == Behind(lines, Scan(rest, max))
  {
    if lines == [] {
      assert Wire(lines) + rest == rest;
      BehindTwice([], [], Scan(rest, max));
    } else {
      var tail := Wire(lines[1..]) + rest;
      assert Wire(lines) + rest == lines[0] + [CR, LF] + tail;
      ScanOneLine(lines[0], tail, max);
      ScanOfWire(lines[1..], rest, max);
      BehindTwice([lines[0]], lines[1..], Scan(rest, max));
      assert [lines[0]] + lines[1..] == lines;
    }
  }

  ghost predicate Conserved(bytes: seq<Byte>, s: Scanned, max: nat) {
    && bytes == Wire(s.lines) + s.rest
    && (forall k :: 0 <= k < |s.lines| ==> Fits(s.lines[k], max))
    && (s.error.None? ==> LF !in s.rest && |s.rest| <= max)
  }

  lemma OneMoreLine(line: Line, bytes: seq<Byte>, s: Scanned, max: nat)
    requires Conserved(bytes, s, max) && Fits(line, max)
    ensures Conserved(line + [CR, LF] + bytes, Behind([line], s), max)
  {
    var lines := [line] + s.lines;
    assert lines[1..] == s.lines;
    Assoc(line + [CR, LF], Wire(s.lines), s.rest);
  }

  predicate LineReady(bytes: seq<Byte>, n: nat, max: nat)
    requires n < |bytes|
  {
    n > 0 && bytes[n - 1] == CR && n + 1 <= max
  }

  lemma LineSplits(bytes: seq<Byte>, n: nat)
    requires 0 < n < |bytes| && bytes[n - 1] == CR && bytes[n] == LF
    ensures bytes == bytes[..n - 1] + [CR, LF] + bytes[n + 1..]
  {
    assert bytes[n - 1..n + 1] == [CR, LF];
    assert bytes == bytes[..n - 1] + bytes[n - 1..n + 1] + bytes[n + 1..];
  }

  lemma ReadyLine(bytes: seq<Byte>, n: nat, max: nat)
    requires IndexOfLf(bytes) == Some(n) && LineReady(bytes, n, max)
    ensures Fits(bytes[..n - 1], max) && bytes == bytes[..n - 1] + [CR, LF] + bytes[n + 1..]
    ensures Scan(bytes, max) == Behind([bytes[..n - 1]], Scan(bytes[n + 1..], max))
  {
    LineSplits(bytes, n);
    assert forall i :: 0 <= i < n - 1 ==> bytes[..n - 1][i] == bytes[i];
  }

  lemma NoReadyLine(bytes: seq<Byte>, max: nat)
    requires IndexOfLf(bytes).Some? ==> !LineReady(bytes, IndexOfLf(bytes).value, max)
    ensures Scan(bytes, max).lines == [] && Scan(bytes, max).rest == bytes
    ensures Scan(bytes, max).error.None? ==> LF !in bytes && |bytes| <= max
  {
  }

  lemma ConserveLine(bytes: seq<Byte>, n: nat, max: nat)
    requires IndexOfLf(bytes) == Some(n) && LineReady(bytes, n, max)
    requires Conserved(bytes[n + 1..], Scan(bytes[n + 1..], max), max)
    ensures Conserved(bytes, Scan(bytes, max), max)
  {
    ReadyLine(bytes, n, max);
    OneMoreLine(bytes[..n - 1], bytes[n + 1..], Scan(bytes[n + 1..], max), max);
  }

  lemma ConserveRest(bytes: seq<Byte>, s: Scanned, max: nat)
    requires s.lines == [] && s.rest == bytes && (s.error.None? ==> LF !in bytes && |bytes| <= max)
    ensures Conserved(bytes, s, max)
  {
    assert [] + bytes == bytes;
  }

  /** Reading loses no byte: the lines with their CRLF, and then the rest, are the bytes received. */
  lemma {:induction false} ScanConserves(bytes: seq<Byte>, max: nat)
    ensures Conserved(bytes, Scan(bytes, max), max)
    decreases |bytes|
  {
    var lf := IndexOfLf(bytes);
    if lf.Some? && LineReady(bytes, lf.value, max) {
      var rest := bytes[lf.value + 1..];
      ScanConserves(rest, max);
      ConserveLine(bytes, lf.value, max);
    } else {
      assert Scan(bytes, max).lines == [] && Scan(bytes, max).rest == bytes by { NoReadyLine(bytes, max); }
      assert Scan(bytes, max).error.None? ==> LF !in bytes && |bytes| <= max by { NoReadyLine(bytes, max); }
      ConserveRest(bytes, Scan(bytes, max), max);
    }
  }

  /** More bytes behind the first LF do not move it. */
  lemma FirstLfStays(bytes: seq<Byte>, more: seq<Byte>)
    requires IndexOfLf(bytes).Some?
    ensures IndexOfLf(bytes + more) == IndexOfLf(bytes)
  {
    var n := IndexOfLf(bytes).value;
    assert bytes + more == bytes[..n] + ([LF] + (bytes[n + 1..] + more));
    LfBehind(bytes[..n], [LF] + (bytes[n + 1..] + more));
  }

  /** A stretch without line end, or with a bad one, fails alike when more bytes follow, and yields no line. */
  lemma FailureStays(bytes: seq<Byte>, more: seq<Byte>, max: nat)
    requires Scan(bytes, max).error.Some? && Scan(bytes, max).lines == []
    ensures Scan(bytes + more, max).error.Some? && Scan(bytes + more, max).lines == []
  {
    if IndexOfLf(bytes).Some? {
      FirstLfStays(bytes, more);
    } else {
      LfBehind(bytes, more);
    }
  }

  lemma ScanOfRest(bytes: seq<Byte>, max: nat)
    ensures Scan(Scan(bytes, max).rest, max) == Scanned([], Scan(bytes, max).rest, Scan(bytes, max).error)
  {
    var s := Scan(bytes, max);
    ScanConserves(bytes, max);
    ScanOfWire(s.lines, s.rest, max);
    assert |Behind(s.lines, Scan(s.rest, max)).lines| == |s.lines| + |Scan(s.rest, max).lines|;
  }

  /** Reading in two steps is reading at once: the same lines, and failure or not alike. */
  lemma ReadingOnIsReadingAtOnce(bytes: seq<Byte>, more: seq<Byte>, max: nat)
    ensures var (s, all) := (Scan(bytes, max), Scan(bytes + more, max));
            if s.error.Some? then all.lines == s.lines && all.error.Some? else all == Behind(s.lines, Scan(s.rest + more, max))
  {
    var s := Scan(bytes, max);
    ScanConserves(bytes, max);
    ScanOfWire(s.lines, s.rest + more, max);
    Assoc(Wire(s.lines), s.rest, more);
    if s.error.Some? {
      ScanOfRest(bytes, max);
      FailureStays(s.rest, more, max);
    }
  }

  // Chunks

  /** What the reader has after one chunk: nothing changes once it has failed. */
  function Receive(s: Scanned, chunk: seq<Byte>, max: nat): Scanned {
    if s.error.Some? then s
    else Behind(s.lines, Scan(s.rest + chunk, max))
  }

  function ReceiveAll(chunks: seq<seq<Byte>>, max: nat): Scanned {
    if chunks == [] then Scanned([], [], None) else Receive(ReceiveAll(chunks[..|chunks| - 1], max), chunks[|chunks| - 1], max)
  }

  lemma FlattenLast(chunks: seq<seq<Byte>>)
    requires chunks != []
    ensures Flatten(chunks) == Flatten(chunks[..|chunks| - 1]) + chunks[|chunks| - 1]
  {
    var front, last := chunks[..|chunks| - 1], chunks[|chunks| - 1];
    assert chunks == front + [last];
    FlattenConcat(front, [last]);
    assert Flatten([last]) == last + Flatten([last][1..]) == last;
  }

  /** However the bytes are cut into chunks, the same lines come out in the same order, and the reader fails or not alike. */
  lemma {:induction false} ChunksDoNotMatter(chunks: seq<seq<Byte>>, max: nat)
    ensures ReceiveAll(chunks, max).lines == Scan(Flatten(chunks), max).lines
    ensures ReceiveAll(chunks, max).error.Some? <==> Scan(Flatten(chunks), max).error.Some?
    ensures ReceiveAll(chunks, max).error.None? ==> ReceiveAll(chunks, max) == Scan(Flatten(chunks), max)
  {
    if chunks != [] {
      var front, last := chunks[..|chunks| - 1], chunks[|chunks| - 1];
      ChunksDoNotMatter(front, max);
      FlattenLast(chunks);
      ReadingOnIsReadingAtOnce(Flatten(front), last, max);
    }
  }

  /** The kind of failure can depend on the cut. */
  lemma KindOfFailureDependsOnChunks()
    ensures ReceiveAll([[65, 65, LF]], 1).error == Some(Protocol)
    ensures ReceiveAll([[65, 65], [LF]], 1).error == Some(TooBig)
  {
    var whole, one, two: seq<seq<Byte>> := [[65, 65, LF]], [[65, 65]], [[65, 65], [LF]];
    assert whole[..0] == [] && one[..0] == [] && two[..1] == one;
    LfBehind([65, 65], [LF]);
    assert [65, 65] + [LF] == [65, 65, LF];
    assert [] + [65, 65, LF] == [65, 65, LF] && [] + [65, 65] == [65, 65];
    assert IndexOfLf([65, 65]) == None;
    assert Scan([65, 65], 1) == Scanned([], [65, 65], Some(TooBig));
    assert ReceiveAll([], 1) == Scanned([], [], None);
    assert one[0] == [65, 65] && two[1] == [LF];
    assert ReceiveAll(one, 1) == Receive(ReceiveAll([], 1), [65, 65], 1);
    assert ReceiveAll(two, 1) == Receive(ReceiveAll(one, 1), [LF], 1);
  }

  /** The first LF has no CR before it and comes too late for the bound. */
  predicate Ambiguous(bytes: seq<Byte>, max: nat) {
    var lf := IndexOfLf(bytes);
    lf.Some? && lf.value > max && bytes[lf.value - 1] != CR
  }

  /** A bad stretch that is not ambiguous fails in the same way when more bytes follow. */
  lemma KindStays(bytes: seq<Byte>, more: seq<Byte>, max: nat)
    requires Scan(bytes, max).error.Some? && Scan(bytes, max).lines == [] && !Ambiguous(bytes + more, max)
    ensures Scan(bytes + more, max).error == Scan(bytes, max).error && !Ambiguous(bytes, max)
  {
    if IndexOfLf(bytes).Some? {
      FirstLfStays(bytes, more);
    } else {
      LfBehind(bytes, more);
    }
  }

  /** The bad stretch of a longer reading begins with the bad stretch of the shorter one. */
  lemma BadStretchGrows(bytes: seq<Byte>, more: seq<Byte>, max: nat)
    requires Scan(bytes, max).error.Some? && !Ambiguous(Scan(bytes + more, max).rest, max)
    ensures Scan(bytes + more, max).error == Scan(bytes, max).error && !Ambiguous(Scan(bytes, max).rest, max)
  {
    var s := Scan(bytes, max);
    ScanConserves(bytes, max);
    ScanOfRest(bytes, max);
    ScanOfWire(s.lines, s.rest + more, max);
    Assoc(Wire(s.lines), s.rest, more);
    FailureStays(s.rest, more, max);
    NoReadyLine(s.rest + more, max);
    KindStays(s.rest, more, max);
  }

  lemma {:induction false} KindIsFixed(chunks: seq<seq<Byte>>, max: nat)
    requires !Ambiguous(Scan(Flatten(chunks), max).rest, max)
    ensures ReceiveAll(chunks, max).error == Scan(Flatten(chunks), max).error
  {
    if chunks != [] {
      var front, last := chunks[..|chunks| - 1], chunks[|chunks| - 1];
      FlattenLast(chunks);
      ChunksDoNotMatter(front, max);
      if Scan(Flatten(front), max).error.Some? {
        BadStretchGrows(Flatten(front), last, max);
        KindIsFixed(front, max);
      } else {
        ReadingOnIsReadingAtOnce(Flatten(front), last, max);
      }
    }
  }

  lemma AmbiguousStretch(rest: seq<Byte>, max: nat)
    requires Ambiguous(rest, max)
    ensures |rest| > max + 1 && Scan(rest, max).error == Some(Protocol)
    ensures Scan(rest[..max + 1], max) == Scanned([], rest[..max + 1], Some(TooBig))
  {
    assert LF !in rest[..max + 1];
  }

  lemma ReceiveTwo(a: seq<Byte>, b: seq<Byte>, max: nat)
    ensures ReceiveAll([a, b], max) == Receive(Scan(a, max), b, max)
  {
    assert [a, b][..1] == [a] && [a][..0] == [] && [] + a == a;
    assert ReceiveAll([a], max) == Receive(ReceiveAll([], max), a, max);
    BehindTwice([], [], Scan(a, max));
  }

  lemma OverlongChunk(lines: seq<Line>, head: seq<Byte>, tail: seq<Byte>, max: nat)
    requires forall k :: 0 <= k < |lines| ==> Fits(lines[k], max)
    requires Scan(head, max) == Scanned([], head, Some(TooBig))
    ensures ReceiveAll([Wire(lines) + head, tail], max).error == Some(TooBig)
  {
    ScanOfWire(lines, head, max);
    ReceiveTwo(Wire(lines) + head, tail, max);
  }

  lemma SplitWire(lines: seq<Line>, rest: seq<Byte>, n: nat)
    requires n <= |rest|
    ensures Wire(lines) + rest == (Wire(lines) + rest[..n]) + rest[n..]
  {
    assert rest == rest[..n] + rest[n..];
    Assoc(Wire(lines), rest[..n], rest[n..]);
  }

  /** The same bytes in two chunks, the first of which ends one byte beyond the bound of the bad line. */
  lemma CutBehindTheBound(bytes: seq<Byte>, max: nat) returns (one: seq<Byte>, two: seq<Byte>)
    requires Ambiguous(Scan(bytes, max).rest, max)
    ensures bytes == one + two && ReceiveAll([one, two], max).error == Some(TooBig)
    ensures Scan(bytes, max).error == Some(Protocol)
  {
    var lines, rest := Scan(bytes, max).lines, Scan(bytes, max).rest;
    ScanConserves(bytes, max);
    ScanOfRest(bytes, max);
    AmbiguousStretch(rest, max);
    one, two := Wire(lines) + rest[..max + 1], rest[max + 1..];
    SplitWire(lines, rest, max + 1);
    OverlongChunk(lines, rest[..max + 1], rest[max + 1..], max);
  }

  /** Exactly when the kind of failure, too, is independent of the cut: unless what is left behind the
      complete lines begins with an overlong line that ends without a CR. */
  lemma KindOfFailureIsFixedIff(bytes: seq<Byte>, max: nat)
    ensures (forall chunks :: Flatten(chunks) == bytes ==> ReceiveAll(chunks, max).error == Scan(bytes, max).error)
            <==> !Ambiguous(Scan(bytes, max).rest, max)
  {
    if Ambiguous(Scan(bytes, max).rest, max) {
      var one, two := CutBehindTheBound(bytes, max);
      assert [one, two][1..] == [two] && [two][1..] == [];
      assert Flatten([one, two]) == one + Flatten([two]) == one + (two + []) == bytes;
    } else {
      forall chunks | Flatten(chunks) == bytes ensures ReceiveAll(chunks, max).error == Scan(bytes, max).error {
        KindIsFixed(chunks, max);
      }
    }
  }

  // The reader

  /** The loop over a chunk has taken these lines off the bytes that arrived, and has this buffer left. */
  ghost predicate Draining(arrived: seq<Byte>, taken: seq<Line>, buffer: seq<Byte>, max: nat) {
    Scan(arrived, max) == Behind(taken, Scan(buffer, max))
  }

  ghost predicate Drained(arrived: seq<Byte>, taken: seq<Line>, buffer: seq<Byte>, error: Option<Pop3Error>, max: nat) {
    Scan(arrived, max) == Scanned(taken, buffer, error)
  }

  lemma DrainStarts(arrived: seq<Byte>, max: nat)
    ensures Draining(arrived, [], arrived, max)
  {
    BehindTwice([], [], Scan(arrived, max));
  }

  lemma DrainLine(arrived: seq<Byte>, taken: seq<Line>, buffer: seq<Byte>, n: nat, max: nat)
    requires Draining(arrived, taken, buffer, max) && IndexOfLf(buffer) == Some(n) && LineReady(buffer, n, max)
    ensures Draining(arrived, taken + [buffer[..n - 1]], buffer[n + 1..], max)
  {
    ReadyLine(buffer, n, max);
    BehindTwice(taken, [buffer[..n - 1]], Scan(buffer[n + 1..], max));
  }

  /** The error of bytes that do not begin with a line that can be taken. */
  function BadEnd(buffer: seq<Byte>, max: nat): Option<Pop3Error> {
    var lf := IndexOfLf(buffer);
    if lf.None? then (if |buffer| > max then Some(TooBig) else None)
    else if lf.value == 0 || buffer[lf.value - 1] != CR then Some(Protocol)
    else Some(TooBig)
  }

  lemma DrainEnd(arrived: seq<Byte>, taken: seq<Line>, buffer: seq<Byte>, max: nat)
    requires Draining(arrived, taken, buffer, max)
    requires IndexOfLf(buffer).Some? ==> !LineReady(buffer, IndexOfLf(buffer).value, max)
    ensures Drained(arrived, taken, buffer, BadEnd(buffer, max), max)
  {
    NoReadyLine(buffer, max);
    assert taken + [] == taken;
  }

  /** The lines handed out and queued are those from before and those taken since. */
  ghost predicate InOrder(handed: seq<Line>, queued: seq<Line>, before: seq<Line>, taken: seq<Line>) {
    handed + queued == before + taken
  }

  datatype Answer = Got(line: Line) | Failed(error: Pop3Error) | Waiting

  class LineReader {
    const max: nat
    var buffer: seq<Byte>
    var lines: seq<Line>
    var pending: bool
    var error: Option<Pop3Error>
    ghost var received: seq<Byte>
    ghost var handed: seq<Line>

    /** Queued and handed-out lines are those of all bytes received, in order; a reader waits only when no line is queued. */
    ghost predicate Valid()
      reads this
    {
      && handed + lines == Scan(received, max).lines && buffer == Scan(received, max).rest
      && (error.None? ==> Scan(received, max).error.None?)
      && (pending ==> lines == [] && error.None?)
    }

    constructor (max: nat)
      ensures Valid() && this.max == max && received == [] && handed == [] && error.None? && !pending
    {
      this.max := max;
      buffer, lines, pending, error := [], [], false, None;
      received, handed := [], [];
    }

    predicate IsEmpty()
      reads this
    {
      |buffer| == 0 && |lines| == 0
    }

    /** The reader, failed or not, is empty exactly when every byte it has taken in belongs to a line that
        was handed out. */
    lemma EmptyIffAllIsRead()
      requires Valid()
      ensures IsEmpty() <==> received == Wire(handed)
    {
      ScanConserves(received, max);
      WireOfConcat(handed, lines);
      assert received == Wire(handed) + Wire(lines) + buffer;
      if received == Wire(handed) {
        assert |Wire(lines)| == 0 && |buffer| == 0;
      }
    }

    method ReadLine() returns (answer: Answer)
      requires Valid()
      modifies this
      ensures Valid() && received == old(received) && error == old(error) && buffer == old(buffer)
      ensures old(lines) != [] ==> answer == Got(old(lines)[0]) && handed == old(handed) + [old(lines)[0]]
      ensures old(lines) == [] ==> handed == old(handed)
      ensures old(lines) == [] && error.Some? ==> answer == Failed(error.value)
      ensures old(lines) == [] && error.None? ==> pending && answer == if old(pending) then Failed(Protocol) else Waiting
    {
      if |lines| > 0 {
        answer := Got(lines[0]);
        assert handed + [lines[0]] + lines[1..] == handed + lines;
        handed := handed + [lines[0]];
        lines := lines[1..];
        return;
      }
      if error.Some? {
        return Failed(error.value);
      }
      if pending {
        return Failed(Protocol);
      }
      pending := true;
      return Waiting;
    }

    method Fail(reason: Pop3Error)
      modifies this`error, this`pending
      ensures error == (if old(error).Some? then old(error) else Some(reason))
      ensures pending == (old(pending) && old(error).Some?)
    {
      if error.None? {
        error := Some(reason);
        pending := false;
      }
    }

    /** A complete line goes to the waiting reader, or into the queue. */
    method Deliver(line: Line, ghost before: seq<Line>, ghost taken: seq<Line>)
      requires (pending ==> lines == []) && InOrder(handed, lines, before, taken)
      modifies this`lines, this`pending, this`handed
      ensures InOrder(handed, lines, before, taken + [line]) && old(handed) <= handed && !pending
    {
      Assoc(before, taken, [line]);
      if pending {
        handed := handed + [line];
        pending := false;
      } else {
        Assoc(handed, lines, [line]);
        lines := lines + [line];
      }
    }

    /** Takes complete lines off the buffer until none is left, or one is bad. */
    method Drain(ghost before: seq<Line>) returns (ghost taken: seq<Line>)
      requires error.None? && (pending ==> lines == []) && InOrder(handed, lines, before, [])
      modifies this`buffer, this`lines, this`pending, this`error, this`handed
      ensures Drained(old(buffer), taken, buffer, error, max)
      ensures InOrder(handed, lines, before, taken) && old(handed) <= handed
      ensures pending ==> lines == [] && error.None?
    {
      ghost var arrived := buffer;
      taken := [];
      DrainStarts(buffer, max);
      while true
        invariant error.None? && InOrder(handed, lines, before, taken) && old(handed) <= handed
        invariant Draining(arrived, taken, buffer, max) && (pending ==> lines == [])
        decreases |buffer|
      {
        var lf := IndexOfLf(buffer);
        if lf.None? || !LineReady(buffer, lf.value, max) {
          DrainEnd(arrived, taken, buffer, max);
          var bad := BadEnd(buffer, max);
          if bad.Some? {
            Fail(bad.value);
          }
          return;
        }
        DrainLine(arrived, taken, buffer, lf.value, max);
        Deliver(buffer[..lf.value - 1], before, taken);
        taken := taken + [buffer[..lf.value - 1]];
        buffer := buffer[lf.value + 1..];
      }
    }

    method OnData(chunk: seq<Byte>)
      requires Valid()
      modifies this
      ensures Valid() && old(handed) <= handed
      ensures old(error).Some? ==>
                error == old(error) && lines == old(lines) && handed == old(handed) && received == old(received)
      ensures old(error).None? ==> received == old(received) + chunk && error == Scan(old(buffer) + chunk, max).error
    {
      if error.Some? {
        return;
      }
      ReadingOnIsReadingAtOnce(received, chunk, max);
      buffer := buffer + chunk;
      received := received + chunk;
      ghost var before := handed + lines;
      assert before + [] == before;
      ghost var taken := Drain(before);
    }

    /** The server has closed the connection; lines that are queued can still be read. */
    method OnEnd()
      requires Valid()
      modifies this
      ensures Valid() && handed == old(handed) && lines == old(lines) && received == old(received) && error.Some?
      ensures old(error).Some? ==> error == old(error)
    {
      Fail(Connection);
    }
  }

  // Multi-line answers

  datatype Limits = Limits(bodyBytes: nat, bodyLines: nat)

  function Unstuffed(line: Line): Line {
    if |line| > 1 && line[0] == DOT && line[1] == DOT then line[1..] else line
  }

  /** A sender puts a dot before every line that begins with one. */
  function Stuffed(line: Line): Line {
    if |line| > 0 && line[0] == DOT then [DOT] + line else line
  }

  /** The body at the front of the lines that arrive; None stands for a connection that ends too early. */
  function Body(arriving: seq<Line>, body: seq<Line>, bytes: nat, limits: Limits): Result<seq<Line>, Pop3Error> {
    if arriving == [] then Err(Connection)
    else
      var line, total := arriving[0], bytes + |arriving[0]| + 2;
      if total > limits.bodyBytes then Err(TooBig)
      else if line == [DOT] then Ok(body)
      else if |body| >= limits.bodyLines then Err(TooBig)
      else Body(arriving[1..], body + [Unstuffed(line)], total, limits)
  }

  method Multiline(arriving: seq<Line>, limits: Limits) returns (r: Result<seq<Line>, Pop3Error>)
    ensures r == Body(arriving, [], 0, limits)
  {
    var lines: seq<Line> := [];
    var bytes, i := 0, 0;
    assert arriving[0..] == arriving;
    while i < |arriving|
      invariant 0 <= i <= |arriving| && bytes >= 0
      invariant Body(arriving, [], 0, limits) == Body(arriving[i..], lines, bytes, limits)
    {
      var line := arriving[i];
      assert arriving[i..][1..] == arriving[i + 1..];
      bytes := bytes + |line| + 2;
      if bytes > limits.bodyBytes {
        return Err(TooBig);
      }
      if |line| == 1 && line[0] == DOT {
        return Ok(lines);
      }
      if |lines| >= limits.bodyLines {
        return Err(TooBig);
      }
      lines := lines + [Unstuffed(line)];
      i := i + 1;
    }
    return Err(Connection);
  }

  function Sent(body: seq<Line>): seq<Line> {
    Map(Stuffed, body)
  }

  lemma {:induction false} BodyFrom(body: seq<Line>, more: seq<Line>, read: seq<Line>, bytes: nat, limits: Limits)
    ensures Body(Sent(body) + [[DOT]] + more, read, bytes, limits)
            == if bytes + |Wire(Sent(body))| + 3 <= limits.bodyBytes && (body == [] || |read| + |body| <= limits.bodyLines)
               then Ok(read + body) else Err(TooBig)
  {
    var arriving := Sent(body) + [[DOT]] + more;
    if body == [] {
      assert read + body == read;
    } else {
      var line := Stuffed(body[0]);
      assert Sent(body)[1..] == Sent(body[1..]);
      assert arriving[1..] == Sent(body[1..]) + [[DOT]] + more;
      StuffedReadsBack(body[0]);
      BodyFrom(body[1..], more, read + [body[0]], bytes + |line| + 2, limits);
      assert read + [body[0]] + body[1..] == read + body;
    }
  }

  lemma StuffedReadsBack(line: Line)
    ensures Unstuffed(Stuffed(line)) == line && Stuffed(line) != [DOT]
  {
  }

  /** A dot-stuffed body comes back as it was sent exactly when it keeps to the bounds; otherwise it is too big. */
  lemma BodyComesBackIffWithinBounds(body: seq<Line>, more: seq<Line>, limits: Limits)
    ensures var r := Body(Sent(body) + [[DOT]] + more, [], 0, limits);
            && (r == Ok(body) <==> |Wire(Sent(body))| + 3 <= limits.bodyBytes && |body| <= limits.bodyLines)
            && (r != Ok(body) ==> r == Err(TooBig))
  {
    BodyFrom(body, more, [], 0, limits);
    assert [] + body == body;
  }

  /** The same from the bytes: a body sent in any chunks comes back when its lines keep to the line bound as well. */
  lemma SentBodyComesBack(body: seq<Line>, chunks: seq<seq<Byte>>, max: nat, limits: Limits)
    requires Flatten(chunks) == Wire(Sent(body) + [[DOT]])
    requires max >= 3 && forall k :: 0 <= k < |body| ==> Fits(Sent(body)[k], max)
    requires |Wire(Sent(body))| + 3 <= limits.bodyBytes && |body| <= limits.bodyLines
    ensures ReceiveAll(chunks, max).error.None?
    ensures Body(ReceiveAll(chunks, max).lines, [], 0, limits) == Ok(body)
  {
    var lines := Sent(body) + [[DOT]];
    ChunksDoNotMatter(chunks, max);
    assert Wire(lines) + [] == Wire(lines);
    ScanOfWire(lines, [], max);
    BodyComesBackIffWithinBounds(body, [], limits);
    assert lines + [] == lines;
  }
}
