/** Calendar documents: the stack parser, its grammar, and the printer. */
module ICalendarDocument {
  import opened Basics
  import opened ICalendarLines
  import opened ICalendarProperty
  import opened ICalendarText
  import opened Lists

  datatype Component = Component(name: string, properties: seq<Property>, children: seq<Component>)

  // The parser

  /** The open components, innermost first, above the components that were closed outside of any other. */
  datatype Stack = Roots(closed: seq<Component>) | Open(top: Component, below: Stack)

  function WithProperty(c: Component, p: Property): Component {
    c.(properties := c.properties + [p])
  }

  function WithChild(c: Component, child: Component): Component {
    c.(children := c.children + [child])
  }

  /** A closed component joins its parent, or the roots. */
  function Attach(c: Component, s: Stack): Stack {
    match s
    case Roots(closed) => Roots(closed + [c])
    case Open(top, below) => Open(WithChild(top, c), below)
  }

  function Advance(p: Property, s: Stack): Result<Stack, ICalendarError> {
    if p.name == "BEGIN" then Ok(Open(Component(Upper(p.value), [], []), s))
    else if p.name == "END" then
      if s.Roots? || s.top.name != Upper(p.value) then Err(NotBalanced) else Ok(Attach(s.top, s.below))
    else if s.Roots? then Err(OutsideComponent)
    else Ok(Open(WithProperty(s.top, p), s.below))
  }

  function Finish(s: Stack): Result<Component, ICalendarError> {
    if s.Open? || |s.closed| != 1 || s.closed[0].name != "VCALENDAR" then Err(NotOneCalendar) else Ok(s.closed[0])
  }

  function ReadLines(lines: seq<string>, s: Stack): Result<Component, ICalendarError> {
    if lines == [] then Finish(s)
    else
      var property := ParseLine(lines[0]);
      if property.Err? then Err(property.error)
      else
        var next := Advance(property.value, s);
        if next.Err? then Err(next.error) else ReadLines(lines[1..], next.value)
  }

  function ParseSource(source: string): Result<Component, ICalendarError> {
    var lines := UnfoldFrom(Physical(source), []);
    if lines.Err? then Err(lines.error) else ReadLines(lines.value, Roots([]))
  }

  method ParseComponents(source: string) returns (r: Result<Component, ICalendarError>)
    ensures r == ParseSource(source)
  {
    var s := Roots([]);
    var unfolded := Unfold(source);
    if unfolded.Err? {
      return Err(unfolded.error);
    }
    var lines := unfolded.value;
    var i: nat := 0;
    assert lines[0..] == lines;
    while i < |lines|
      invariant i <= |lines| && ParseSource(source) == ReadLines(lines[i..], s)
    {
      assert lines[i..][1..] == lines[i + 1..];
      var property := ParseProperty(lines[i]);
      if property.Err? {
        return Err(property.error);
      }
      var next := Advance(property.value, s);
      if next.Err? {
        return Err(next.error);
      }
      s := next.value;
      i := i + 1;
    }
    return Finish(s);
  }

  // The same reading of properties

  function Read(properties: seq<Property>, s: Stack): Result<Component, ICalendarError> {
    if properties == [] then Finish(s)
    else
      var next := Advance(properties[0], s);
      if next.Err? then Err(next.error) else Read(properties[1..], next.value)
  }

  function ParseLines(lines: seq<string>): Option<seq<Property>> {
    if lines == [] then Some([])
    else
      var first, rest := ParseLine(lines[0]), ParseLines(lines[1..]);
      if first.Err? || rest.None? then None else Some([first.value] + rest.value)
  }

  lemma {:induction false} LinesReadAsProperties(lines: seq<string>, s: Stack)
    ensures ParseLines(lines).Some? ==> ReadLines(lines, s) == Read(ParseLines(lines).value, s)
    ensures ParseLines(lines).None? ==> ReadLines(lines, s).Err?
  {
    if lines != [] {
      var first := ParseLine(lines[0]);
      if first.Ok? && Advance(first.value, s).Ok? {
        LinesReadAsProperties(lines[1..], Advance(first.value, s).value);
      }
    }
  }

  // The grammar of balanced documents

  /** Properties, and blocks from a BEGIN to the END of the same name, in a row. */
  datatype Items =
    | Nothing
    | Line(property: Property, rest: Items)
    | Block(open: Property, inside: Items, close: Property, rest: Items)

  predicate Matching(open: Property, close: Property) {
    open.name == "BEGIN" && close.name == "END" && Upper(open.value) == Upper(close.value)
  }

  predicate Balanced(items: Items) {
    match items
    case Nothing => true
    case Line(p, rest) => p.name != "BEGIN" && p.name != "END" && Balanced(rest)
    case Block(open, inside, close, rest) => Matching(open, close) && Balanced(inside) && Balanced(rest)
  }

  function Flat(items: Items): seq<Property> {
    match items
    case Nothing => []
    case Line(p, rest) => [p] + Flat(rest)
    case Block(open, inside, close, rest) => [open] + Flat(inside) + [close] + Flat(rest)
  }

  /** What the parser keeps of the items: properties and children of the component, each in their order. */
  function Collect(items: Items, into: Component): Component {
    match items
    case Nothing => into
    case Line(p, rest) => Collect(rest, WithProperty(into, p))
    case Block(open, inside, close, rest) => Collect(rest, WithChild(into, Collect(inside, Component(Upper(open.value), [], []))))
  }

  lemma {:induction false} CollectKeepsName(items: Items, into: Component)
    ensures Collect(items, into).name == into.name
  {
    match items
    case Nothing =>
    case Line(p, rest) => CollectKeepsName(rest, WithProperty(into, p));
    case Block(open, inside, close, rest) =>
      CollectKeepsName(rest, WithChild(into, Collect(inside, Component(Upper(open.value), [], []))));
  }

  lemma ReadOne(p: Property, more: seq<Property>, s: Stack)
    ensures Advance(p, s).Ok? ==> Read([p] + more, s) == Read(more, Advance(p, s).value)
  {
    assert ([p] + more)[1..] == more;
  }

  lemma FlatLineBefore(p: Property, rest: Items, more: seq<Property>)
    ensures Flat(Line(p, rest)) + more == [p] + (Flat(rest) + more)
  {
    Assoc([p], Flat(rest), more);
  }

  lemma FlatBlockBefore(open: Property, inside: Items, close: Property, rest: Items, more: seq<Property>)
    ensures Flat(Block(open, inside, close, rest)) + more == [open] + Flat(inside) + [close] + (Flat(rest) + more)
  {
    Assoc([open] + Flat(inside) + [close], Flat(rest), more);
  }

  /** Balanced items are collected into the innermost open component. */
  lemma {:induction false} BalancedItemsAreRead(items: Items, top: Component, below: Stack, more: seq<Property>)
    requires Balanced(items)
    ensures Read(Flat(items) + more, Open(top, below)) == Read(more, Open(Collect(items, top), below))
    decreases items, 0
  {
    match items {
      case Nothing =>
        assert Flat(items) + more == more;
      case Line(p, rest) =>
        FlatLineBefore(p, rest, more);
        ReadOne(p, Flat(rest) + more, Open(top, below));
        BalancedItemsAreRead(rest, WithProperty(top, p), below, more);
      case Block(open, inside, close, rest) =>
        FlatBlockBefore(open, inside, close, rest, more);
        BlockIsRead(open, inside, close, top, below, Flat(rest) + more);
        BalancedItemsAreRead(rest, WithChild(top, Collect(inside, Component(Upper(open.value), [], []))), below, more);
    }
  }

  lemma {:induction false} BlockIsRead(open: Property, inside: Items, close: Property, top: Component, below: Stack, tail: seq<Property>)
    requires Matching(open, close) && Balanced(inside)
    ensures Read([open] + Flat(inside) + [close] + tail, Open(top, below))
            == Read(tail, Open(WithChild(top, Collect(inside, Component(Upper(open.value), [], []))), below))
    decreases inside, 1
  {
    var started := Component(Upper(open.value), [], []);
    ReadOne(open, Flat(inside) + ([close] + tail), Open(top, below));
    assert [open] + Flat(inside) + [close] + tail == [open] + (Flat(inside) + ([close] + tail));
    BalancedItemsAreRead(inside, started, Open(top, below), [close] + tail);
    CollectKeepsName(inside, started);
    ReadOne(close, tail, Open(Collect(inside, started), Open(top, below)));
  }

  /** One balanced VCALENDAR block, and the component it stands for. */
  ghost predicate IsCalendar(properties: seq<Property>, open: Property, inside: Items, close: Property, c: Component) {
    && properties == [open] + Flat(inside) + [close]
    && Matching(open, close) && Upper(open.value) == "VCALENDAR" && Balanced(inside)
    && c == Collect(inside, Component("VCALENDAR", [], []))
  }

  lemma CalendarsAreRead(properties: seq<Property>, open: Property, inside: Items, close: Property, c: Component)
    requires IsCalendar(properties, open, inside, close, c)
    ensures Read(properties, Roots([])) == Ok(c)
  {
    var root := Component("VCALENDAR", [], []);
    ReadOne(open, Flat(inside) + [close], Roots([]));
    assert properties == [open] + (Flat(inside) + [close]);
    BalancedItemsAreRead(inside, root, Roots([]), [close]);
    CollectKeepsName(inside, root);
    assert [close] + [] == [close];
    ReadOne(close, [], Open(c, Roots([])));
    assert [] + [c] == [c];
  }

  lemma FlatOfBlock(open: Property, inside: Items, close: Property, rest: Items, end: Property, more: seq<Property>)
    ensures Flat(Block(open, inside, close, rest)) + [end] + more == [open] + (Flat(inside) + [close] + (Flat(rest) + [end] + more))
  {
  }

  lemma FlatOfLine(p: Property, rest: Items, end: Property, more: seq<Property>)
    ensures Flat(Line(p, rest)) + [end] + more == [p] + (Flat(rest) + [end] + more)
  {
    Assoc([p], Flat(rest), [end]);
    Assoc([p], Flat(rest) + [end], more);
  }

  lemma FlatOfNothing(end: Property, more: seq<Property>)
    ensures Flat(Nothing) + [end] + more == [end] + more
  {
  }

  /** What is accepted first closes the innermost open component. */
  lemma {:induction false} AcceptedClosesTop(properties: seq<Property>, top: Component, below: Stack)
      returns (items: Items, close: Property, more: seq<Property>)
    requires Read(properties, Open(top, below)).Ok?
    ensures properties == Flat(items) + [close] + more && Balanced(items)
    ensures close.name == "END" && top.name == Upper(close.value)
    ensures Read(properties, Open(top, below)) == Read(more, Attach(Collect(items, top), below))
    decreases |properties|, 0
  {
    var p, rest := properties[0], properties[1..];
    assert properties == [p] + rest;
    if p.name == "END" {
      items, close, more := Nothing, p, rest;
      FlatOfNothing(close, more);
    } else if p.name == "BEGIN" {
      items, close, more := AcceptedBlock(p, rest, top, below);
    } else {
      var items2;
      items2, close, more := AcceptedClosesTop(rest, WithProperty(top, p), below);
      items := Line(p, items2);
      FlatOfLine(p, items2, close, more);
    }
  }

  /** The same behind a BEGIN: first its block is closed, then the component around it. */
  lemma {:induction false} AcceptedBlock(open: Property, rest: seq<Property>, top: Component, below: Stack)
      returns (items: Items, close: Property, more: seq<Property>)
    requires open.name == "BEGIN"
    requires Read(rest, Open(Component(Upper(open.value), [], []), Open(top, below))).Ok?
    ensures [open] + rest == Flat(items) + [close] + more && Balanced(items)
    ensures close.name == "END" && top.name == Upper(close.value)
    ensures Read(rest, Open(Component(Upper(open.value), [], []), Open(top, below))) == Read(more, Attach(Collect(items, top), below))
    decreases |rest|, 1
  {
    var started := Component(Upper(open.value), [], []);
    var inside, close1, more1 := AcceptedClosesTop(rest, started, Open(top, below));
    var items2;
    items2, close, more := AcceptedClosesTop(more1, WithChild(top, Collect(inside, started)), below);
    items := Block(open, inside, close1, items2);
    FlatOfBlock(open, inside, close1, items2, close, more);
  }

  function RootCount(s: Stack): nat {
    match s
    case Roots(closed) => |closed|
    case Open(_, below) => (if below.Roots? then 1 else 0) + RootCount(below)
  }

  /** A second root, or anything behind the first, is never accepted. */
  lemma {:induction false} AtMostOneRoot(properties: seq<Property>, s: Stack)
    requires Read(properties, s).Ok?
    ensures RootCount(s) <= 1
    ensures s.Roots? && |s.closed| == 1 ==> properties == []
  {
    if properties != [] {
      AtMostOneRoot(properties[1..], Advance(properties[0], s).value);
    }
  }

  lemma AcceptedIsACalendar(properties: seq<Property>) returns (open: Property, inside: Items, close: Property)
    requires Read(properties, Roots([])).Ok?
    ensures IsCalendar(properties, open, inside, close, Read(properties, Roots([])).value)
  {
    open := properties[0];
    var root := Component(Upper(open.value), [], []);
    var more;
    inside, close, more := AcceptedClosesTop(properties[1..], root, Roots([]));
    AtMostOneRoot(more, Roots([] + [Collect(inside, root)]));
    CollectKeepsName(inside, root);
    assert properties == [open] + properties[1..];
  }

  /** A source is accepted exactly when it unfolds to lines that are one balanced VCALENDAR, which is what is returned. */
  lemma AcceptedIffCalendar(source: string, c: Component)
    ensures ParseSource(source) == Ok(c) <==>
              (exists lines, properties, open, inside, close ::
                 && UnfoldFrom(Physical(source), []) == Ok(lines)
                 && ParseLines(lines) == Some(properties)
                 && IsCalendar(properties, open, inside, close, c))
  {
    var unfolded := UnfoldFrom(Physical(source), []);
    if unfolded.Ok? {
      var lines := unfolded.value;
      LinesReadAsProperties(lines, Roots([]));
      if ParseSource(source) == Ok(c) {
        var properties := ParseLines(lines).value;
        var open, inside, close := AcceptedIsACalendar(properties);
        assert IsCalendar(properties, open, inside, close, c);
      }
      forall properties, open, inside, close |
          ParseLines(lines) == Some(properties) && IsCalendar(properties, open, inside, close, c)
        ensures ParseSource(source) == Ok(c)
      {
        CalendarsAreRead(properties, open, inside, close, c);
      }
    }
  }

  // The printer

  /** A component to be printed: entries and blocks in a row. */
  datatype Nodes =
    | Empty
    | Printed(entry: Entry, rest: Nodes)
    | Nested(name: string, inside: Nodes, rest: Nodes)

  function BeginEntry(name: string): Entry {
    Entry("BEGIN", [], name)
  }

  function EndEntry(name: string): Entry {
    Entry("END", [], name)
  }

  function Entries(nodes: Nodes): seq<Entry> {
    match nodes
    case Empty => []
    case Printed(entry, rest) => [entry] + Entries(rest)
    case Nested(name, inside, rest) => [BeginEntry(name)] + Entries(inside) + [EndEntry(name)] + Entries(rest)
  }

  /** Entries do not pose as BEGIN or END, and component names are upper case on one line. */
  ghost predicate Printable(nodes: Nodes) {
    match nodes
    case Empty => true
    case Printed(entry, rest) => SafeEntry(entry) && entry.name != "BEGIN" && entry.name != "END" && Printable(rest)
    case Nested(name, inside, rest) => Upper(name) == name && NoBreak(name) && Printable(inside) && Printable(rest)
  }

  /** In no line a quoted value swallows what stands behind it. */
  predicate SettledNodes(nodes: Nodes) {
    match nodes
    case Empty => true
    case Printed(entry, rest) => Settled(entry.parameters) && SettledNodes(rest)
    case Nested(_, inside, rest) => SettledNodes(inside) && SettledNodes(rest)
  }

  function Meaning(nodes: Nodes, into: Component): Component {
    match nodes
    case Empty => into
    case Printed(entry, rest) => Meaning(rest, WithProperty(into, PropertyOf(entry)))
    case Nested(name, inside, rest) => Meaning(rest, WithChild(into, Meaning(inside, Component(name, [], []))))
  }

  /** The folded file: physical lines of all entries, each with CRLF. */
  function PhysicalLines(nodes: Nodes): seq<string> {
    FoldAll(Map(PrintEntry, Entries(nodes)))
  }

  function PrintDocument(calendar: Nodes): string {
    Text(PhysicalLines(Nested("VCALENDAR", calendar, Empty)))
  }

  function ItemsOf(nodes: Nodes): Items {
    match nodes
    case Empty => Nothing
    case Printed(entry, rest) => Line(PropertyOf(entry), ItemsOf(rest))
    case Nested(name, inside, rest) => Block(PropertyOf(BeginEntry(name)), ItemsOf(inside), PropertyOf(EndEntry(name)), ItemsOf(rest))
  }

  lemma FencesAreSafe(name: string)
    requires NoBreak(name)
    ensures SafeEntry(BeginEntry(name)) && SafeEntry(EndEntry(name))
    ensures PropertyOf(BeginEntry(name)).name == "BEGIN" && PropertyOf(BeginEntry(name)).value == name
    ensures PropertyOf(EndEntry(name)).name == "END" && PropertyOf(EndEntry(name)).value == name
  {
    forall k | 0 <= k < 5 ensures Letter("BEGIN"[k]) {}
    forall k | 0 <= k < 3 ensures Letter("END"[k]) {}
  }

  lemma {:induction false} NodesAreBalanced(nodes: Nodes, into: Component)
    requires Printable(nodes)
    ensures Balanced(ItemsOf(nodes)) && Collect(ItemsOf(nodes), into) == Meaning(nodes, into)
    decreases nodes
  {
    match nodes {
      case Empty =>
      case Printed(entry, rest) =>
        NodesAreBalanced(rest, WithProperty(into, PropertyOf(entry)));
      case Nested(name, inside, rest) =>
        FencesAreSafe(name);
        NodesAreBalanced(inside, Component(name, [], []));
        NodesAreBalanced(rest, WithChild(into, Meaning(inside, Component(name, [], []))));
    }
  }

  ghost predicate SafeEntries(entries: seq<Entry>) {
    forall k :: 0 <= k < |entries| ==> SafeEntry(entries[k])
  }

  predicate SettledEntries(entries: seq<Entry>) {
    forall k :: 0 <= k < |entries| ==> Settled(entries[k].parameters)
  }

  lemma {:induction false} NodesPrintAsItems(nodes: Nodes)
    requires Printable(nodes)
    ensures Flat(ItemsOf(nodes)) == Map(PropertyOf, Entries(nodes))
    decreases nodes
  {
    match nodes {
      case Empty =>
      case Printed(entry, rest) =>
        NodesPrintAsItems(rest);
      case Nested(name, inside, rest) =>
        NodesPrintAsItems(inside);
        NodesPrintAsItems(rest);
        MapOfNested(name, Entries(inside), Entries(rest));
    }
  }

  lemma {:induction false} PrintedEntriesAreSafe(nodes: Nodes)
    requires Printable(nodes)
    ensures SafeEntries(Entries(nodes))
    decreases nodes
  {
    match nodes {
      case Empty =>
      case Printed(entry, rest) =>
        PrintedEntriesAreSafe(rest);
      case Nested(name, inside, rest) =>
        FencesAreSafe(name);
        PrintedEntriesAreSafe(inside);
        PrintedEntriesAreSafe(rest);
    }
  }

  lemma {:induction false} EntriesAreSettledIff(nodes: Nodes)
    ensures SettledEntries(Entries(nodes)) <==> SettledNodes(nodes)
    decreases nodes
  {
    match nodes {
      case Empty =>
      case Printed(entry, rest) =>
        EntriesAreSettledIff(rest);
        OneIsSettledIff(entry);
        SettledConcat([entry], Entries(rest));
      case Nested(name, inside, rest) =>
        EntriesAreSettledIff(inside);
        EntriesAreSettledIff(rest);
        OneIsSettledIff(BeginEntry(name));
        OneIsSettledIff(EndEntry(name));
        SettledConcat([BeginEntry(name)], Entries(inside));
        SettledConcat([BeginEntry(name)] + Entries(inside), [EndEntry(name)]);
        SettledConcat([BeginEntry(name)] + Entries(inside) + [EndEntry(name)], Entries(rest));
    }
  }

  lemma OneIsSettledIff(entry: Entry)
    ensures SettledEntries([entry]) <==> Settled(entry.parameters)
  {
    assert [entry][0] == entry;
  }

  lemma SettledConcat(a: seq<Entry>, b: seq<Entry>)
    ensures SettledEntries(a + b) <==> SettledEntries(a) && SettledEntries(b)
  {
    if SettledEntries(a + b) {
      forall k | 0 <= k < |a| ensures Settled(a[k].parameters) { assert (a + b)[k] == a[k]; }
      forall k | 0 <= k < |b| ensures Settled(b[k].parameters) { assert (a + b)[|a| + k] == b[k]; }
    }
  }

  lemma MapOfNested(name: string, inside: seq<Entry>, rest: seq<Entry>)
    ensures Map(PropertyOf, [BeginEntry(name)] + inside + [EndEntry(name)] + rest)
            == [PropertyOf(BeginEntry(name))] + Map(PropertyOf, inside) + [PropertyOf(EndEntry(name))] + Map(PropertyOf, rest)
  {
  }

  lemma {:induction false} ParseEach(lines: seq<string>, properties: seq<Property>)
    requires |lines| == |properties| && forall k :: 0 <= k < |lines| ==> ParseLine(lines[k]) == Ok(properties[k])
    ensures ParseLines(lines) == Some(properties)
  {
    if lines != [] {
      ParseEach(lines[1..], properties[1..]);
      assert properties == [properties[0]] + properties[1..];
    }
  }

  lemma PrintedEntriesParse(entries: seq<Entry>)
    requires SafeEntries(entries) && SettledEntries(entries)
    ensures ParseLines(Map(PrintEntry, entries)) == Some(Map(PropertyOf, entries))
  {
    forall k | 0 <= k < |entries| ensures ParseLine(PrintEntry(entries[k])) == Ok(PropertyOf(entries[k])) {
      SettledEntryReadsBack(entries[k]);
    }
    ParseEach(Map(PrintEntry, entries), Map(PropertyOf, entries));
  }

  lemma PrintedEntriesAreContentLines(entries: seq<Entry>)
    requires SafeEntries(entries)
    ensures forall k :: 0 <= k < |entries| ==> ContentLine(Map(PrintEntry, entries)[k])
  {
    forall k | 0 <= k < |entries| ensures ContentLine(Map(PrintEntry, entries)[k]) {
      PrintedLineKeepsName(entries[k]);
    }
  }

  /** A folded file of safe entries is read as its lines are. */
  lemma EntriesAreRead(entries: seq<Entry>)
    requires SafeEntries(entries)
    ensures var lines := Map(PrintEntry, entries);
            ParseSource(Text(FoldAll(lines))) == ReadLines(lines, Roots([]))
  {
    PrintedEntriesAreContentLines(entries);
    UnfoldUndoesFold(Map(PrintEntry, entries));
  }

  lemma PrintedProperties(name: string, inside: Nodes)
    requires Printable(inside)
    ensures Map(PropertyOf, Entries(Nested(name, inside, Empty)))
            == [PropertyOf(BeginEntry(name))] + Flat(ItemsOf(inside)) + [PropertyOf(EndEntry(name))]
  {
    NodesPrintAsItems(inside);
    MapOfNested(name, Entries(inside), []);
    var properties := [PropertyOf(BeginEntry(name))] + Flat(ItemsOf(inside)) + [PropertyOf(EndEntry(name))];
    assert Map(PropertyOf, []) == [] && properties + [] == properties;
  }

  lemma CalendarFencesMatch()
    ensures var open, close := PropertyOf(BeginEntry("VCALENDAR")), PropertyOf(EndEntry("VCALENDAR"));
            Matching(open, close) && Upper(open.value) == "VCALENDAR"
  {
    CalendarNameIsUpper();
    FencesAreSafe("VCALENDAR");
  }

  lemma PrintedCalendarIsCalendar(calendar: Nodes, open: Property, close: Property)
    requires Printable(calendar)
    requires open == PropertyOf(BeginEntry("VCALENDAR")) && close == PropertyOf(EndEntry("VCALENDAR"))
    ensures IsCalendar(Map(PropertyOf, Entries(Nested("VCALENDAR", calendar, Empty))), open, ItemsOf(calendar), close,
                       Meaning(calendar, Component("VCALENDAR", [], [])))
  {
    NodesAreBalanced(calendar, Component("VCALENDAR", [], []));
    PrintedProperties("VCALENDAR", calendar);
    CalendarFencesMatch();
  }

  lemma SettledDocumentReadsBack(calendar: Nodes)
    requires Printable(calendar) && SettledNodes(calendar)
    ensures ParseSource(PrintDocument(calendar)) == Ok(Meaning(calendar, Component("VCALENDAR", [], [])))
  {
    var whole := Nested("VCALENDAR", calendar, Empty);
    var open, close := PropertyOf(BeginEntry("VCALENDAR")), PropertyOf(EndEntry("VCALENDAR"));
    PrintedCalendarIsCalendar(calendar, open, close);
    CalendarsAreRead(Map(PropertyOf, Entries(whole)), open, ItemsOf(calendar), close, Meaning(calendar, Component("VCALENDAR", [], [])));
    WholeIsSafe(calendar);
    EntriesAreRead(Entries(whole));
    PrintedEntriesParse(Entries(whole));
    LinesReadAsProperties(Map(PrintEntry, Entries(whole)), Roots([]));
  }

  lemma WholeIsSafe(calendar: Nodes)
    requires Printable(calendar)
    ensures var entries := Entries(Nested("VCALENDAR", calendar, Empty));
            SafeEntries(entries) && (SettledEntries(entries) <==> SettledNodes(calendar))
  {
    CalendarNameIsUpper();
    PrintedEntriesAreSafe(Nested("VCALENDAR", calendar, Empty));
    EntriesAreSettledIff(Nested("VCALENDAR", calendar, Empty));
  }

  // A spoiled line is never read as what was printed

  /** No value of a parameter has a double quote. */
  ghost predicate Clean(c: Component) {
    && (forall k :: 0 <= k < |c.properties| ==> !HasQuote(c.properties[k].params))
    && (forall k :: 0 <= k < |c.children| ==> Clean(c.children[k]))
  }

  ghost predicate CleanStack(s: Stack) {
    match s
    case Roots(closed) => forall k :: 0 <= k < |closed| ==> Clean(closed[k])
    case Open(top, below) => Clean(top) && CleanStack(below)
  }

  /** What is clean after a line was so before, and the line, unless it is a BEGIN or END, is clean too. */
  lemma CleanBeforeAdvance(p: Property, s: Stack)
    requires Advance(p, s).Ok? && CleanStack(Advance(p, s).value)
    ensures CleanStack(s) && (HasQuote(p.params) ==> p.name == "BEGIN" || p.name == "END")
  {
    if p.name == "END" {
      CleanBeforeAttach(s.top, s.below);
    } else if p.name != "BEGIN" {
      var top := s.top;
      var after := WithProperty(top, p);
      forall k | 0 <= k < |top.properties| ensures !HasQuote(top.properties[k].params) {
        assert after.properties[k] == top.properties[k];
      }
      assert after.properties[|top.properties|] == p;
    }
  }

  lemma CleanBeforeAttach(c: Component, s: Stack)
    requires CleanStack(Attach(c, s))
    ensures Clean(c) && CleanStack(s)
  {
    match s
    case Roots(closed) =>
      assert (closed + [c])[|closed|] == c;
      forall k | 0 <= k < |closed| ensures Clean(closed[k]) { assert (closed + [c])[k] == closed[k]; }
    case Open(top, below) =>
      var after := WithChild(top, c);
      assert after.children[|top.children|] == c;
      forall k | 0 <= k < |top.children| ensures Clean(top.children[k]) { assert after.children[k] == top.children[k]; }
  }

  lemma {:induction false} CleanResultMeansCleanLines(lines: seq<string>, s: Stack, k: nat)
    requires ReadLines(lines, s).Ok? && Clean(ReadLines(lines, s).value)
    ensures CleanStack(s)
    ensures k < |lines| ==>
              && ParseLine(lines[k]).Ok?
              && var p := ParseLine(lines[k]).value;
                 HasQuote(p.params) ==> p.name == "BEGIN" || p.name == "END"
    decreases |lines|
  {
    if lines != [] {
      var p := ParseLine(lines[0]).value;
      CleanResultMeansCleanLines(lines[1..], Advance(p, s).value, if k == 0 then 0 else k - 1);
      CleanBeforeAdvance(p, s);
    }
  }

  lemma {:induction false} MeaningIsClean(nodes: Nodes, into: Component)
    requires Printable(nodes) && Clean(into)
    ensures Clean(Meaning(nodes, into))
    decreases nodes
  {
    match nodes {
      case Empty =>
      case Printed(entry, rest) =>
        GatheredHasNoQuote(entry.parameters, map[]);
        MeaningIsClean(rest, WithProperty(into, PropertyOf(entry)));
      case Nested(name, inside, rest) =>
        MeaningIsClean(inside, Component(name, [], []));
        MeaningIsClean(rest, WithChild(into, Meaning(inside, Component(name, [], []))));
    }
  }

  lemma {:induction false} FencesAreSettled(nodes: Nodes, k: nat)
    requires Printable(nodes) && k < |Entries(nodes)| && !Settled(Entries(nodes)[k].parameters)
    ensures Entries(nodes)[k].name != "BEGIN" && Entries(nodes)[k].name != "END"
    decreases nodes
  {
    match nodes {
      case Empty =>
      case Printed(entry, rest) =>
        if k > 0 { FencesAreSettled(rest, k - 1); }
      case Nested(name, inside, rest) =>
        var n := |Entries(inside)|;
        if 0 < k <= n {
          FencesAreSettled(inside, k - 1);
        } else if k > n + 1 {
          FencesAreSettled(rest, k - n - 2);
        }
    }
  }

  lemma UnsettledDocumentDiffers(calendar: Nodes, k: nat)
    requires Printable(calendar)
    requires var entries := Entries(Nested("VCALENDAR", calendar, Empty));
             k < |entries| && !Settled(entries[k].parameters)
    ensures ParseSource(PrintDocument(calendar)) != Ok(Meaning(calendar, Component("VCALENDAR", [], [])))
  {
    var whole := Nested("VCALENDAR", calendar, Empty);
    var entries := Entries(whole);
    WholeIsSafe(calendar);
    EntriesAreRead(entries);
    CalendarNameIsUpper();
    FencesAreSettled(whole, k);
    MeaningIsClean(calendar, Component("VCALENDAR", [], []));
    if ParseSource(PrintDocument(calendar)) == Ok(Meaning(calendar, Component("VCALENDAR", [], []))) {
      CleanResultMeansCleanLines(Map(PrintEntry, entries), Roots([]), k);
      UnsettledEntryIsSpoiled(entries[k]);
    }
  }

  /** Printing a calendar, folding it and reading the file gives the calendar back exactly when in every
      line no quoted value but the last ends in an odd number of backslashes. */
  lemma PrintedDocumentReadsBackIff(calendar: Nodes)
    requires Printable(calendar)
    ensures ParseSource(PrintDocument(calendar)) == Ok(Meaning(calendar, Component("VCALENDAR", [], [])))
            <==> SettledNodes(calendar)
  {
    if SettledNodes(calendar) {
      SettledDocumentReadsBack(calendar);
    } else {
      WholeIsSafe(calendar);
      var entries := Entries(Nested("VCALENDAR", calendar, Empty));
      var k :| 0 <= k < |entries| && !Settled(entries[k].parameters);
      UnsettledDocumentDiffers(calendar, k);
    }
  }

  lemma CalendarNameIsUpper()
    ensures Upper("VCALENDAR") == "VCALENDAR" && NoBreak("VCALENDAR")
  {
    forall k | 0 <= k < 9 ensures Letter("VCALENDAR"[k]) {}
    LettersAreUpper("VCALENDAR");
  }

  lemma LettersAreUpper(s: string)
    requires forall k :: 0 <= k < |s| ==> Letter(s[k])
    ensures Upper(s) == s && NoBreak(s)
  {
    assert forall k :: 0 <= k < |s| ==> Upper(s)[k] == s[k];
  }

  lemma {:induction false} FoldAllFits(lines: seq<string>)
    ensures forall k :: 0 <= k < |FoldAll(lines)| ==> ByteLength(FoldAll(lines)[k]) <= LINE_OCTETS
  {
    if lines != [] {
      FoldedLinesFit(lines[0]);
      FoldAllFits(lines[1..]);
    }
  }

  /** Every physical line of a printed calendar keeps to 75 octets. */
  lemma PrintedLinesFit(nodes: Nodes)
    ensures forall k :: 0 <= k < |PhysicalLines(nodes)| ==> ByteLength(PhysicalLines(nodes)[k]) <= LINE_OCTETS
  {
    FoldAllFits(Map(PrintEntry, Entries(nodes)));
  }
}
