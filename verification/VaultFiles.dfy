/** The files of the token vault: replacement by rename, the displaced-file fallback, and recovery on reading.
    One operation runs at a time; a crash or a failing call may end it at any step. */
module VaultFiles {
  import opened Basics
  import opened VaultDocument

  datatype Content = Torn | Whole(document: Document)

  datatype Op =
    | Idle
    | LookingForMain
    | LookingAside
    | Cleaning(found: Document)
    | Loaded(found: Document)
    | Filling(before: Document, after: Document, temp: nat)
    | Renaming(before: Document, after: Document, temp: nat)
    | Replaced(before: Document, after: Document, temp: nat)
    | Refused(before: Document, after: Document, temp: nat)
    | Displacing(before: Document, after: Document, temp: nat)
    | Installing(before: Document, after: Document, temp: nat)
    | Installed(before: Document, after: Document, temp: nat)
    | Settling(before: Document, after: Document, temp: nat)
    | Discarding(before: Document, after: Document, temp: nat)
    | Restoring(before: Document, after: Document, temp: nat)

  /** What callers get to see: documents read, and documents whose writing began, acknowledged or not. */
  datatype Note = Read(document: Document) | Write(document: Document, acknowledged: bool)

  datatype Vault = Vault(main: Option<Content>, previous: Option<Content>, temps: map<nat, Content>, op: Op, log: seq<Note>)

  datatype Event =
    | Start
    | FindMain
    | MissMain
    | RecoverPrevious
    | MissPrevious
    | RemovePrevious
    | RemoveTemp(temp: nat)
    | FinishLoad
    | BeginWrite(document: Document, unused: nat)
    | FillTemp
    | RenameTemp
    | RefuseRename
    | Acknowledge
    | MistrustReplaced
    | RemoveStale(done: bool)
    | Displace
    | Install
    | RollBack
    | DropDisplaced
    | Discard(done: bool)
    | Restore(done: bool)
    | Stop

  predicate Writing(op: Op) {
    !op.Idle? && !op.LookingForMain? && !op.LookingAside? && !op.Cleaning? && !op.Loaded?
  }

  predicate Enabled(e: Event, v: Vault) {
    match e
    case Start => v.op.Idle?
    case FindMain => v.op.LookingForMain? && v.main.Some? && v.main.value.Whole?
    case MissMain => v.op.LookingForMain? && v.main.None?
    case RecoverPrevious => v.op.LookingAside? && v.previous.Some? && v.previous.value.Whole?
    case MissPrevious => v.op.LookingAside? && v.previous.None?
    case RemovePrevious => v.op.Cleaning?
    case RemoveTemp(_) => v.op.Cleaning? || v.op.Idle?
    case FinishLoad => v.op.Cleaning?
    case BeginWrite(_, t) => v.op.Loaded? && t !in v.temps
    case FillTemp => v.op.Filling?
    case RenameTemp => v.op.Renaming? && v.op.temp in v.temps
    case RefuseRename => v.op.Renaming?
    case Acknowledge => v.op.Replaced? || v.op.Settling?
    case MistrustReplaced => v.op.Replaced?
    case RemoveStale(_) => v.op.Refused?
    case Displace => v.op.Displacing? && v.main.Some?
    case Install => v.op.Installing? && v.op.temp in v.temps
    case RollBack => v.op.Installing? || v.op.Installed?
    case DropDisplaced => v.op.Installed?
    case Discard(_) => v.op.Discarding?
    case Restore(done) => v.op.Restoring? && (done ==> v.previous.Some?)
    case Stop => true
  }

  function Apply(e: Event, v: Vault): Vault
    requires Enabled(e, v)
  {
    match e
    case Start => v.(op := LookingForMain)
    case FindMain => v.(op := Cleaning(v.main.value.document))
    case MissMain => v.(op := LookingAside)
    case RecoverPrevious => v.(main := v.previous, previous := None, op := Cleaning(v.previous.value.document))
    case MissPrevious => v.(op := Cleaning(EMPTY))
    case RemovePrevious => v.(previous := None)
    case RemoveTemp(t) => v.(temps := v.temps - {t})
    case FinishLoad => v.(op := Loaded(v.op.found), log := v.log + [Read(v.op.found)])
    case BeginWrite(d, t) =>
      v.(temps := v.temps[t := Torn], op := Filling(v.op.found, d, t), log := v.log + [Write(d, false)])
    case FillTemp => v.(temps := v.temps[v.op.temp := Whole(v.op.after)], op := Renaming(v.op.before, v.op.after, v.op.temp))
    case RenameTemp =>
      v.(main := Some(v.temps[v.op.temp]), temps := v.temps - {v.op.temp}, op := Replaced(v.op.before, v.op.after, v.op.temp))
    case RefuseRename => v.(op := Refused(v.op.before, v.op.after, v.op.temp))
    case Acknowledge => v.(op := Idle, log := Acknowledged(v.log))
    case MistrustReplaced => v.(op := Refused(v.op.before, v.op.after, v.op.temp))
    case RemoveStale(done) => v.(previous := if done then None else v.previous, op := Displacing(v.op.before, v.op.after, v.op.temp))
    case Displace => v.(previous := v.main, main := None, op := Installing(v.op.before, v.op.after, v.op.temp))
    case Install =>
      v.(main := Some(v.temps[v.op.temp]), temps := v.temps - {v.op.temp}, op := Installed(v.op.before, v.op.after, v.op.temp))
    case RollBack => v.(op := Discarding(v.op.before, v.op.after, v.op.temp))
    case DropDisplaced => v.(previous := None, op := Settling(v.op.before, v.op.after, v.op.temp))
    case Discard(done) => v.(main := if done then None else v.main, op := Restoring(v.op.before, v.op.after, v.op.temp))
    case Restore(done) =>
      if done then v.(main := v.previous, previous := None, op := Idle) else v.(op := Idle)
    case Stop => v.(op := Idle)
  }

  function Acknowledged(log: seq<Note>): seq<Note> {
    if log != [] && log[|log| - 1].Write? then log[|log| - 1 := log[|log| - 1].(acknowledged := true)] else log
  }

  /** What a reader finds: the main file, or else the displaced one, or else nothing. */
  function Resolve(v: Vault): Document {
    if v.main.Some? && v.main.value.Whole? then v.main.value.document
    else if v.main.None? && v.previous.Some? && v.previous.value.Whole? then v.previous.value.document
    else EMPTY
  }

  // Invariants

  ghost predicate FilesAreWhole(v: Vault) {
    && (v.main.Some? ==> v.main.value.Whole?)
    && (v.previous.Some? ==> v.previous.value.Whole?)
  }

  /** In each step of an operation, what a reader would find. */
  ghost predicate InStep(v: Vault) {
    match v.op
    case Idle => true
    case LookingForMain => true
    case LookingAside => v.main.None?
    case Cleaning(found) => Resolve(v) == found && (v.main.Some? || v.previous.None?)
    case Loaded(found) => Resolve(v) == found && (v.main.Some? || v.previous.None?)
    case Filling(before, _, _) => Resolve(v) == before && (v.main.Some? || v.previous.None?)
    case Renaming(before, after, temp) =>
      && Resolve(v) == before && (v.main.Some? || v.previous.None?)
      && (temp in v.temps ==> v.temps[temp] == Whole(after))
    case Replaced(_, after, temp) => v.main == Some(Whole(after)) && temp !in v.temps
    case Refused(before, after, temp) => AboutToDisplace(v, before, after, temp)
    case Displacing(before, after, temp) => AboutToDisplace(v, before, after, temp)
    case Installing(before, after, temp) =>
      && v.main.None? && v.previous.Some?
      && (Resolve(v) == before || Resolve(v) == after)
      && (temp in v.temps ==> v.temps[temp] == Whole(after))
    case Installed(before, after, temp) => v.main == Some(Whole(after)) && Aside(v, before, after)
    case Settling(_, after, _) => v.main == Some(Whole(after))
    case Discarding(before, after, _) =>
      Aside(v, before, after) && (v.main.Some? ==> v.main == Some(Whole(after)))
    case Restoring(before, after, _) =>
      Aside(v, before, after) && (v.main.Some? ==> v.main == Some(Whole(after)))
  }

  ghost predicate AboutToDisplace(v: Vault, before: Document, after: Document, temp: nat) {
    && (v.main.Some? || v.previous.None?)
    && (temp in v.temps ==> v.temps[temp] == Whole(after))
    && (Resolve(v) == before || Resolve(v) == after)
  }

  /** The displaced file holds one of the two documents. */
  ghost predicate Aside(v: Vault, before: Document, after: Document) {
    v.previous == Some(Whole(before)) || v.previous == Some(Whole(after))
  }

  /** The documents that the next read may return, given what callers have seen. */
  function Possible(log: seq<Note>): set<Document> {
    if log == [] then {EMPTY}
    else if log[|log| - 1].Read? then {log[|log| - 1].document}
    else if log[|log| - 1].acknowledged then {log[|log| - 1].document}
    else {log[|log| - 1].document} + Possible(log[..|log| - 1])
  }

  /** Every read returns the outcome of the write before it: the document if acknowledged, else that or the one read before. */
  ghost predicate Consistent(log: seq<Note>) {
    forall k :: 0 <= k < |log| && log[k].Read? ==> log[k].document in Possible(log[..k])
  }

  ghost predicate LogMatches(v: Vault) {
    && Consistent(v.log)
    && Resolve(v) in Possible(v.log)
    && (v.op.Loaded? ==> v.log != [] && v.log[|v.log| - 1] == Read(v.op.found))
    && (Writing(v.op) ==> |v.log| >= 2 && v.log[|v.log| - 1] == Write(v.op.after, false) && v.log[|v.log| - 2] == Read(v.op.before))
  }

  ghost predicate Inv(v: Vault) {
    FilesAreWhole(v) && InStep(v) && LogMatches(v)
  }

  /** Each step leaves what a reader finds alone, or moves it between the two documents of the write under way. */
  lemma StepStuttersOrSwitches(e: Event, v: Vault)
    requires FilesAreWhole(v) && InStep(v) && Enabled(e, v)
    ensures FilesAreWhole(Apply(e, v)) && InStep(Apply(e, v))
    ensures Resolve(Apply(e, v)) == Resolve(v)
            || (Writing(v.op) && Resolve(Apply(e, v)) in {v.op.before, v.op.after} && Resolve(v) in {v.op.before, v.op.after})
  {
  }

  lemma WriteLeavesTwo(log: seq<Note>, before: Document, after: Document)
    requires |log| >= 2 && log[|log| - 1] == Write(after, false) && log[|log| - 2] == Read(before)
    ensures Possible(log) == {before, after}
  {
    assert log[..|log| - 1][|log| - 2] == Read(before);
  }

  lemma NoteKeepsConsistent(log: seq<Note>, n: Note)
    requires Consistent(log) && (n.Read? ==> n.document in Possible(log))
    ensures Consistent(log + [n])
  {
    var longer := log + [n];
    forall k | 0 <= k < |longer| && longer[k].Read? ensures longer[k].document in Possible(longer[..k]) {
      assert longer[..k] == log[..k];
      if k == |log| { assert log[..k] == log; }
    }
  }

  lemma AcknowledgingKeepsConsistent(log: seq<Note>)
    requires Consistent(log) && log != [] && log[|log| - 1].Write?
    ensures Consistent(Acknowledged(log)) && Possible(Acknowledged(log)) == {log[|log| - 1].document}
  {
    var changed := Acknowledged(log);
    forall k | 0 <= k < |changed| && changed[k].Read? ensures changed[k].document in Possible(changed[..k]) {
      assert changed[..k] == log[..k];
    }
  }

  predicate Noted(e: Event) {
    e.FinishLoad? || e.BeginWrite? || e.Acknowledge?
  }

  lemma UnnotedStepKeepsLog(e: Event, v: Vault)
    requires Inv(v) && Enabled(e, v) && !Noted(e)
    ensures LogMatches(Apply(e, v))
  {
    StepStuttersOrSwitches(e, v);
    assert Apply(e, v).log == v.log;
    if Writing(v.op) {
      WriteLeavesTwo(v.log, v.op.before, v.op.after);
    }
  }

  lemma ReadLeavesOne(log: seq<Note>, found: Document)
    requires Consistent(log) && found in Possible(log)
    ensures var longer := log + [Read(found)];
            Consistent(longer) && Possible(longer) == {found} && longer[|longer| - 1] == Read(found)
  {
    NoteKeepsConsistent(log, Read(found));
  }

  lemma ReadKeepsLog(v: Vault)
    requires v.op.Cleaning? && Resolve(v) == v.op.found && LogMatches(v)
    ensures LogMatches(Apply(FinishLoad, v))
  {
    var v' := Apply(FinishLoad, v);
    ReadLeavesOne(v.log, v.op.found);
    assert Resolve(v') == v.op.found && v'.op == Loaded(v.op.found);
  }

  lemma BeginKeepsLog(d: Document, t: nat, v: Vault)
    requires Inv(v) && Enabled(BeginWrite(d, t), v)
    ensures LogMatches(Apply(BeginWrite(d, t), v))
  {
    var v' := Apply(BeginWrite(d, t), v);
    assert Resolve(v') == Resolve(v) == v.op.found;
    NoteKeepsConsistent(v.log, Write(d, false));
    WriteLeavesTwo(v'.log, v.op.found, d);
  }

  lemma AcknowledgeKeepsLog(v: Vault)
    requires Inv(v) && Enabled(Acknowledge, v)
    ensures LogMatches(Apply(Acknowledge, v))
  {
    var v' := Apply(Acknowledge, v);
    assert Writing(v.op) && Resolve(v') == Resolve(v) == v.op.after;
    AcknowledgingKeepsConsistent(v.log);
  }

  lemma NotedStepKeepsLog(e: Event, v: Vault)
    requires Inv(v) && Enabled(e, v) && Noted(e)
    ensures LogMatches(Apply(e, v))
  {
    match e {
      case FinishLoad => ReadKeepsLog(v);
      case BeginWrite(d, t) => BeginKeepsLog(d, t, v);
      case Acknowledge => AcknowledgeKeepsLog(v);
    }
  }

  lemma StepKeepsInv(e: Event, v: Vault)
    requires Inv(v) && Enabled(e, v)
    ensures Inv(Apply(e, v))
  {
    StepStuttersOrSwitches(e, v);
    if Noted(e) { NotedStepKeepsLog(e, v); } else { UnnotedStepKeepsLog(e, v); }
  }

  // Runs

  ghost predicate IsRun(events: seq<Event>, v: Vault) {
    events != [] ==> Enabled(events[0], v) && IsRun(events[1..], Apply(events[0], v))
  }

  ghost function After(events: seq<Event>, v: Vault): Vault
    requires IsRun(events, v)
  {
    if events == [] then v else After(events[1..], Apply(events[0], v))
  }

  const FRESH := Vault(None, None, map[], Idle, [])

  lemma {:induction false} RunKeepsInv(events: seq<Event>, v: Vault)
    requires Inv(v) && IsRun(events, v)
    ensures Inv(After(events, v))
  {
    if events != [] {
      StepKeepsInv(events[0], v);
      RunKeepsInv(events[1..], Apply(events[0], v));
    }
  }

  /** With any number of crashes and failures at any steps, reads are explained by the writes before them. */
  lemma ReadsAreExplained(events: seq<Event>)
    requires IsRun(events, FRESH)
    ensures Consistent(After(events, FRESH).log)
  {
    RunKeepsInv(events, FRESH);
  }

  /** An acknowledged write is what any later read returns, until another write begins. */
  lemma AcknowledgedWritesAreNotLost(log: seq<Note>, w: nat, r: nat)
    requires Consistent(log) && w < r < |log| && log[r].Read? && log[w].Write? && log[w].acknowledged
    requires forall k :: w < k < r ==> log[k].Read?
    ensures log[r].document == log[w].document
    decreases r
  {
    assert log[r].document in Possible(log[..r]);
    assert log[..r][r - 1] == log[r - 1];
    if w < r - 1 {
      AcknowledgedWritesAreNotLost(log, w, r - 1);
    }
  }

  /** An interrupted write leaves the next read one of two documents: the one read before it, or the one written. */
  lemma InterruptedWriteIsAllOrNothing(log: seq<Note>, r: nat)
    requires Consistent(log) && r + 2 < |log| && log[r].Read? && log[r + 1].Write? && log[r + 2].Read?
    ensures log[r + 2].document == log[r + 1].document || (!log[r + 1].acknowledged && log[r + 2].document == log[r].document)
  {
    var front := log[..r + 2];
    assert log[r + 2].document in Possible(front);
    assert front[r + 1] == log[r + 1] && front[..r + 1][r] == log[r];
  }
}
