/**
 The PIM collections and their append-only journal.

 An entity's content is the JSON text of everything but its metadata, after schema parsing and task
 normalization. A transaction is named by its sequence number, which stands for its fresh id.
 */
module PimJournal {
  import opened Basics

  type Uid = nat
  type Content = string
  type Patch = Content -> Content

  datatype Kind = Contact | MailingList | CalendarEvent | Task

  datatype Entity = Entity(uid: Uid, revision: nat, content: Content)

  datatype Action = Created | Updated | Deleted | Restored

  datatype Entry = Entry(sequence: nat, action: Action, kind: Kind, uid: Uid, before: Option<Entity>, after: Option<Entity>)

  datatype State = State(
    contacts: seq<Entity>,
    mailingLists: seq<Entity>,
    calendarEvents: seq<Entity>,
    tasks: seq<Entity>,
    journal: seq<Entry>,
    nextSequence: nat,
    taskVersion: nat)

  const EMPTY := State([], [], [], [], [], 1, 0)

  datatype Refusal = NotFound | Conflict

  function Collection(s: State, kind: Kind): seq<Entity> {
    match kind
    case Contact => s.contacts
    case MailingList => s.mailingLists
    case CalendarEvent => s.calendarEvents
    case Task => s.tasks
  }

  function WithCollection(s: State, kind: Kind, es: seq<Entity>): State {
    match kind
    case Contact => s.(contacts := es)
    case MailingList => s.(mailingLists := es)
    case CalendarEvent => s.(calendarEvents := es)
    case Task => s.(tasks := es)
  }

  // Lookup

  /** The first index with the uid, or the length when there is none. */
  function IndexOf(es: seq<Entity>, uid: Uid): (i: nat)
    ensures i <= |es|
    ensures i < |es| ==> es[i].uid == uid
    ensures forall k :: 0 <= k < i ==> es[k].uid != uid
  {
    if es == [] then 0
    else if es[0].uid == uid then 0
    else
      var rest := IndexOf(es[1..], uid);
      assert forall k :: 1 <= k < rest + 1 ==> es[k] == es[1..][k - 1];
      rest + 1
  }

  function Live(es: seq<Entity>, uid: Uid): Option<Entity> {
    var i := IndexOf(es, uid);
    if i < |es| then Some(es[i]) else None
  }

  predicate Unique(es: seq<Entity>) {
    forall i, j :: 0 <= i < j < |es| ==> es[i].uid != es[j].uid
  }

  lemma LiveAt(es: seq<Entity>, i: nat)
    requires Unique(es) && i < |es|
    ensures IndexOf(es, es[i].uid) == i && Live(es, es[i].uid) == Some(es[i])
  {
  }

  lemma LiveAfterPush(es: seq<Entity>, e: Entity, uid: Uid)
    requires Unique(es) && Live(es, e.uid).None?
    ensures Unique(es + [e])
    ensures Live(es + [e], uid) == if uid == e.uid then Some(e) else Live(es, uid)
  {
    var es' := es + [e];
    assert forall k :: 0 <= k < |es| ==> es'[k] == es[k] && es[k].uid != e.uid;
    assert es'[|es|] == e;
    var i := IndexOf(es', uid);
    if i < |es| { LiveAt(es, i); }
  }

  lemma LiveAfterReplace(es: seq<Entity>, e: Entity, uid: Uid)
    requires Unique(es) && Live(es, e.uid).Some?
    ensures Unique(es[IndexOf(es, e.uid) := e])
    ensures Live(es[IndexOf(es, e.uid) := e], uid) == if uid == e.uid then Some(e) else Live(es, uid)
  {
    var j := IndexOf(es, e.uid);
    var es' := es[j := e];
    assert forall k :: 0 <= k < |es| ==> es'[k].uid == es[k].uid;
    var i := IndexOf(es', uid);
    if i < |es'| { LiveAt(es', i); LiveAt(es, i); }
  }

  lemma LiveIsMembership(es: seq<Entity>, e: Entity)
    requires Unique(es)
    ensures Live(es, e.uid) == Some(e) <==> e in es
    ensures Live(es, e.uid).Some? ==> Live(es, e.uid).value in es
  {
    if e in es {
      var i :| 0 <= i < |es| && es[i] == e;
      LiveAt(es, i);
    }
  }

  lemma MembersAfterRemove(es: seq<Entity>, i: nat)
    requires Unique(es) && i < |es|
    ensures Unique(es[..i] + es[i + 1..])
    ensures forall e :: e in es[..i] + es[i + 1..] <==> e in es && e.uid != es[i].uid
  {
    var rest := es[..i] + es[i + 1..];
    assert forall k :: 0 <= k < |rest| ==> rest[k] == (if k < i then es[k] else es[k + 1]);
    assert es == es[..i] + [es[i]] + es[i + 1..];
  }

  lemma LiveAfterRemove(es: seq<Entity>, gone: Uid, uid: Uid)
    requires Unique(es) && Live(es, gone).Some?
    ensures var i := IndexOf(es, gone);
            var rest := es[..i] + es[i + 1..];
            Unique(rest) && Live(rest, uid) == if uid == gone then None else Live(es, uid)
  {
    var i := IndexOf(es, gone);
    var rest := es[..i] + es[i + 1..];
    MembersAfterRemove(es, i);
    if Live(rest, uid).Some? {
      LiveIsMembership(rest, Live(rest, uid).value);
      LiveIsMembership(es, Live(rest, uid).value);
    } else if Live(es, uid).Some? {
      LiveIsMembership(es, Live(es, uid).value);
      LiveIsMembership(rest, Live(es, uid).value);
    }
  }

  // What the journal says

  function Init(j: seq<Entry>): seq<Entry>
    requires j != []
  {
    j[..|j| - 1]
  }

  function Last(j: seq<Entry>): Entry
    requires j != []
  {
    j[|j| - 1]
  }

  predicate About(e: Entry, kind: Kind, uid: Uid) {
    e.kind == kind && e.uid == uid
  }

  predicate Mentioned(j: seq<Entry>, kind: Kind, uid: Uid) {
    exists i :: 0 <= i < |j| && About(j[i], kind, uid)
  }

  /** What the last entry about the uid left, nothing when there is none. */
  function LastAfter(j: seq<Entry>, kind: Kind, uid: Uid): Option<Entity> {
    if j == [] then None
    else if About(Last(j), kind, uid) then Last(j).after
    else LastAfter(Init(j), kind, uid)
  }

  /** How many entries about the uid left an entity. */
  function Versions(j: seq<Entry>, kind: Kind, uid: Uid): nat {
    if j == [] then 0
    else Versions(Init(j), kind, uid) + if About(Last(j), kind, uid) && Last(j).after.Some? then 1 else 0
  }

  /** One entry continues the journal before it: numbers are contiguous, `before` is what the previous
      entry about the uid left, revisions count 1, 2, 3, ..., and a uid is created at most once, first. */
  predicate Continues(j: seq<Entry>, e: Entry) {
    && e.sequence == |j| + 1
    && e.before == LastAfter(j, e.kind, e.uid)
    && (e.after.Some? ==> e.after.value.uid == e.uid && e.after.value.revision == Versions(j, e.kind, e.uid) + 1)
    && (e.action.Created? <==> !Mentioned(j, e.kind, e.uid))
    && (e.action.Deleted? <==> e.after.None?)
    && (e.action.Updated? || e.action.Deleted? ==> e.before.Some?)
  }

  predicate Chained(j: seq<Entry>) {
    j == [] || (Chained(Init(j)) && Continues(Init(j), Last(j)))
  }

  /** The live collections are exactly what the journal says. */
  ghost predicate Journaled(s: State) {
    && Chained(s.journal)
    && s.nextSequence == |s.journal| + 1
    && (forall kind :: Unique(Collection(s, kind)))
    && (forall kind, uid :: Live(Collection(s, kind), uid) == LastAfter(s.journal, kind, uid))
  }

  lemma {:induction false} UnmentionedHasNothing(j: seq<Entry>, kind: Kind, uid: Uid)
    requires !Mentioned(j, kind, uid)
    ensures LastAfter(j, kind, uid).None? && Versions(j, kind, uid) == 0
  {
    if j != [] {
      assert !About(j[|j| - 1], kind, uid);
      assert forall i :: 0 <= i < |Init(j)| ==> Init(j)[i] == j[i];
      UnmentionedHasNothing(Init(j), kind, uid);
    }
  }

  /** The revision of a live entity is the number of versions the journal has of it. */
  lemma {:induction false} LiveRevision(j: seq<Entry>, kind: Kind, uid: Uid)
    requires Chained(j) && LastAfter(j, kind, uid).Some?
    ensures LastAfter(j, kind, uid).value.uid == uid
    ensures LastAfter(j, kind, uid).value.revision == Versions(j, kind, uid)
  {
    if !About(Last(j), kind, uid) {
      LiveRevision(Init(j), kind, uid);
    }
  }

  /** Appending an entry that continues the journal and giving its collection the entity the entry
      leaves keeps collections and journal in step. */
  lemma RecordKeepsJournaled(s: State, es: seq<Entity>, e: Entry, s': State)
    requires Journaled(s) && Continues(s.journal, e) && Unique(es)
    requires forall uid :: Live(es, uid) == if uid == e.uid then e.after else Live(Collection(s, e.kind), uid)
    requires s' == WithCollection(s, e.kind, es).(journal := s.journal + [e], nextSequence := s.nextSequence + 1, taskVersion := s'.taskVersion)
    ensures Journaled(s')
  {
    assert Init(s'.journal) == s.journal && Last(s'.journal) == e;
    forall kind ensures Unique(Collection(s', kind)) {
      OtherCollections(s, e.kind, es, s', kind);
    }
    forall kind, uid ensures Live(Collection(s', kind), uid) == LastAfter(s'.journal, kind, uid) {
      OtherCollections(s, e.kind, es, s', kind);
      assert Live(Collection(s, kind), uid) == LastAfter(s.journal, kind, uid);
    }
  }

  lemma OtherCollections(s: State, kind: Kind, es: seq<Entity>, s': State, other: Kind)
    requires s' == WithCollection(s, kind, es).(journal := s'.journal, nextSequence := s'.nextSequence, taskVersion := s'.taskVersion)
    ensures Collection(s', other) == if other == kind then es else Collection(s, other)
  {
  }

  // Operations on a draft of the state

  function Record(s: State, action: Action, kind: Kind, uid: Uid, before: Option<Entity>, after: Option<Entity>): State {
    s.(journal := s.journal + [Entry(s.nextSequence, action, kind, uid, before, after)], nextSequence := s.nextSequence + 1)
  }

  function Bumped(s: State, kind: Kind): State {
    if kind.Task? then s.(taskVersion := s.taskVersion + 1) else s
  }

  function Insert(s: State, kind: Kind, e: Entity): State {
    Record(WithCollection(s, kind, Collection(s, kind) + [e]), Created, kind, e.uid, None, Some(e))
  }

  function Replace(s: State, kind: Kind, action: Action, current: Entity, e: Entity): State
    requires IndexOf(Collection(s, kind), e.uid) < |Collection(s, kind)|
  {
    var es := Collection(s, kind);
    Record(WithCollection(s, kind, es[IndexOf(es, e.uid) := e]), action, kind, e.uid, Some(current), Some(e))
  }

  predicate Known(s: State, kind: Kind, uid: Uid) {
    Live(Collection(s, kind), uid).Some? || Mentioned(s.journal, kind, uid)
  }

  function Create(s: State, kind: Kind, uid: Uid, content: Content): Result<State, Refusal> {
    if Known(s, kind, uid) then Err(Conflict)
    else Ok(Bumped(Insert(s, kind, Entity(uid, 1, content)), kind))
  }

  function Update(s: State, kind: Kind, uid: Uid, patch: Patch): Result<State, Refusal> {
    match Live(Collection(s, kind), uid)
    case None => Err(NotFound)
    case Some(current) =>
      if patch(current.content) == current.content then Ok(s)
      else Ok(Bumped(Replace(s, kind, Updated, current, Entity(uid, current.revision + 1, patch(current.content))), kind))
  }

  function Delete(s: State, kind: Kind, uid: Uid): State {
    var es := Collection(s, kind);
    match Live(es, uid)
    case None => s
    case Some(current) =>
      var i := IndexOf(es, uid);
      Bumped(Record(WithCollection(s, kind, es[..i] + es[i + 1..]), Deleted, kind, uid, Some(current), None), kind)
  }

  /** The largest revision the collection and the journal mention for the uid. */
  function LatestRevision(s: State, kind: Kind, uid: Uid): nat {
    var live := Live(Collection(s, kind), uid);
    Latest(s.journal, kind, uid, if live.Some? then live.value.revision else 0)
  }

  function RevisionOf(e: Option<Entity>): nat {
    if e.Some? then e.value.revision else 0
  }

  function Max(a: nat, b: nat): nat {
    if a < b then b else a
  }

  function Latest(j: seq<Entry>, kind: Kind, uid: Uid, floor: nat): nat {
    if j == [] then floor
    else
      var r := Latest(Init(j), kind, uid, floor);
      if About(Last(j), kind, uid) then Max(r, Max(RevisionOf(Last(j).before), RevisionOf(Last(j).after))) else r
  }

  /** What one entry offers to restore: what it created, else what it replaced, else what it left. */
  function Snapshot(e: Entry): Option<Entity> {
    if e.action.Created? then e.after else if e.before.Some? then e.before else e.after
  }

  function LastAbout(j: seq<Entry>, kind: Kind, uid: Uid): Option<Entry> {
    if j == [] then None
    else if About(Last(j), kind, uid) && (Last(j).before.Some? || Last(j).after.Some?) then Some(Last(j))
    else LastAbout(Init(j), kind, uid)
  }

  function Numbered(j: seq<Entry>, sequence: nat, kind: Kind, uid: Uid): Option<Entry> {
    if 1 <= sequence <= |j| && About(j[sequence - 1], kind, uid) then Some(j[sequence - 1]) else None
  }

  function RestoreSource(s: State, kind: Kind, uid: Uid, source: Option<nat>): Option<Entity> {
    var entry := if source.Some? then Numbered(s.journal, source.value, kind, uid) else LastAbout(s.journal, kind, uid);
    if entry.None? then None else Snapshot(entry.value)
  }

  function Restore(s: State, kind: Kind, uid: Uid, source: Option<nat>): Result<State, Refusal> {
    var current := Live(Collection(s, kind), uid);
    match RestoreSource(s, kind, uid, source)
    case None => Err(NotFound)
    case Some(from) =>
      if current.Some? && current.value.content == from.content then Ok(s)
      else
        Ok(PutBack(s, kind, Entity(uid, LatestRevision(s, kind, uid) + 1, from.content)))
  }

  /** Puts e over the live entity of its uid, or at the end of the collection. */
  function PutBack(s: State, kind: Kind, e: Entity): State {
    var es := Collection(s, kind);
    var i := IndexOf(es, e.uid);
    var es' := if i < |es| then es[i := e] else es + [e];
    Bumped(Record(WithCollection(s, kind, es'), Restored, kind, e.uid, Live(es, e.uid), Some(e)), kind)
  }

  // Every operation keeps collections and journal in step

  lemma LiveIsLastVersion(s: State, kind: Kind, uid: Uid)
    requires Journaled(s)
    ensures var live := Live(Collection(s, kind), uid);
            live.Some? ==> Mentioned(s.journal, kind, uid) && live.value.revision == Versions(s.journal, kind, uid)
    ensures Known(s, kind, uid) <==> Mentioned(s.journal, kind, uid)
    ensures !Mentioned(s.journal, kind, uid) ==> Versions(s.journal, kind, uid) == 0
  {
    if !Mentioned(s.journal, kind, uid) {
      UnmentionedHasNothing(s.journal, kind, uid);
    } else if Live(Collection(s, kind), uid).Some? {
      LiveRevision(s.journal, kind, uid);
    }
  }

  lemma InsertKeepsJournaled(s: State, kind: Kind, uid: Uid, content: Content, s': State)
    requires Journaled(s) && !Known(s, kind, uid)
    requires s' == Insert(s, kind, Entity(uid, 1, content)).(taskVersion := s'.taskVersion)
    ensures Journaled(s')
  {
    var e := Entity(uid, 1, content);
    var es := Collection(s, kind);
    LiveIsLastVersion(s, kind, uid);
    forall u ensures Unique(es + [e]) && Live(es + [e], u) == if u == uid then Some(e) else Live(es, u) {
      LiveAfterPush(es, e, u);
    }
    RecordKeepsJournaled(s, es + [e], Entry(s.nextSequence, Created, kind, uid, None, Some(e)), s');
  }

  lemma ReplaceKeepsJournaled(s: State, kind: Kind, action: Action, e: Entity, s': State)
    requires Journaled(s) && Live(Collection(s, kind), e.uid).Some?
    requires e.revision == Versions(s.journal, kind, e.uid) + 1
    requires action.Updated? || action.Restored?
    requires s' == Replace(s, kind, action, Live(Collection(s, kind), e.uid).value, e).(taskVersion := s'.taskVersion)
    ensures Journaled(s')
  {
    var es := Collection(s, kind);
    var current := Live(es, e.uid);
    var es' := es[IndexOf(es, e.uid) := e];
    LiveIsLastVersion(s, kind, e.uid);
    forall u ensures Unique(es') && Live(es', u) == if u == e.uid then Some(e) else Live(es, u) {
      LiveAfterReplace(es, e, u);
    }
    RecordKeepsJournaled(s, es', Entry(s.nextSequence, action, kind, e.uid, current, Some(e)), s');
  }

  lemma CreateKeepsJournaled(s: State, kind: Kind, uid: Uid, content: Content)
    requires Journaled(s)
    ensures Create(s, kind, uid, content).Ok? ==> Journaled(Create(s, kind, uid, content).value)
  {
    if !Known(s, kind, uid) {
      InsertKeepsJournaled(s, kind, uid, content, Create(s, kind, uid, content).value);
    }
  }

  lemma UpdateKeepsJournaled(s: State, kind: Kind, uid: Uid, patch: Patch)
    requires Journaled(s)
    ensures Update(s, kind, uid, patch).Ok? ==> Journaled(Update(s, kind, uid, patch).value)
  {
    var current := Live(Collection(s, kind), uid);
    if current.Some? && patch(current.value.content) != current.value.content {
      LiveIsLastVersion(s, kind, uid);
      ReplaceKeepsJournaled(s, kind, Updated, Entity(uid, current.value.revision + 1, patch(current.value.content)),
                            Update(s, kind, uid, patch).value);
    }
  }

  lemma DeleteKeepsJournaled(s: State, kind: Kind, uid: Uid)
    requires Journaled(s)
    ensures Journaled(Delete(s, kind, uid))
  {
    var es := Collection(s, kind);
    var current := Live(es, uid);
    if current.Some? {
      var i := IndexOf(es, uid);
      var rest := es[..i] + es[i + 1..];
      LiveIsLastVersion(s, kind, uid);
      forall u ensures Unique(rest) && Live(rest, u) == if u == uid then None else Live(es, u) {
        LiveAfterRemove(es, uid, u);
      }
      RecordKeepsJournaled(s, rest, Entry(s.nextSequence, Deleted, kind, uid, current, None), Delete(s, kind, uid));
    }
  }

  /** Every revision the journal mentions is at most the number of versions it has. */
  lemma {:induction false} LatestIsVersions(j: seq<Entry>, kind: Kind, uid: Uid, floor: nat)
    requires Chained(j)
    ensures Latest(j, kind, uid, floor) == Max(floor, Versions(j, kind, uid))
    ensures RevisionOf(LastAfter(j, kind, uid)) <= Versions(j, kind, uid)
  {
    if j != [] {
      LatestIsVersions(Init(j), kind, uid, floor);
    }
  }

  lemma LatestRevisionIsVersions(s: State, kind: Kind, uid: Uid)
    requires Journaled(s)
    ensures LatestRevision(s, kind, uid) == Versions(s.journal, kind, uid)
  {
    var live := Live(Collection(s, kind), uid);
    LatestIsVersions(s.journal, kind, uid, RevisionOf(live));
    LiveIsLastVersion(s, kind, uid);
  }

  /** Whatever can be restored has been mentioned. */
  lemma {:induction false} LastAboutIsMentioned(j: seq<Entry>, kind: Kind, uid: Uid)
    ensures LastAbout(j, kind, uid).Some? ==>
              exists i :: 0 <= i < |j| && About(j[i], kind, uid) && LastAbout(j, kind, uid) == Some(j[i])
  {
    if j != [] && !(About(Last(j), kind, uid) && (Last(j).before.Some? || Last(j).after.Some?)) {
      LastAboutIsMentioned(Init(j), kind, uid);
      if LastAbout(j, kind, uid).Some? {
        var i :| 0 <= i < |Init(j)| && About(Init(j)[i], kind, uid) && LastAbout(j, kind, uid) == Some(Init(j)[i]);
        assert j[i] == Init(j)[i];
      }
    } else if j != [] {
      assert j[|j| - 1] == Last(j);
    }
  }

  lemma RestoreKeepsJournaled(s: State, kind: Kind, uid: Uid, source: Option<nat>)
    requires Journaled(s)
    ensures Restore(s, kind, uid, source).Ok? ==> Journaled(Restore(s, kind, uid, source).value)
  {
    var r := Restore(s, kind, uid, source);
    if r.Ok? && r.value != s {
      var es := Collection(s, kind);
      var current := Live(es, uid);
      var e := Entity(uid, LatestRevision(s, kind, uid) + 1, RestoreSource(s, kind, uid, source).value.content);
      LatestRevisionIsVersions(s, kind, uid);
      LastAboutIsMentioned(s.journal, kind, uid);
      assert Mentioned(s.journal, kind, uid);
      if current.Some? {
        ReplaceKeepsJournaled(s, kind, Restored, e, r.value);
      } else {
        forall u ensures Unique(es + [e]) && Live(es + [e], u) == if u == uid then Some(e) else Live(es, u) {
          LiveAfterPush(es, e, u);
        }
        RecordKeepsJournaled(s, es + [e], Entry(s.nextSequence, Restored, kind, uid, None, Some(e)), r.value);
      }
    }
  }

  // Imports and refreshes: many records in one draft

  /** What happens to a record whose uid is taken, reserved by deleted history, or used by the other
      calendar kind: card imports and refreshes refuse, calendar imports skip or refuse. */
  datatype Policy = Strict | SkipDuplicates | UpdateDuplicates

  datatype Input = Input(uid: Uid, patch: Patch)

  function OtherCalendarKind(kind: Kind): Kind {
    if kind.CalendarEvent? then Task else CalendarEvent
  }

  predicate Barred(s: State, kind: Kind, uid: Uid, policy: Policy) {
    || (Mentioned(s.journal, kind, uid) && Live(Collection(s, kind), uid).None?)
    || (!policy.Strict? && Known(s, OtherCalendarKind(kind), uid))
  }

  function UpsertOne(s: State, kind: Kind, input: Input, policy: Policy): Result<State, Refusal> {
    var current := Live(Collection(s, kind), input.uid);
    if Barred(s, kind, input.uid, policy) then
      if policy.SkipDuplicates? then Ok(s) else Err(Conflict)
    else if current.None? then
      var revision := if policy.Strict? then LatestRevision(s, kind, input.uid) + 1 else 1;
      var created := Insert(s, kind, Entity(input.uid, revision, input.patch("")));
      Ok(if policy.Strict? then created else Bumped(created, kind))
    else if policy.SkipDuplicates? || input.patch(current.value.content) == current.value.content then Ok(s)
    else
      var updated := Entity(input.uid, current.value.revision + 1, input.patch(current.value.content));
      var replaced := Replace(s, kind, Updated, current.value, updated);
      Ok(if policy.Strict? then replaced else Bumped(replaced, kind))
  }

  /** The records are applied in order; the first refusal discards the whole draft. */
  function UpsertAll(s: State, kind: Kind, inputs: seq<Input>, policy: Policy): Result<State, Refusal> {
    if inputs == [] then Ok(s)
    else
      match UpsertAll(s, kind, inputs[..|inputs| - 1], policy)
      case Err(e) => Err(e)
      case Ok(draft) => UpsertOne(draft, kind, inputs[|inputs| - 1], policy)
  }

  function ImportCalendar(s: State, events: seq<Input>, tasks: seq<Input>, policy: Policy): Result<State, Refusal> {
    match UpsertAll(s, CalendarEvent, events, policy)
    case Err(e) => Err(e)
    case Ok(draft) => UpsertAll(draft, Task, tasks, policy)
  }

  predicate Repeats(inputs: seq<Input>) {
    exists i, j :: 0 <= i < j < |inputs| && inputs[i].uid == inputs[j].uid
  }

  /** A refresh of the task collection in one draft; it bumps the task version once, when it changed
      anything. */
  function Refresh(s: State, inputs: seq<Input>): Result<State, Refusal> {
    if Repeats(inputs) then Err(Conflict)
    else
      match UpsertAll(s, Task, inputs, Strict)
      case Err(e) => Err(e)
      case Ok(draft) => Ok(if draft.nextSequence == s.nextSequence then s else draft.(taskVersion := draft.taskVersion + 1))
  }

  lemma UpsertOneKeepsJournaled(s: State, kind: Kind, input: Input, policy: Policy)
    requires Journaled(s)
    ensures UpsertOne(s, kind, input, policy).Ok? ==> Journaled(UpsertOne(s, kind, input, policy).value)
  {
    var r := UpsertOne(s, kind, input, policy);
    var current := Live(Collection(s, kind), input.uid);
    LiveIsLastVersion(s, kind, input.uid);
    LatestRevisionIsVersions(s, kind, input.uid);
    if r.Ok? && !Barred(s, kind, input.uid, policy) {
      if current.None? {
        InsertKeepsJournaled(s, kind, input.uid, input.patch(""), r.value);
      } else if r.value != s {
        ReplaceKeepsJournaled(s, kind, Updated, Entity(input.uid, current.value.revision + 1, input.patch(current.value.content)), r.value);
      }
    }
  }

  lemma {:induction false} UpsertAllKeepsJournaled(s: State, kind: Kind, inputs: seq<Input>, policy: Policy)
    requires Journaled(s)
    ensures UpsertAll(s, kind, inputs, policy).Ok? ==> Journaled(UpsertAll(s, kind, inputs, policy).value)
  {
    if inputs != [] {
      var front := inputs[..|inputs| - 1];
      UpsertAllKeepsJournaled(s, kind, front, policy);
      if UpsertAll(s, kind, front, policy).Ok? {
        UpsertOneKeepsJournaled(UpsertAll(s, kind, front, policy).value, kind, inputs[|inputs| - 1], policy);
      }
    }
  }

  /** s' is later than s: its journal extends that of s, and the task collection is the same as long as
      the task version is. */
  predicate Follows(s: State, s': State) {
    && s.nextSequence <= s'.nextSequence && s.taskVersion <= s'.taskVersion
    && s.journal <= s'.journal
    && (s.taskVersion == s'.taskVersion ==> s.tasks == s'.tasks)
  }

  /** Within one strict draft the version is not bumped yet; an untouched sequence number means an
      untouched task collection. */
  predicate DraftFollows(s: State, s': State) {
    && s.nextSequence <= s'.nextSequence && s.taskVersion == s'.taskVersion
    && s.journal <= s'.journal
    && (s.nextSequence == s'.nextSequence ==> s == s')
  }

  lemma StrictRecord(s: State, kind: Kind, input: Input)
    ensures UpsertOne(s, kind, input, Strict).Ok? ==> DraftFollows(s, UpsertOne(s, kind, input, Strict).value)
  {
  }

  lemma {:induction false} StrictDraft(s: State, kind: Kind, inputs: seq<Input>)
    ensures UpsertAll(s, kind, inputs, Strict).Ok? ==> DraftFollows(s, UpsertAll(s, kind, inputs, Strict).value)
  {
    if inputs != [] {
      var front := UpsertAll(s, kind, inputs[..|inputs| - 1], Strict);
      StrictDraft(s, kind, inputs[..|inputs| - 1]);
      if front.Ok? { StrictRecord(front.value, kind, inputs[|inputs| - 1]); }
    }
  }

  lemma CalendarRecordFollows(s: State, kind: Kind, input: Input, policy: Policy)
    requires !policy.Strict? && (kind.CalendarEvent? || kind.Task?)
    ensures UpsertOne(s, kind, input, policy).Ok? ==> Follows(s, UpsertOne(s, kind, input, policy).value)
  {
  }

  lemma {:induction false} CalendarDraft(s: State, kind: Kind, inputs: seq<Input>, policy: Policy)
    requires !policy.Strict? && (kind.CalendarEvent? || kind.Task?)
    ensures UpsertAll(s, kind, inputs, policy).Ok? ==> Follows(s, UpsertAll(s, kind, inputs, policy).value)
  {
    if inputs != [] {
      var front := UpsertAll(s, kind, inputs[..|inputs| - 1], policy);
      CalendarDraft(s, kind, inputs[..|inputs| - 1], policy);
      if front.Ok? {
        CalendarRecordFollows(front.value, kind, inputs[|inputs| - 1], policy);
      }
    }
  }

  // Runs of the service

  datatype Op =
    | DoCreate(kind: Kind, uid: Uid, content: Content)
    | DoUpdate(kind: Kind, uid: Uid, patch: Patch)
    | DoDelete(kind: Kind, uid: Uid)
    | DoRestore(kind: Kind, uid: Uid, source: Option<nat>)
    | DoImportCards(cards: seq<Input>, lists: seq<Input>)
    | DoImportCalendar(events: seq<Input>, tasks: seq<Input>, policy: Policy)
    | DoRefresh(inputs: seq<Input>)

  function ImportCards(s: State, cards: seq<Input>, lists: seq<Input>): Result<State, Refusal> {
    match UpsertAll(s, Contact, cards, Strict)
    case Err(e) => Err(e)
    case Ok(draft) => UpsertAll(draft, MailingList, lists, Strict)
  }

  function Attempt(s: State, op: Op): Result<State, Refusal> {
    match op
    case DoCreate(kind, uid, content) => Create(s, kind, uid, content)
    case DoUpdate(kind, uid, patch) => Update(s, kind, uid, patch)
    case DoDelete(kind, uid) => Ok(Delete(s, kind, uid))
    case DoRestore(kind, uid, source) => Restore(s, kind, uid, source)
    case DoImportCards(cards, lists) => ImportCards(s, cards, lists)
    case DoImportCalendar(events, tasks, policy) =>
      if policy.Strict? then Err(Conflict) else ImportCalendar(s, events, tasks, policy)
    case DoRefresh(inputs) => Refresh(s, inputs)
  }

  /** A refused operation leaves the state as it was. */
  function Apply(s: State, op: Op): State {
    match Attempt(s, op)
    case Ok(s') => s'
    case Err(_) => s
  }

  function AfterAll(s: State, ops: seq<Op>): State
    decreases |ops|
  {
    if ops == [] then s else AfterAll(Apply(s, ops[0]), ops[1..])
  }

  lemma ApplyKeepsJournaled(s: State, op: Op)
    requires Journaled(s)
    ensures Journaled(Apply(s, op))
  {
    match op
    case DoCreate(kind, uid, content) => CreateKeepsJournaled(s, kind, uid, content);
    case DoUpdate(kind, uid, patch) => UpdateKeepsJournaled(s, kind, uid, patch);
    case DoDelete(kind, uid) => DeleteKeepsJournaled(s, kind, uid);
    case DoRestore(kind, uid, source) => RestoreKeepsJournaled(s, kind, uid, source);
    case DoImportCards(cards, lists) =>
      UpsertAllKeepsJournaled(s, Contact, cards, Strict);
      var draft := UpsertAll(s, Contact, cards, Strict);
      if draft.Ok? { UpsertAllKeepsJournaled(draft.value, MailingList, lists, Strict); }
    case DoImportCalendar(events, tasks, policy) =>
      UpsertAllKeepsJournaled(s, CalendarEvent, events, policy);
      var draft := UpsertAll(s, CalendarEvent, events, policy);
      if draft.Ok? { UpsertAllKeepsJournaled(draft.value, Task, tasks, policy); }
    case DoRefresh(inputs) => RefreshKeepsJournaled(s, inputs);
  }

  lemma RefreshKeepsJournaled(s: State, inputs: seq<Input>)
    requires Journaled(s)
    ensures Refresh(s, inputs).Ok? ==> Journaled(Refresh(s, inputs).value)
  {
    UpsertAllKeepsJournaled(s, Task, inputs, Strict);
    var draft := UpsertAll(s, Task, inputs, Strict);
    if draft.Ok? {
      VersionIsNoPartOfTheJournal(draft.value, draft.value.taskVersion + 1);
    }
  }

  lemma VersionIsNoPartOfTheJournal(s: State, version: nat)
    requires Journaled(s)
    ensures Journaled(s.(taskVersion := version))
  {
    var s' := s.(taskVersion := version);
    forall kind ensures Collection(s', kind) == Collection(s, kind) {
    }
  }

  lemma {:induction false} RunsKeepJournaled(s: State, ops: seq<Op>)
    requires Journaled(s)
    ensures Journaled(AfterAll(s, ops))
    decreases |ops|
  {
    if ops != [] {
      ApplyKeepsJournaled(s, ops[0]);
      RunsKeepJournaled(Apply(s, ops[0]), ops[1..]);
    }
  }

  /** Every entry of a chained journal continues the entries before it. */
  lemma {:induction false} ChainedAt(j: seq<Entry>, k: nat)
    requires Chained(j) && k < |j|
    ensures Chained(j[..k]) && Continues(j[..k], j[k])
  {
    if k < |j| - 1 {
      assert Init(j)[..k] == j[..k];
      ChainedAt(Init(j), k);
    } else {
      assert j[..k] == Init(j);
    }
  }

  /** In every reachable state the journal is append-only history and the collections are what it
      says: live entities are what the last entry about them left, every entry replaced what the
      previous one left, revisions count the versions, numbers are contiguous from 1. */
  lemma EveryRunIsJournaled(ops: seq<Op>, kind: Kind, uid: Uid, k: nat)
    ensures var s := AfterAll(EMPTY, ops);
            && Live(Collection(s, kind), uid) == LastAfter(s.journal, kind, uid)
            && s.nextSequence == |s.journal| + 1
            && (k < |s.journal| ==> Continues(s.journal[..k], s.journal[k]) && s.journal[k].sequence == k + 1)
  {
    assert Journaled(EMPTY);
    RunsKeepJournaled(EMPTY, ops);
    var s := AfterAll(EMPTY, ops);
    if k < |s.journal| {
      ChainedAt(s.journal, k);
    }
  }

  /** A uid is created at most once in a whole run, before anything else is recorded about it. */
  lemma CreatedOnceAndFirst(ops: seq<Op>, i: nat, k: nat)
    requires i < |AfterAll(EMPTY, ops).journal| && k < |AfterAll(EMPTY, ops).journal|
    requires var j := AfterAll(EMPTY, ops).journal;
             j[i].action.Created? && About(j[k], j[i].kind, j[i].uid)
    ensures i <= k && (AfterAll(EMPTY, ops).journal[k].action.Created? ==> i == k)
  {
    assert Journaled(EMPTY);
    RunsKeepJournaled(EMPTY, ops);
    var j := AfterAll(EMPTY, ops).journal;
    ChainedAt(j, i);
    ChainedAt(j, k);
    assert forall m :: 0 <= m < i ==> j[..i][m] == j[m];
    assert forall m :: 0 <= m < k ==> j[..k][m] == j[m];
  }

  lemma CreateFollows(s: State, kind: Kind, uid: Uid, content: Content)
    ensures Follows(s, Apply(s, DoCreate(kind, uid, content)))
  {
  }

  lemma UpdateFollows(s: State, kind: Kind, uid: Uid, patch: Patch)
    ensures Follows(s, Apply(s, DoUpdate(kind, uid, patch)))
  {
  }

  lemma DeleteFollows(s: State, kind: Kind, uid: Uid)
    ensures Follows(s, Apply(s, DoDelete(kind, uid)))
  {
  }

  lemma RestoreFollows(s: State, kind: Kind, uid: Uid, source: Option<nat>)
    ensures Follows(s, Apply(s, DoRestore(kind, uid, source)))
  {
  }

  lemma CardsFollow(s: State, cards: seq<Input>, lists: seq<Input>)
    ensures Follows(s, Apply(s, DoImportCards(cards, lists)))
  {
    ImportsOfCardsLeaveTasks(s, Contact, cards);
    var draft := UpsertAll(s, Contact, cards, Strict);
    if draft.Ok? { ImportsOfCardsLeaveTasks(draft.value, MailingList, lists); }
  }

  lemma CalendarFollows(s: State, events: seq<Input>, tasks: seq<Input>, policy: Policy)
    ensures Follows(s, Apply(s, DoImportCalendar(events, tasks, policy)))
  {
    if !policy.Strict? {
      CalendarDraft(s, CalendarEvent, events, policy);
      var draft := UpsertAll(s, CalendarEvent, events, policy);
      if draft.Ok? { CalendarDraft(draft.value, Task, tasks, policy); }
    }
  }

  /** Whatever an operation does to the tasks, it moves the task version; it never shortens the journal. */
  lemma ApplyFollows(s: State, op: Op)
    ensures Follows(s, Apply(s, op))
  {
    match op
    case DoCreate(kind, uid, content) => CreateFollows(s, kind, uid, content);
    case DoUpdate(kind, uid, patch) => UpdateFollows(s, kind, uid, patch);
    case DoDelete(kind, uid) => DeleteFollows(s, kind, uid);
    case DoRestore(kind, uid, source) => RestoreFollows(s, kind, uid, source);
    case DoImportCards(cards, lists) => CardsFollow(s, cards, lists);
    case DoImportCalendar(events, tasks, policy) => CalendarFollows(s, events, tasks, policy);
    case DoRefresh(inputs) => RefreshFollows(s, inputs);
  }

  predicate LeavesTasks(s: State, s': State) {
    s.journal <= s'.journal && s.nextSequence <= s'.nextSequence && s'.tasks == s.tasks && s'.taskVersion == s.taskVersion
  }

  lemma CardLeavesTasks(s: State, kind: Kind, input: Input)
    requires kind.Contact? || kind.MailingList?
    ensures UpsertOne(s, kind, input, Strict).Ok? ==> LeavesTasks(s, UpsertOne(s, kind, input, Strict).value)
  {
  }

  lemma {:induction false} ImportsOfCardsLeaveTasks(s: State, kind: Kind, inputs: seq<Input>)
    requires kind.Contact? || kind.MailingList?
    ensures UpsertAll(s, kind, inputs, Strict).Ok? ==> LeavesTasks(s, UpsertAll(s, kind, inputs, Strict).value)
  {
    if inputs != [] {
      var front, last := inputs[..|inputs| - 1], inputs[|inputs| - 1];
      ImportsOfCardsLeaveTasks(s, kind, front);
      var draft := UpsertAll(s, kind, front, Strict);
      if draft.Ok? { CardLeavesTasks(draft.value, kind, last); }
    }
  }

  lemma RefreshFollows(s: State, inputs: seq<Input>)
    ensures Refresh(s, inputs).Ok? ==> Follows(s, Refresh(s, inputs).value)
  {
    StrictDraft(s, Task, inputs);
  }

  // Restoring undoes

  /** What such a restore records: the content that was replaced, under a revision above all others. */
  lemma RestoreRecords(s: State, e: Entry, s': State)
    requires Journaled(s) && s.journal != [] && Last(s.journal) == e
    requires e.before.Some? && (e.after.Some? ==> e.after.value.content != e.before.value.content)
    requires Restore(s, e.kind, e.uid, None) == Ok(s')
    ensures var restored := Entity(e.uid, Versions(s.journal, e.kind, e.uid) + 1, e.before.value.content);
            s'.journal == s.journal + [Entry(s.nextSequence, Restored, e.kind, e.uid, e.after, Some(restored))]
  {
    assert Continues(Init(s.journal), e);
    if e.action.Created? {
      UnmentionedHasNothing(Init(s.journal), e.kind, e.uid);
    }
    assert Live(Collection(s, e.kind), e.uid) == LastAfter(s.journal, e.kind, e.uid) == e.after;
    LatestRevisionIsVersions(s, e.kind, e.uid);
  }

  /** A restore right after an entry about the uid that replaced something puts that back. */
  lemma LastEntryLeads(s: State, e: Entry, s': State, other: Kind, u: Uid)
    requires Journaled(s) && s.journal != [] && Last(s.journal) == e
    requires e.before.Some? && (e.after.Some? ==> e.after.value.content != e.before.value.content)
    requires Restore(s, e.kind, e.uid, None) == Ok(s')
    ensures Live(Collection(s', e.kind), e.uid)
            == Some(Entity(e.uid, Versions(s.journal, e.kind, e.uid) + 1, e.before.value.content))
    ensures other != e.kind || u != e.uid ==> Live(Collection(s', other), u) == LastAfter(s.journal, other, u)
  {
    RestoreRecords(s, e, s');
    assert Journaled(s') by { RestoreKeepsJournaled(s, e.kind, e.uid, None); }
    assert Init(s'.journal) == s.journal && About(Last(s'.journal), e.kind, e.uid);
    assert Live(Collection(s', other), u) == LastAfter(s'.journal, other, u);
    assert Live(Collection(s', e.kind), e.uid) == LastAfter(s'.journal, e.kind, e.uid);
  }

  lemma LastEntryCanBeRestored(s: State, e: Entry)
    requires Journaled(s) && s.journal != [] && Last(s.journal) == e && e.before.Some?
    ensures Restore(s, e.kind, e.uid, None).Ok?
  {
  }

  /** A restore brought the content back under a revision, and every other entity is as it was in s. */
  ghost predicate Undone(s: State, r: Result<State, Refusal>, kind: Kind, restored: Entity, other: Kind, u: Uid) {
    && r.Ok?
    && Live(Collection(r.value, kind), restored.uid) == Some(restored)
    && (other != kind || u != restored.uid ==> Live(Collection(r.value, other), u) == Live(Collection(s, other), u))
  }

  /** A restore right after one entry about the uid undoes that entry, and nothing else moves. */
  lemma RestoreUndoesLast(s: State, s': State, e: Entry, versions: nat, other: Kind, u: Uid)
    requires Journaled(s) && Journaled(s') && s'.journal == s.journal + [e] && e.before.Some?
    requires e.after.Some? ==> e.after.value.content != e.before.value.content
    requires versions == Versions(s'.journal, e.kind, e.uid)
    ensures Undone(s, Restore(s', e.kind, e.uid, None), e.kind, Entity(e.uid, versions + 1, e.before.value.content), other, u)
  {
    assert Init(s'.journal) == s.journal && Last(s'.journal) == e;
    LastEntryCanBeRestored(s', e);
    LastEntryLeads(s', e, Restore(s', e.kind, e.uid, None).value, other, u);
    assert Live(Collection(s, other), u) == LastAfter(s.journal, other, u) == LastAfter(s'.journal, other, u)
           || (other == e.kind && u == e.uid);
  }

  lemma UpdateRecords(s: State, kind: Kind, uid: Uid, patch: Patch)
    requires Live(Collection(s, kind), uid).Some?
    requires var e := Live(Collection(s, kind), uid).value; patch(e.content) != e.content
    ensures var e := Live(Collection(s, kind), uid).value;
            var updated := Update(s, kind, uid, patch);
            updated.Ok? && updated.value.journal == s.journal +
              [Entry(s.nextSequence, Updated, kind, uid, Some(e), Some(Entity(uid, e.revision + 1, patch(e.content))))]
  {
  }

  lemma DeleteRecords(s: State, kind: Kind, uid: Uid)
    requires Live(Collection(s, kind), uid).Some?
    ensures Delete(s, kind, uid).journal == s.journal +
              [Entry(s.nextSequence, Deleted, kind, uid, Some(Live(Collection(s, kind), uid).value), None)]
  {
  }

  /** One more entry adds one version exactly when it leaves an entity. */
  lemma VersionsAfter(j: seq<Entry>, e: Entry)
    ensures Versions(j + [e], e.kind, e.uid) == Versions(j, e.kind, e.uid) + if e.after.Some? then 1 else 0
  {
    assert Init(j + [e]) == j && Last(j + [e]) == e;
  }

  ghost predicate HasDeleted(s: State, deleted: State, kind: Kind, uid: Uid, e: Entity) {
    && Journaled(deleted)
    && deleted.journal == s.journal + [Entry(s.nextSequence, Deleted, kind, uid, Some(e), None)]
    && Versions(deleted.journal, kind, uid) == e.revision
  }

  lemma DeletionIsUndone(s: State, deleted: State, kind: Kind, uid: Uid, e: Entity, other: Kind, u: Uid)
    requires Journaled(s) && HasDeleted(s, deleted, kind, uid, e)
    ensures Undone(s, Restore(deleted, kind, uid, None), kind, Entity(uid, e.revision + 1, e.content), other, u)
  {
    RestoreUndoesLast(s, deleted, Entry(s.nextSequence, Deleted, kind, uid, Some(e), None), e.revision, other, u);
  }

  lemma DeletionIsLast(s: State, kind: Kind, uid: Uid, e: Entity)
    requires Journaled(s) && Live(Collection(s, kind), uid) == Some(e)
    ensures HasDeleted(s, Delete(s, kind, uid), kind, uid, e)
  {
    var entry := Entry(s.nextSequence, Deleted, kind, uid, Some(e), None);
    DeleteRecords(s, kind, uid);
    DeleteKeepsJournaled(s, kind, uid);
    LiveIsLastVersion(s, kind, uid);
    VersionsAfter(s.journal, entry);
  }

  /** Deleting and restoring brings the content back under the next revision, and nothing else moves. */
  lemma RestoreUndoesDelete(s: State, kind: Kind, uid: Uid, e: Entity, other: Kind, u: Uid)
    requires Journaled(s) && Live(Collection(s, kind), uid) == Some(e)
    ensures Undone(s, Restore(Delete(s, kind, uid), kind, uid, None), kind, Entity(uid, e.revision + 1, e.content), other, u)
  {
    DeletionIsLast(s, kind, uid, e);
    DeletionIsUndone(s, Delete(s, kind, uid), kind, uid, e, other, u);
  }

  ghost predicate HasUpdated(s: State, updated: State, kind: Kind, uid: Uid, e: Entity, content: Content) {
    && Journaled(updated)
    && updated.journal == s.journal + [Entry(s.nextSequence, Updated, kind, uid, Some(e), Some(Entity(uid, e.revision + 1, content)))]
    && Versions(updated.journal, kind, uid) == e.revision + 1
  }

  lemma UpdateIsUndone(s: State, updated: State, kind: Kind, uid: Uid, e: Entity, content: Content, other: Kind, u: Uid)
    requires Journaled(s) && HasUpdated(s, updated, kind, uid, e, content) && content != e.content
    ensures Undone(s, Restore(updated, kind, uid, None), kind, Entity(uid, e.revision + 2, e.content), other, u)
  {
    var entry := Entry(s.nextSequence, Updated, kind, uid, Some(e), Some(Entity(uid, e.revision + 1, content)));
    RestoreUndoesLast(s, updated, entry, e.revision + 1, other, u);
  }

  lemma UpdateIsLast(s: State, kind: Kind, uid: Uid, patch: Patch, e: Entity)
    requires Journaled(s) && Live(Collection(s, kind), uid) == Some(e) && patch(e.content) != e.content
    ensures var updated := Update(s, kind, uid, patch);
            updated.Ok? && HasUpdated(s, updated.value, kind, uid, e, patch(e.content))
  {
    UpdateRecords(s, kind, uid, patch);
    UpdateKeepsJournaled(s, kind, uid, patch);
    LiveIsLastVersion(s, kind, uid);
    VersionsAfter(s.journal, Entry(s.nextSequence, Updated, kind, uid, Some(e), Some(Entity(uid, e.revision + 1, patch(e.content)))));
  }

  /** Updating and restoring brings the old content back under a new revision: a restore without a
      named transaction is an undo of the last change. */
  lemma RestoreUndoesUpdate(s: State, kind: Kind, uid: Uid, patch: Patch, e: Entity, other: Kind, u: Uid)
    requires Journaled(s) && Live(Collection(s, kind), uid) == Some(e) && patch(e.content) != e.content
    ensures var updated := Update(s, kind, uid, patch);
            updated.Ok? && Undone(s, Restore(updated.value, kind, uid, None), kind, Entity(uid, e.revision + 2, e.content), other, u)
  {
    UpdateIsLast(s, kind, uid, patch, e);
    UpdateIsUndone(s, Update(s, kind, uid, patch).value, kind, uid, e, patch(e.content), other, u);
  }
}
