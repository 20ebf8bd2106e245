/**
 The PIM service object: its mutators edit a draft of the state in place and store the draft when
 nothing refused; a refusal drops the draft.
 */
module PimService {
  import opened Basics
  import opened PimJournal

  datatype Reason = Applied | Superseded | LocalStateChanged

  datatype RefreshResult = RefreshResult(reason: Reason, created: nat, updated: nat, same: nat)

  /** What a mutator leaves stored: its draft when it succeeded, else the state as it was. */
  predicate Stored(draft: Result<State, Refusal>, before: State, after: State) {
    after == if draft.Ok? then draft.value else before
  }

  class PimService {
    var state: State
    var latestRefresh: nat

    ghost predicate Valid()
      reads this
    {
      Journaled(state)
    }

    constructor ()
      ensures Valid() && state == EMPTY && latestRefresh == 0
    {
      state, latestRefresh := EMPTY, 0;
    }

    /** The scan over the whole journal that a restore numbers its revision with. */
    method ScanLatestRevision(kind: Kind, uid: Uid) returns (revision: nat)
      requires Valid()
      ensures revision == Versions(state.journal, kind, uid) == LatestRevision(state, kind, uid)
    {
      var live := Live(Collection(state, kind), uid);
      revision := if live.Some? then live.value.revision else 0;
      ghost var floor := revision;
      for k := 0 to |state.journal|
        invariant revision == Latest(state.journal[..k], kind, uid, floor)
      {
        assert Init(state.journal[..k + 1]) == state.journal[..k];
        var entry := state.journal[k];
        if About(entry, kind, uid) {
          revision := Max(revision, Max(RevisionOf(entry.before), RevisionOf(entry.after)));
        }
      }
      assert state.journal[..|state.journal|] == state.journal;
      LatestRevisionIsVersions(state, kind, uid);
    }

    method CreateEntity(kind: Kind, uid: Uid, content: Content) returns (r: Result<Entity, Refusal>)
      requires Valid()
      modifies this`state
      ensures Valid()
      ensures Stored(Create(old(state), kind, uid, content), old(state), state)
      ensures r.Ok? <==> !old(Mentioned(state.journal, kind, uid))
      ensures r.Ok? ==> r.value == Entity(uid, 1, content) && Live(Collection(state, kind), uid) == Some(r.value)
    {
      LiveIsLastVersion(state, kind, uid);
      CreateKeepsJournaled(state, kind, uid, content);
      if Known(state, kind, uid) {
        return Err(Conflict);
      }
      var created := Entity(uid, 1, content);
      var draft := WithCollection(state, kind, Collection(state, kind) + [created]);
      draft := Record(draft, Created, kind, uid, None, Some(created));
      LiveAfterPush(Collection(state, kind), created, uid);
      state := Bumped(draft, kind);
      return Ok(created);
    }

    method UpdateEntity(kind: Kind, uid: Uid, patch: Patch) returns (r: Result<Entity, Refusal>)
      requires Valid()
      modifies this`state
      ensures Valid()
      ensures Stored(Update(old(state), kind, uid, patch), old(state), state)
      ensures Edits(old(state), state, kind, uid, patch, r)
    {
      var es := Collection(state, kind);
      var index := IndexOf(es, uid);
      if index == |es| {
        NothingToUpdate(state, kind, uid, patch);
        return Err(NotFound);
      }
      var current := es[index];
      var content := patch(current.content);
      if content == current.content {
        UpdateWithoutChange(state, kind, uid, patch);
        return Ok(current);
      }
      UpdateWithChange(state, kind, uid, patch);
      var updated := Entity(uid, current.revision + 1, content);
      var draft := WithCollection(state, kind, es[index := updated]);
      draft := Record(draft, Updated, kind, uid, Some(current), Some(updated));
      state := Bumped(draft, kind);
      return Ok(updated);
    }

    method DeleteEntity(kind: Kind, uid: Uid) returns (existed: bool)
      requires Valid()
      modifies this`state
      ensures Valid()
      ensures state == Delete(old(state), kind, uid)
      ensures existed <==> old(Live(Collection(state, kind), uid)).Some?
      ensures Live(Collection(state, kind), uid).None? && (existed <==> |state.journal| == |old(state).journal| + 1)
    {
      DeleteMeets(state, kind, uid);
      var es := Collection(state, kind);
      var index := IndexOf(es, uid);
      if index == |es| {
        return false;
      }
      var draft := WithCollection(state, kind, es[..index] + es[index + 1..]);
      draft := Record(draft, Deleted, kind, uid, Some(es[index]), None);
      state := Bumped(draft, kind);
      return true;
    }

    method RestoreEntity(kind: Kind, uid: Uid, source: Option<nat>) returns (r: Result<Entity, Refusal>)
      requires Valid()
      modifies this`state
      ensures Valid()
      ensures Stored(Restore(old(state), kind, uid, source), old(state), state)
      ensures Answers(old(state), state, kind, uid, source, r)
    {
      var es := Collection(state, kind);
      var index := IndexOf(es, uid);
      var from := RestoreSource(state, kind, uid, source);
      if from.None? {
        NothingToRestore(state, kind, uid, source);
        return Err(NotFound);
      }
      if index < |es| && es[index].content == from.value.content {
        NothingToChange(state, kind, uid, source, index);
        return Ok(es[index]);
      }
      var revision := ScanLatestRevision(kind, uid);
      state := PutRestored(state, kind, uid, source, from.value.content, revision);
      return Ok(Entity(uid, revision + 1, from.value.content));
    }

    /** Imports events, then tasks, into one draft. */
    method ImportICalendar(events: seq<Input>, tasks: seq<Input>, policy: Policy) returns (r: Result<nat, Refusal>)
      requires Valid() && !policy.Strict?
      modifies this`state
      ensures Valid()
      ensures state == Apply(old(state), DoImportCalendar(events, tasks, policy))
      ensures r.Ok? <==> ImportCalendar(old(state), events, tasks, policy).Ok?
      ensures r.Ok? ==> old(state).journal <= state.journal && r.value == |state.journal| - |old(state).journal|
      ensures r.Err? ==> state == old(state)
    {
      ApplyKeepsJournaled(state, DoImportCalendar(events, tasks, policy));
      ApplyFollows(state, DoImportCalendar(events, tasks, policy));
      var draft := UpsertInOrder(state, CalendarEvent, events, policy);
      if draft.Err? {
        return Err(draft.error);
      }
      draft := UpsertInOrder(draft.value, Task, tasks, policy);
      if draft.Err? {
        return Err(draft.error);
      }
      var recorded := |draft.value.journal| - |state.journal|;
      state := draft.value;
      return Ok(recorded);
    }

    /** The transactional half of a refresh, with the request number and the task version it read
        before its loader ran. */
    method CommitRefresh(requestId: nat, baseline: nat, inputs: seq<Input>) returns (r: Result<RefreshResult, Refusal>)
      requires Valid()
      modifies this`state
      ensures Valid()
      ensures requestId != latestRefresh ==> r == Ok(RefreshResult(Superseded, 0, 0, 0)) && state == old(state)
      ensures requestId == latestRefresh && old(state).taskVersion != baseline ==>
                r == Ok(RefreshResult(LocalStateChanged, 0, 0, 0)) && state == old(state)
      ensures requestId == latestRefresh && old(state).taskVersion == baseline ==>
                && state == Apply(old(state), DoRefresh(inputs))
                && (r.Ok? <==> Refresh(old(state), inputs).Ok?)
                && (r.Ok? ==> r.value.reason == Applied && r.value.created + r.value.updated + r.value.same == |inputs|
                              && r.value.created + r.value.updated == state.nextSequence - old(state).nextSequence)
    {
      if requestId != latestRefresh {
        return Ok(RefreshResult(Superseded, 0, 0, 0));
      }
      if state.taskVersion != baseline {
        return Ok(RefreshResult(LocalStateChanged, 0, 0, 0));
      }
      RefreshKeepsJournaled(state, inputs);
      if Repeats(inputs) {
        return Err(Conflict);
      }
      var draft, result := RefreshInOrder(state, inputs);
      if draft.Err? {
        return Err(draft.error);
      }
      if result.created + result.updated > 0 {
        state := draft.value.(taskVersion := draft.value.taskVersion + 1);
      }
      return Ok(result);
    }
  }

  // What the single-record operations leave behind

  lemma ChangeMeets(s: State, kind: Kind, uid: Uid, patch: Patch, current: Entity)
    requires Journaled(s) && Live(Collection(s, kind), uid) == Some(current) && patch(current.content) != current.content
    ensures var r := Update(s, kind, uid, patch);
            r.Ok? && Journaled(r.value)
            && Live(Collection(r.value, kind), uid) == Some(Entity(uid, current.revision + 1, patch(current.content)))
  {
    UpdateKeepsJournaled(s, kind, uid, patch);
    LiveAfterReplace(Collection(s, kind), Entity(uid, current.revision + 1, patch(current.content)), uid);
  }

  /** An update is refused for an unknown uid; else the live entity has the patched content, under the next
      revision if that is a change. */
  ghost predicate Edits(before: State, after: State, kind: Kind, uid: Uid, patch: Patch, r: Result<Entity, Refusal>) {
    var live := Live(Collection(before, kind), uid);
    && (r.Ok? <==> live.Some?)
    && (r.Ok? ==>
          && Live(Collection(after, kind), uid) == Some(r.value) && r.value.content == patch(live.value.content)
          && r.value.revision == live.value.revision + if patch(live.value.content) == live.value.content then 0 else 1)
  }

  lemma NothingToUpdate(s: State, kind: Kind, uid: Uid, patch: Patch)
    requires Live(Collection(s, kind), uid).None?
    ensures Stored(Update(s, kind, uid, patch), s, s) && Edits(s, s, kind, uid, patch, Err(NotFound))
  {
  }

  lemma UpdateWithoutChange(s: State, kind: Kind, uid: Uid, patch: Patch)
    requires Live(Collection(s, kind), uid).Some?
    requires var e := Live(Collection(s, kind), uid).value; patch(e.content) == e.content
    ensures Stored(Update(s, kind, uid, patch), s, s)
    ensures Edits(s, s, kind, uid, patch, Ok(Live(Collection(s, kind), uid).value))
  {
  }

  lemma UpdateWithChange(s: State, kind: Kind, uid: Uid, patch: Patch)
    requires Journaled(s) && Live(Collection(s, kind), uid).Some?
    requires var e := Live(Collection(s, kind), uid).value; patch(e.content) != e.content
    ensures var es, e := Collection(s, kind), Live(Collection(s, kind), uid).value;
            var updated := Entity(uid, e.revision + 1, patch(e.content));
            var draft := WithCollection(s, kind, es[IndexOf(es, uid) := updated]);
            var s' := Bumped(Record(draft, Updated, kind, uid, Some(e), Some(updated)), kind);
            Stored(Update(s, kind, uid, patch), s, s') && Journaled(s') && Edits(s, s', kind, uid, patch, Ok(updated))
  {
    ChangeMeets(s, kind, uid, patch, Live(Collection(s, kind), uid).value);
  }

  lemma DeleteMeets(s: State, kind: Kind, uid: Uid)
    requires Journaled(s)
    ensures var s' := Delete(s, kind, uid);
            && Journaled(s') && Live(Collection(s', kind), uid).None?
            && |s'.journal| == |s.journal| + if Live(Collection(s, kind), uid).Some? then 1 else 0
  {
    DeleteKeepsJournaled(s, kind, uid);
    if Live(Collection(s, kind), uid).Some? {
      LiveAfterRemove(Collection(s, kind), uid, uid);
    }
  }

  lemma RestoreRecords(s: State, kind: Kind, uid: Uid, source: Option<nat>)
    requires RestoreSource(s, kind, uid, source).Some?
    requires Live(Collection(s, kind), uid).Some? ==>
               Live(Collection(s, kind), uid).value.content != RestoreSource(s, kind, uid, source).value.content
    ensures var r := Restore(s, kind, uid, source);
            var restored := Entity(uid, LatestRevision(s, kind, uid) + 1, RestoreSource(s, kind, uid, source).value.content);
            r.Ok? && r.value.journal == s.journal + [Entry(s.nextSequence, Restored, kind, uid, Live(Collection(s, kind), uid), Some(restored))]
  {
  }

  lemma LastEntryIsLive(s: State, kind: Kind, uid: Uid)
    requires Journaled(s) && s.journal != [] && About(Last(s.journal), kind, uid)
    ensures Live(Collection(s, kind), uid) == Last(s.journal).after
  {
  }

  lemma RestoreMeets(s: State, kind: Kind, uid: Uid, source: Option<nat>)
    requires Journaled(s)
    ensures var r := Restore(s, kind, uid, source);
            var from := RestoreSource(s, kind, uid, source);
            && (r.Ok? <==> from.Some?)
            && (r.Ok? ==> Journaled(r.value) && Live(Collection(r.value, kind), uid).Some?
                          && Live(Collection(r.value, kind), uid).value.content == from.value.content)
            && (r.Ok? && r.value != s ==>
                  r.value == PutBack(s, kind, Entity(uid, LatestRevision(s, kind, uid) + 1, from.value.content))
                  && Live(Collection(r.value, kind), uid) == Some(Entity(uid, LatestRevision(s, kind, uid) + 1, from.value.content)))
            && (r.Ok? && r.value != s ==> Live(Collection(r.value, kind), uid).value.revision == LatestRevision(s, kind, uid) + 1)
  {
    var r := Restore(s, kind, uid, source);
    var from := RestoreSource(s, kind, uid, source);
    var live := Live(Collection(s, kind), uid);
    assert r.Ok? ==> Journaled(r.value) by { RestoreKeepsJournaled(s, kind, uid, source); }
    if from.Some? && !(live.Some? && live.value.content == from.value.content) {
      RestoreRecords(s, kind, uid, source);
      LastEntryIsLive(r.value, kind, uid);
    }
  }

  /** A restore is refused when nothing can be restored; else the live entity has the restored content. */
  ghost predicate Answers(before: State, after: State, kind: Kind, uid: Uid, source: Option<nat>, r: Result<Entity, Refusal>) {
    var from := RestoreSource(before, kind, uid, source);
    && (r.Ok? <==> from.Some?)
    && (r.Ok? ==> Live(Collection(after, kind), uid) == Some(r.value) && r.value.content == from.value.content)
  }

  lemma NothingToRestore(s: State, kind: Kind, uid: Uid, source: Option<nat>)
    requires RestoreSource(s, kind, uid, source).None?
    ensures Stored(Restore(s, kind, uid, source), s, s) && Answers(s, s, kind, uid, source, Err(NotFound))
  {
  }

  lemma NothingToChange(s: State, kind: Kind, uid: Uid, source: Option<nat>, i: nat)
    requires RestoreSource(s, kind, uid, source).Some? && i == IndexOf(Collection(s, kind), uid) < |Collection(s, kind)|
    requires Collection(s, kind)[i].content == RestoreSource(s, kind, uid, source).value.content
    ensures Stored(Restore(s, kind, uid, source), s, s)
    ensures Answers(s, s, kind, uid, source, Ok(Collection(s, kind)[i]))
  {
  }

  /** A restore that changes something puts the restored entity back under the revision after the latest. */
  function PutRestored(s: State, kind: Kind, uid: Uid, source: Option<nat>, content: Content, revision: nat): (s': State)
    requires Journaled(s) && revision == LatestRevision(s, kind, uid)
    requires RestoreSource(s, kind, uid, source).Some? && content == RestoreSource(s, kind, uid, source).value.content
    requires Live(Collection(s, kind), uid).Some? ==> Live(Collection(s, kind), uid).value.content != content
    ensures Restore(s, kind, uid, source) == Ok(s') && Journaled(s')
    ensures Live(Collection(s', kind), uid) == Some(Entity(uid, revision + 1, content))
  {
    RestoreMeets(s, kind, uid, source);
    PutBack(s, kind, Entity(uid, revision + 1, content))
  }

  /** The import loop: every record goes into the draft; the first refusal ends it. */
  method UpsertInOrder(s: State, kind: Kind, inputs: seq<Input>, policy: Policy) returns (r: Result<State, Refusal>)
    ensures r == UpsertAll(s, kind, inputs, policy)
  {
    var draft := s;
    for k := 0 to |inputs|
      invariant UpsertAll(s, kind, inputs[..k], policy) == Ok(draft)
    {
      assert inputs[..k + 1][..k] == inputs[..k];
      var step := UpsertOne(draft, kind, inputs[k], policy);
      if step.Err? {
        RefusalSticks(s, kind, inputs, k + 1, policy);
        return Err(step.error);
      }
      draft := step.value;
    }
    assert inputs[..|inputs|] == inputs;
    return Ok(draft);
  }

  /** One record of a refresh: a creation and an update are one entry each, an unchanged record is none. */
  lemma RefreshRecord(s: State, input: Input)
    requires UpsertOne(s, Task, input, Strict).Ok?
    ensures var s' := UpsertOne(s, Task, input, Strict).value;
            var i := IndexOf(s.tasks, input.uid);
            if i < |s.tasks| && input.patch(s.tasks[i].content) == s.tasks[i].content then s' == s
            else s'.nextSequence == s.nextSequence + 1 && |s'.tasks| == |s.tasks| + if i < |s.tasks| then 0 else 1
  {
  }

  lemma UpsertNext(s: State, inputs: seq<Input>, k: nat, draft: State)
    requires k < |inputs| && UpsertAll(s, Task, inputs[..k], Strict) == Ok(draft)
    ensures UpsertAll(s, Task, inputs[..k + 1], Strict) == UpsertOne(draft, Task, inputs[k], Strict)
  {
    assert inputs[..k + 1][..k] == inputs[..k];
  }

  /** The refresh loop, counting what it did: every record is created, updated or unchanged, and every
      created or updated one is one entry of the journal. */
  method RefreshInOrder(s: State, inputs: seq<Input>) returns (r: Result<State, Refusal>, report: RefreshResult)
    ensures r == UpsertAll(s, Task, inputs, Strict)
    ensures r.Ok? ==> report.reason == Applied && report.created + report.updated + report.same == |inputs|
    ensures r.Ok? ==> report.created + report.updated == r.value.nextSequence - s.nextSequence
    ensures r.Ok? ==> report.created == |r.value.tasks| - |s.tasks|
    ensures r.Ok? && report.created + report.updated == 0 ==> r.value == s
  {
    var draft := s;
    report := RefreshResult(Applied, 0, 0, 0);
    for k := 0 to |inputs|
      invariant UpsertAll(s, Task, inputs[..k], Strict) == Ok(draft)
      invariant report.reason == Applied && report.created + report.updated + report.same == k
      invariant report.created + report.updated == draft.nextSequence - s.nextSequence
      invariant report.created == |draft.tasks| - |s.tasks|
      invariant report.created + report.updated == 0 ==> draft == s
    {
      UpsertNext(s, inputs, k, draft);
      var index := IndexOf(draft.tasks, inputs[k].uid);
      var step := UpsertOne(draft, Task, inputs[k], Strict);
      if step.Err? {
        RefusalSticks(s, Task, inputs, k + 1, Strict);
        return Err(step.error), report;
      }
      RefreshRecord(draft, inputs[k]);
      if index == |draft.tasks| {
        report := report.(created := report.created + 1);
      } else if inputs[k].patch(draft.tasks[index].content) == draft.tasks[index].content {
        report := report.(same := report.same + 1);
      } else {
        report := report.(updated := report.updated + 1);
      }
      draft := step.value;
    }
    assert inputs[..|inputs|] == inputs;
    return Ok(draft), report;
  }

  /** A refusal of some first records refuses the whole list. */
  lemma {:induction false} RefusalSticks(s: State, kind: Kind, inputs: seq<Input>, k: nat, policy: Policy)
    requires k <= |inputs| && UpsertAll(s, kind, inputs[..k], policy).Err?
    ensures UpsertAll(s, kind, inputs, policy) == Err(UpsertAll(s, kind, inputs[..k], policy).error)
    decreases |inputs|
  {
    if k == |inputs| {
      assert inputs[..k] == inputs;
    } else {
      var front := inputs[..|inputs| - 1];
      assert front[..k] == inputs[..k];
      RefusalSticks(s, kind, front, k, policy);
    }
  }
}
