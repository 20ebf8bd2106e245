/**
 Task refreshes against local edits: any number of processes, each with any number of refreshes in
 flight, and edits by anybody at any time. A refresh numbers itself, reads the task version, waits for
 its loader, looks at the version again, and then commits in one transaction.
 */
module TaskRefresh {
  import opened Basics
  import opened PimJournal

  type Pid = nat
  type Rid = nat

  datatype Phase = Numbered | Loading | Checking | Committing | Settled

  /** `seen` is history: the task collection at the moment the baseline was read. */
  datatype Request = Request(pid: Pid, id: nat, phase: Phase, baseline: nat, seen: seq<Entity>, inputs: seq<Input>)

  datatype System = System(pim: State, latest: map<Pid, nat>, requests: map<Rid, Request>)

  const START := System(EMPTY, map[], map[])

  datatype Event =
    | Edit(op: Op)
    | Begin(r: Rid, pid: Pid)
    | ReadBaseline(r: Rid)
    | Deliver(r: Rid, inputs: seq<Input>)
    | Recheck(r: Rid)
    | Commit(r: Rid)

  function LatestOf(s: System, pid: Pid): nat {
    if pid in s.latest then s.latest[pid] else 0
  }

  predicate InPhase(s: System, r: Rid, phase: Phase) {
    r in s.requests && s.requests[r].phase == phase
  }

  predicate Enabled(s: System, e: Event) {
    match e
    case Edit(op) => !op.DoRefresh?
    case Begin(r, _) => r !in s.requests
    case ReadBaseline(r) => InPhase(s, r, Numbered)
    case Deliver(r, _) => InPhase(s, r, Loading)
    case Recheck(r) => InPhase(s, r, Checking)
    case Commit(r) => InPhase(s, r, Committing)
  }

  predicate Superseded(s: System, q: Request) {
    q.id != LatestOf(s, q.pid)
  }

  function With(s: System, r: Rid, q: Request): System {
    s.(requests := s.requests[r := q])
  }

  /** The commit writes exactly when neither guard stops it. */
  predicate Writes(s: System, r: Rid)
    requires r in s.requests
  {
    var q := s.requests[r];
    !Superseded(s, q) && s.pim.taskVersion == q.baseline && Refresh(s.pim, q.inputs).Ok?
  }

  function Apply(s: System, e: Event): System
    requires Enabled(s, e)
  {
    match e
    case Edit(op) => s.(pim := PimJournal.Apply(s.pim, op))
    case Begin(r, pid) =>
      var id := LatestOf(s, pid) + 1;
      With(s.(latest := s.latest[pid := id]), r, Request(pid, id, Numbered, 0, [], []))
    case ReadBaseline(r) =>
      With(s, r, s.requests[r].(phase := Loading, baseline := s.pim.taskVersion, seen := s.pim.tasks))
    case Deliver(r, inputs) =>
      var q := s.requests[r];
      With(s, r, q.(inputs := inputs, phase := if Superseded(s, q) then Settled else Checking))
    case Recheck(r) =>
      var q := s.requests[r];
      With(s, r, q.(phase := if s.pim.taskVersion == q.baseline then Committing else Settled))
    case Commit(r) =>
      var settled := With(s, r, s.requests[r].(phase := Settled));
      if Writes(s, r) then settled.(pim := Refresh(s.pim, s.requests[r].inputs).value) else settled
  }

  predicate IsRun(s: System, es: seq<Event>)
    decreases |es|
  {
    es == [] || (Enabled(s, es[0]) && IsRun(Apply(s, es[0]), es[1..]))
  }

  function After(s: System, es: seq<Event>): System
    requires IsRun(s, es)
    decreases |es|
  {
    if es == [] then s else After(Apply(s, es[0]), es[1..])
  }

  /** A request that has read its baseline: an unmoved version means an unmoved task collection. */
  predicate RequestOk(s: System, q: Request) {
    && (!q.phase.Numbered? ==> q.baseline <= s.pim.taskVersion && (q.baseline == s.pim.taskVersion ==> q.seen == s.pim.tasks))
    && q.id <= LatestOf(s, q.pid)
  }

  ghost predicate Inv(s: System) {
    Journaled(s.pim) && forall r :: r in s.requests ==> RequestOk(s, s.requests[r])
  }

  lemma StepKeepsInv(s: System, e: Event)
    requires Inv(s) && Enabled(s, e)
    ensures Inv(Apply(s, e))
    ensures Follows(s.pim, Apply(s, e).pim)
  {
    var s' := Apply(s, e);
    assert Journaled(s'.pim) && Follows(s.pim, s'.pim) by {
      match e {
        case Edit(op) =>
          ApplyKeepsJournaled(s.pim, op);
          ApplyFollows(s.pim, op);
        case Commit(r) =>
          RefreshKeepsJournaled(s.pim, s.requests[r].inputs);
          RefreshFollows(s.pim, s.requests[r].inputs);
        case Begin(_, _) =>
        case ReadBaseline(_) =>
        case Deliver(_, _) =>
        case Recheck(_) =>
      }
    }
    forall r | r in s'.requests ensures RequestOk(s', s'.requests[r]) {
      if r in s.requests { assert RequestOk(s, s.requests[r]); }
    }
  }

  lemma {:induction false} RunKeepsInv(s: System, es: seq<Event>)
    requires Inv(s) && IsRun(s, es)
    ensures Inv(After(s, es))
    decreases |es|
  {
    if es != [] {
      StepKeepsInv(s, es[0]);
      RunKeepsInv(Apply(s, es[0]), es[1..]);
    }
  }

  lemma WriterSawTheTasks(s: System, r: Rid)
    requires Inv(s) && Enabled(s, Commit(r)) && Writes(s, r)
    ensures var q := s.requests[r];
            && q.seen == s.pim.tasks
            && q.id == LatestOf(s, q.pid)
            && Apply(s, Commit(r)).pim == Refresh(s.pim, q.inputs).value
  {
    assert RequestOk(s, s.requests[r]);
  }

  /** In every interleaving, a refresh that writes is the latest one its process started, and the tasks
      it writes onto are exactly those it saw when it read its baseline. */
  lemma AppliedRefreshSawWhatItWritesOn(es: seq<Event>, r: Rid)
    requires IsRun(START, es) && Enabled(After(START, es), Commit(r)) && Writes(After(START, es), r)
    ensures var s := After(START, es);
            var q := s.requests[r];
            && q.seen == s.pim.tasks
            && q.id == LatestOf(s, q.pid)
            && Apply(s, Commit(r)).pim == Refresh(s.pim, q.inputs).value
  {
    assert Journaled(EMPTY);
    RunKeepsInv(START, es);
    WriterSawTheTasks(After(START, es), r);
  }

  /** Once the tasks have moved since a refresh read its baseline, that refresh never writes, whatever
      happens later. */
  lemma {:induction false} LocalEditWins(s: System, r: Rid, es: seq<Event>)
    requires Inv(s) && IsRun(s, es) && r in s.requests
    requires !s.requests[r].phase.Numbered? && (s.requests[r].seen != s.pim.tasks || s.requests[r].baseline < s.pim.taskVersion)
    ensures r in After(s, es).requests && !After(s, es).requests[r].phase.Numbered?
    ensures After(s, es).requests[r].baseline < After(s, es).pim.taskVersion && !Writes(After(s, es), r)
    decreases |es|
  {
    assert RequestOk(s, s.requests[r]);
    if es != [] {
      StepKeepsInv(s, es[0]);
      var s' := Apply(s, es[0]);
      assert r in s'.requests && s'.requests[r].baseline == s.requests[r].baseline && !s'.requests[r].phase.Numbered?;
      LocalEditWins(s', r, es[1..]);
    }
  }
}
