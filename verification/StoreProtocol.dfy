/**
 Processes that read and mutate one PIM state file at the same time: the lock, the three files, the
 cache of each process and the work of each contender inside the exclusive section, one file-system
 call at a time. A process can die between any two steps, a call that changes a file can fail, and a
 load can be unable to read any of the three files. Tests for the existence of a file do not fail.
 */
module StoreProtocol {
  import opened Basics
  import opened Slots
  import L = LockProtocol

  datatype Kind = Reading | Mutating

  /** Why an envelope is being committed: first defaults, recovery, or a mutation. */
  datatype Why = Initialise | Repair | Change

  /** What a contender inside the exclusive section does next. */
  datatype Work =
    | Entering                                       // assert ownership before the load
    | Loading                                        // read and select
    | Cleaning(e: Envelope)                          // selected from current: remove next and backup
    | Claiming(e: Envelope, why: Why)                // assert ownership before opening next
    | Committing(e: Envelope, why: Why, stage: Stage)
    | Reclaiming(e: Envelope, why: Why)              // assert ownership after next is written
    | Restoring(e: Envelope, why: Why)               // the last rename failed
    | Loaded(e: Envelope)                            // loaded; about to answer or to run the mutator
    | Comparing(base: Envelope, e: Envelope)         // mutated; about to compare the files with base
    | Over                                           // returned or threw; the lock is released next

  datatype Reply = Reply(who: L.Token, env: Envelope, changed: bool)

  datatype Store = Store(
    lock: L.Lock,
    files: Files,
    work: map<L.Token, Work>,
    kinds: map<L.Token, Kind>,
    caches: map<L.Pid, Envelope>,
    last: Option<Envelope>,      // history: the newest envelope that has been in current
    replies: seq<Reply>)         // history: what operations returned, in order

  const FRESH := Store(L.EMPTY, NOTHING, map[], map[], map[], None, [])

  /** What the environment decides at a step: whether the call succeeds, whether it took effect,
      whether the mutator changed its draft, which of two removals runs first, and which of the three
      files cannot be read. */
  datatype Choice = Choice(ok: bool, landed: bool, changed: bool, nextFirst: bool, unread: set<Place>)

  datatype Event =
    | Locking(event: L.Event, kind: Kind)
    | Working(c: L.Token, choice: Choice)

  predicate Inside(s: Store, c: L.Token) {
    L.Runs(s.lock, c) && L.PcOf(s.lock, c).Critical? && c in s.work
  }

  predicate Enabled(s: Store, e: Event) {
    match e
    case Locking(le, _) =>
      L.Enabled(s.lock, le) && (le.Assert? ==> le.c in s.work && s.work[le.c].Over?)
    case Working(c, _) => Inside(s, c) && !s.work[c].Over? && c in s.kinds
  }

  /** s' differs from s in the work of c, the files and the history only. */
  predicate Local(s: Store, s': Store, c: L.Token) {
    s'.lock == s.lock && s'.kinds == s.kinds && c in s'.work && s'.work == s.work[c := s'.work[c]]
  }

  function Then(s: Store, c: L.Token, w: Work): Store {
    s.(work := s.work[c := w])
  }

  /** The generation and payload checks against the cache of the loading process. */
  predicate Compatible(s: Store, pid: L.Pid, e: Envelope) {
    pid in s.caches ==>
      e.generation >= s.caches[pid].generation
      && (e.generation == s.caches[pid].generation ==> e.payload == s.caches[pid].payload)
  }

  function Load(s: Store, c: L.Token, unread: set<Place>): (s': Store)
    requires Inside(s, c)
    ensures Local(s, s', c)
  {
    var pid := s.lock.contenders[c].pid;
    var seen := Seen(s.files, unread);
    var place := Select(seen);
    if place.None? then
      if s.files != NOTHING || pid in s.caches then Then(s, c, Over)
      else Then(s, c, Claiming(Envelope(0, Payload(c, [])), Initialise))
    else
      var e := At(seen, place.value).env;
      if !Compatible(s, pid, e) then Then(s, c, Over)
      else if place.value.Current? then Then(s, c, Cleaning(e))
      else Then(s, c, Claiming(e, Repair))
  }

  function Cached(s: Store, c: L.Token, e: Envelope): Store
    requires Inside(s, c)
  {
    s.(caches := s.caches[s.lock.contenders[c].pid := e])
  }

  function Answer(s: Store, c: L.Token, e: Envelope, changed: bool): Store {
    Then(s.(replies := s.replies + [Reply(c, e, changed)]), c, Over)
  }

  function Clean(s: Store, c: L.Token, e: Envelope, ch: Choice): (s': Store)
    requires Inside(s, c)
    ensures Local(s, s', c)
  {
    if s.files.next.Absent? && s.files.backup.Absent? then Then(Cached(s, c, e), c, Loaded(e))
    else if !ch.ok then Then(s, c, Over)
    else if !s.files.next.Absent? && (ch.nextFirst || s.files.backup.Absent?) then s.(files := s.files.(next := Absent))
    else s.(files := s.files.(backup := Absent))
  }

  function Commit(s: Store, c: L.Token, e: Envelope, why: Why, stage: Stage, ch: Choice): (s': Store)
    requires Inside(s, c)
    ensures Local(s, s', c)
  {
    var moved := s.(files := Do(stage, s.files, e));
    match stage
    case Open => if ch.ok then Then(moved, c, Committing(e, why, Write)) else Then(s, c, Over)
    case Write =>
      // A failed write leaves either a torn file or, when only the sync failed, a complete one.
      if ch.ok then Then(moved, c, Reclaiming(e, why))
      else Then(if ch.landed then moved else s, c, Over)
    case Drop => if ch.ok then Then(moved, c, Committing(e, why, Displace)) else Then(s, c, Over)
    case Displace => if ch.ok then Then(moved, c, Committing(e, why, Install)) else Then(s, c, Over)
    case Install =>
      // The rename can also succeed and the directory sync after it fail.
      if ch.ok then Then(moved.(last := Some(e)), c, Committing(e, why, Finish))
      else if ch.landed then Then(moved.(last := Some(e)), c, Over)
      else Then(s, c, Restoring(e, why))
    case Finish =>
      // A backup that cannot be removed is left for the next load.
      var done := if ch.ok then moved else s;
      if why.Change? then Answer(Cached(done, c, e), c, e, true)
      else Then(Cached(done, c, e), c, Loaded(e))
  }

  function Restore(s: Store, c: L.Token, ch: Choice): (s': Store)
    ensures Local(s, s', c)
  {
    var f := s.files;
    if f.current.Absent? && !f.backup.Absent? && ch.ok
    then Then(s.(files := f.(current := f.backup, backup := Absent)), c, Over)
    else Then(s, c, Over)
  }

  function Run(s: Store, c: L.Token, e: Envelope, ch: Choice): (s': Store)
    requires c in s.kinds
    ensures Local(s, s', c)
  {
    if s.kinds[c].Reading? then Answer(s, c, e, false)
    else if !ch.ok then Then(s, c, Over)
    else if !ch.changed then Answer(s, c, e, false)
    else Then(s, c, Comparing(e, Envelope(e.generation + 1, e.payload.(ops := e.payload.ops + [c]))))
  }

  function Owned(s: Store, c: L.Token, w: Work, ch: Choice): Store {
    Then(s, c, if s.lock.at == Some(c) && ch.ok then w else Over)
  }

  function Act(s: Store, c: L.Token, ch: Choice): (s': Store)
    requires Enabled(s, Working(c, ch))
    ensures Local(s, s', c)
  {
    match s.work[c]
    case Entering => Owned(s, c, Loading, ch)
    case Loading => if ch.ok then Load(s, c, ch.unread) else Then(s, c, Over)
    case Cleaning(e) => Clean(s, c, e, ch)
    case Claiming(e, why) => Owned(s, c, Committing(e, why, Open), ch)
    case Committing(e, why, stage) => Commit(s, c, e, why, stage, ch)
    case Reclaiming(e, why) => Owned(s, c, Committing(e, why, Drop), ch)
    case Restoring(_, _) => Restore(s, c, ch)
    case Loaded(e) => Run(s, c, e, ch)
    case Comparing(base, e) =>
      Then(s, c, if Selected(Seen(s.files, ch.unread)) == Some(base) then Claiming(e, Change) else Over)
  }

  function Apply(s: Store, e: Event): Store
    requires Enabled(s, e)
  {
    match e
    case Working(c, ch) => Act(s, c, ch)
    case Locking(le, kind) =>
      var locked := s.(lock := L.Apply(s.lock, le));
      if le.Arrive? then locked.(kinds := s.kinds[le.c := kind])
      else if le.Publish? && L.PcOf(locked.lock, le.c).Critical? then Then(locked, le.c, Entering)
      else locked
  }

  predicate IsRun(s: Store, es: seq<Event>)
    decreases |es|
  {
    es == [] || (Enabled(s, es[0]) && IsRun(Apply(s, es[0]), es[1..]))
  }

  function After(s: Store, es: seq<Event>): Store
    requires IsRun(s, es)
    decreases |es|
  {
    if es == [] then s else After(Apply(s, es[0]), es[1..])
  }

  /** A load that passes over `current` in a process whose cache does not know what lies there. */
  predicate StaleLoad(s: Store, e: Event) {
    && e.Working? && Enabled(s, e) && s.work[e.c].Loading? && e.choice.ok
    && PassesOver(s.files, e.choice.unread)
    && var pid := s.lock.contenders[e.c].pid;
       pid in s.caches ==> s.caches[pid].generation <= s.files.backup.env.generation
  }

  predicate HasStaleLoad(s: Store, es: seq<Event>)
    requires IsRun(s, es)
    decreases |es|
  {
    es != [] && (StaleLoad(s, es[0]) || HasStaleLoad(Apply(s, es[0]), es[1..]))
  }

  // The invariant

  /** The files are resting and e may be written to next. */
  predicate Ready(s: Store, c: L.Token, e: Envelope, why: Why) {
    match s.last
    case None => !why.Change? && e.generation == 0 && Numbered(e) && s.files.current.Absent? && s.files.backup.Absent?
    case Some(l) =>
      && !why.Initialise?
      && (e == l ==> s.files.current.Absent?)
      && (e == l || Succeeds(e, l))
      && (why.Change? ==> e.payload.ops == l.payload.ops + [c])
  }

  /** The newest mutation in e is the one contender c made. */
  predicate EndsWith(e: Envelope, c: L.Token) {
    e.payload.ops != [] && e.payload.ops[|e.payload.ops| - 1] == c
  }

  predicate CommitOk(s: Store, c: L.Token, e: Envelope, why: Why, stage: Stage) {
    var f := s.files;
    if stage.Finish? then
      && s.last == Some(e) && f.current == Holds(e) && f.next.Absent?
      && (why.Change? ==> EndsWith(e, c))
    else
      && Ready(s, c, e, why)
      && (stage.Open? && why.Initialise? ==> f == NOTHING)
      && (stage.Write? ==> f.next == Torn)
      && (stage.Drop? || stage.Displace? || stage.Install? ==> f.next == Holds(e))
      && (stage.Displace? ==> f.backup.Absent?)
      && (stage.Install? ==>
            f.current.Absent? && (f.backup.Holds? ==> s.last == Some(f.backup.env) && e != f.backup.env))
  }

  predicate WorkOk(s: Store, c: L.Token, w: Work) {
    var f := s.files;
    match w
    case Entering => true
    case Loading => true
    case Cleaning(e) => s.last == Some(e) && f.current == Holds(e)
    case Claiming(e, why) => CommitOk(s, c, e, why, Open)
    case Committing(e, why, stage) => CommitOk(s, c, e, why, stage)
    case Reclaiming(e, why) => CommitOk(s, c, e, why, Drop)
    case Restoring(e, why) => CommitOk(s, c, e, why, Install)
    case Loaded(e) => s.last == Some(e) && f.current == Holds(e) && !f.next.Holds?
    case Comparing(base, e) =>
      s.last == Some(base) && f.current == Holds(base) && !f.next.Holds?
      && Succeeds(e, base) && e.payload.ops == base.payload.ops + [c]
    case Over => true
  }

  predicate HolderOk(s: Store, c: L.Token)
    requires L.Runs(s.lock, c)
  {
    L.Holding(L.PcOf(s.lock, c)) ==>
      c in s.work && WorkOk(s, c, s.work[c]) && (L.PcOf(s.lock, c).Leaving? ==> s.work[c].Over?)
  }

  predicate Behind(e: Envelope, last: Option<Envelope>) {
    last.Some? && Precedes(e, last.value)
  }

  /** Answers are in order, nothing answered or cached is ahead of the newest envelope, and an
      acknowledged mutation is the newest one in its answer. */
  predicate HistoryOk(replies: seq<Reply>, caches: map<L.Pid, Envelope>, last: Option<Envelope>) {
    && (forall i, j :: 0 <= i < j < |replies| ==> Precedes(replies[i].env, replies[j].env))
    && (forall i :: 0 <= i < |replies| ==> Behind(replies[i].env, last))
    && (forall p :: p in caches ==> Behind(caches[p], last))
    && (forall i :: 0 <= i < |replies| && replies[i].changed ==> EndsWith(replies[i].env, replies[i].who))
  }

  predicate Inv(s: Store) {
    && L.Inv(s.lock)
    && s.lock.contenders.Keys <= s.kinds.Keys
    && Resting(s.files, s.last)
    && HistoryOk(s.replies, s.caches, s.last)
    && (forall c :: c in s.lock.contenders && L.Alive(s.lock, c) ==> HolderOk(s, c))
  }

  // Each kind of step keeps the invariant

  /** What the acting contender's step leaves behind. */
  predicate StepOk(s: Store, c: L.Token) {
    c in s.work && Resting(s.files, s.last) && HistoryOk(s.replies, s.caches, s.last) && WorkOk(s, c, s.work[c])
  }

  predicate Acting(s: Store, c: L.Token) {
    Inv(s) && Inside(s, c) && WorkOk(s, c, s.work[c])
  }

  lemma LoadIsOk(s: Store, c: L.Token, ch: Choice)
    requires Acting(s, c) && Enabled(s, Working(c, ch)) && s.work[c].Loading?
    requires ch.ok && !StaleLoad(s, Working(c, ch))
    ensures StepOk(Load(s, c, ch.unread), c)
  {
    var seen := Seen(s.files, ch.unread);
    SelectFindsTheBest(seen);
    assert At(seen, Current) == seen.current && At(seen, Next) == seen.next && At(seen, Backup) == seen.backup;
    if s.last.Some? {
      SelectionOfResting(s.files, s.last.value, ch.unread);
    }
  }

  /** Moving the newest envelope forward keeps the order of what was returned and cached before. */
  lemma AdvancingKeepsHistory(replies: seq<Reply>, caches: map<L.Pid, Envelope>, last: Option<Envelope>, e: Envelope)
    requires HistoryOk(replies, caches, last) && Numbered(e) && (last.Some? ==> Precedes(last.value, e))
    ensures HistoryOk(replies, caches, Some(e))
  {
    forall i | 0 <= i < |replies| ensures Behind(replies[i].env, Some(e)) {
      PrecedesIsOrder(replies[i].env, last.value, e);
    }
    forall p | p in caches ensures Behind(caches[p], Some(e)) {
      PrecedesIsOrder(caches[p], last.value, e);
    }
  }

  lemma CachingKeepsHistory(replies: seq<Reply>, caches: map<L.Pid, Envelope>, p: L.Pid, e: Envelope)
    requires HistoryOk(replies, caches, Some(e)) && Numbered(e)
    ensures HistoryOk(replies, caches[p := e], Some(e))
  {
  }

  lemma AnsweringKeepsHistory(replies: seq<Reply>, caches: map<L.Pid, Envelope>, r: Reply)
    requires HistoryOk(replies, caches, Some(r.env)) && Numbered(r.env)
    requires r.changed ==> EndsWith(r.env, r.who)
    ensures HistoryOk(replies + [r], caches, Some(r.env))
  {
    var replies' := replies + [r];
    forall i, j | 0 <= i < j < |replies'| ensures Precedes(replies'[i].env, replies'[j].env) {
      if j == |replies| { assert Behind(replies[i].env, Some(r.env)); }
    }
  }

  lemma CleanIsOk(s: Store, c: L.Token, ch: Choice)
    requires Acting(s, c) && s.work[c].Cleaning?
    ensures StepOk(Clean(s, c, s.work[c].e, ch), c)
  {
    var s' := Clean(s, c, s.work[c].e, ch);
    if s.files.next.Absent? && s.files.backup.Absent? {
      CachingKeepsHistory(s.replies, s.caches, s.lock.contenders[c].pid, s.work[c].e);
    }
  }

  lemma WritingNextIsOk(s: Store, c: L.Token, ch: Choice)
    requires Acting(s, c) && s.work[c].Committing? && (s.work[c].stage.Open? || s.work[c].stage.Write?)
    ensures var w := s.work[c]; StepOk(Commit(s, c, w.e, w.why, w.stage, ch), c)
  {
  }

  lemma MakingRoomIsOk(s: Store, c: L.Token, ch: Choice)
    requires Acting(s, c) && s.work[c].Committing? && (s.work[c].stage.Drop? || s.work[c].stage.Displace?)
    ensures var w := s.work[c]; StepOk(Commit(s, c, w.e, w.why, w.stage, ch), c)
  {
  }

  lemma InstallIsOk(s: Store, c: L.Token, ch: Choice)
    requires Acting(s, c) && s.work[c].Committing? && s.work[c].stage.Install?
    ensures var w := s.work[c]; StepOk(Commit(s, c, w.e, w.why, w.stage, ch), c)
  {
    var w := s.work[c];
    AdvancingKeepsHistory(s.replies, s.caches, s.last, w.e);
  }

  lemma FinishIsOk(s: Store, c: L.Token, ch: Choice)
    requires Acting(s, c) && s.work[c].Committing? && s.work[c].stage.Finish?
    ensures var w := s.work[c]; StepOk(Commit(s, c, w.e, w.why, w.stage, ch), c)
  {
    var w := s.work[c];
    var p := s.lock.contenders[c].pid;
    CachingKeepsHistory(s.replies, s.caches, p, w.e);
    if w.why.Change? {
      AnsweringKeepsHistory(s.replies, s.caches[p := w.e], Reply(c, w.e, true));
    }
  }

  lemma RestoreIsOk(s: Store, c: L.Token, ch: Choice)
    requires Acting(s, c) && s.work[c].Restoring?
    ensures StepOk(Restore(s, c, ch), c)
  {
  }

  lemma RunIsOk(s: Store, c: L.Token, ch: Choice)
    requires Acting(s, c) && s.work[c].Loaded? && c in s.kinds
    ensures StepOk(Run(s, c, s.work[c].e, ch), c)
  {
    var e := s.work[c].e;
    AnsweringKeepsHistory(s.replies, s.caches, Reply(c, e, false));
  }

  lemma CheckingIsOk(s: Store, c: L.Token, ch: Choice)
    requires Acting(s, c) && Enabled(s, Working(c, ch))
    requires var w := s.work[c]; w.Entering? || w.Claiming? || w.Reclaiming? || w.Comparing?
    ensures StepOk(Act(s, c, ch), c)
  {
  }

  lemma ActIsOk(s: Store, c: L.Token, ch: Choice)
    requires Acting(s, c) && Enabled(s, Working(c, ch)) && !StaleLoad(s, Working(c, ch))
    ensures StepOk(Act(s, c, ch), c)
  {
    match s.work[c]
    case Entering => CheckingIsOk(s, c, ch);
    case Loading => if ch.ok { LoadIsOk(s, c, ch); }
    case Cleaning(_) => CleanIsOk(s, c, ch);
    case Claiming(_, _) => CheckingIsOk(s, c, ch);
    case Committing(_, _, stage) =>
      if stage.Install? {
        InstallIsOk(s, c, ch);
      } else if stage.Finish? {
        FinishIsOk(s, c, ch);
      } else if stage.Open? || stage.Write? {
        WritingNextIsOk(s, c, ch);
      } else {
        MakingRoomIsOk(s, c, ch);
      }
    case Reclaiming(_, _) => CheckingIsOk(s, c, ch);
    case Restoring(_, _) => RestoreIsOk(s, c, ch);
    case Loaded(_) => RunIsOk(s, c, ch);
    case Comparing(_, _) => CheckingIsOk(s, c, ch);
  }

  lemma WorkingKeepsInv(s: Store, c: L.Token, ch: Choice)
    requires Inv(s) && Enabled(s, Working(c, ch)) && !StaleLoad(s, Working(c, ch))
    ensures Inv(Act(s, c, ch))
  {
    var s' := Act(s, c, ch);
    assert HolderOk(s, c);
    ActIsOk(s, c, ch);
    forall x | x in s'.lock.contenders && L.Alive(s'.lock, x) ensures HolderOk(s', x) {
      if L.Holding(L.PcOf(s.lock, x)) { L.OneHolder(s.lock, x, c); }
    }
  }

  /** The holder's work survives a step of the lock, whoever takes it. */
  lemma LockingKeepsHolder(s: Store, le: L.Event, kind: Kind, x: L.Token)
    requires Inv(s) && Enabled(s, Locking(le, kind))
    requires L.Runs(L.Apply(s.lock, le), x)
    ensures HolderOk(Apply(s, Locking(le, kind)), x)
  {
    var l' := L.Apply(s.lock, le);
    if L.Holding(L.PcOf(l', x)) {
      L.HoldersOnlyPublish(s.lock, le, x);
      if le != L.Publish(x) {
        assert HolderOk(s, x);
        assert L.ContenderOk(s.lock, x);
      }
    }
  }

  lemma LockingKeepsInv(s: Store, le: L.Event, kind: Kind)
    requires Inv(s) && Enabled(s, Locking(le, kind))
    ensures Inv(Apply(s, Locking(le, kind)))
  {
    L.StepKeepsInv(s.lock, le);
    L.ContendersOnlyArrive(s.lock, le);
    var s' := Apply(s, Locking(le, kind));
    assert s'.lock == L.Apply(s.lock, le) && s'.files == s.files && s'.last == s.last;
    forall x | x in s'.lock.contenders && L.Alive(s'.lock, x) ensures HolderOk(s', x) {
      LockingKeepsHolder(s, le, kind, x);
    }
  }

  lemma StepKeepsInv(s: Store, e: Event)
    requires Inv(s) && Enabled(s, e) && !StaleLoad(s, e)
    ensures Inv(Apply(s, e))
  {
    match e
    case Working(c, ch) => WorkingKeepsInv(s, c, ch);
    case Locking(le, kind) => LockingKeepsInv(s, le, kind);
  }

  lemma {:induction false} RunKeepsInv(s: Store, es: seq<Event>)
    requires Inv(s) && IsRun(s, es) && !HasStaleLoad(s, es)
    ensures Inv(After(s, es))
    decreases |es|
  {
    if es != [] {
      StepKeepsInv(s, es[0]);
      RunKeepsInv(Apply(s, es[0]), es[1..]);
    }
  }

  // What every run guarantees

  /** A run without a stale load leads from s to s'. */
  ghost predicate Leads(s: Store, s': Store) {
    exists es :: IsRun(s, es) && !HasStaleLoad(s, es) && After(s, es) == s'
  }

  ghost predicate Reachable(s: Store) {
    Leads(FRESH, s)
  }

  lemma ReachableIsInv(s: Store)
    requires Reachable(s)
    ensures Inv(s)
  {
    var es :| IsRun(FRESH, es) && !HasStaleLoad(FRESH, es) && After(FRESH, es) == s;
    RunKeepsInv(FRESH, es);
  }

  /** Across all processes and any number of deaths and failing calls, what the store returned is one
      chain in the order it was returned: a later answer extends every earlier one, an acknowledged
      mutation is the newest one in its answer and stays at its place in every later answer, and two
      answers of neighbouring generations differ by exactly one mutation. */
  lemma AnswersFormOneChain(s: Store, i: nat, j: nat)
    requires Reachable(s) && i < j < |s.replies|
    ensures Precedes(s.replies[i].env, s.replies[j].env)
    ensures s.replies[i].env.generation <= s.replies[j].env.generation
    ensures s.replies[i].env.generation == s.replies[j].env.generation ==> s.replies[i].env == s.replies[j].env
    ensures s.replies[i].env.generation + 1 == s.replies[j].env.generation ==>
              Succeeds(s.replies[j].env, s.replies[i].env)
    ensures s.replies[i].changed ==>
              var g := s.replies[i].env.generation;
              0 < g <= |s.replies[j].env.payload.ops| && s.replies[j].env.payload.ops[g - 1] == s.replies[i].who
  {
    ReachableIsInv(s);
  }

  /** Between two states of a run: nothing is forgotten, and what was answered since extends `last`. */
  predicate Extends(s: Store, s': Store) {
    && (s.last.Some? ==> s'.last.Some? && Precedes(s.last.value, s'.last.value))
    && s.replies <= s'.replies
    && (forall i :: |s.replies| <= i < |s'.replies| && s.last.Some? ==> Precedes(s.last.value, s'.replies[i].env))
  }

  lemma CommitExtends(s: Store, c: L.Token, ch: Choice)
    requires Acting(s, c) && s.work[c].Committing?
    ensures var w := s.work[c]; Extends(s, Commit(s, c, w.e, w.why, w.stage, ch))
  {
  }

  lemma QuietStepExtends(s: Store, s': Store)
    requires Resting(s.files, s.last) && s'.last == s.last && s'.replies == s.replies
    ensures Extends(s, s')
  {
  }

  lemma AnswerExtends(s: Store, c: L.Token, ch: Choice)
    requires Acting(s, c) && s.work[c].Loaded? && c in s.kinds
    ensures Extends(s, Run(s, c, s.work[c].e, ch))
  {
  }

  lemma StepExtends(s: Store, e: Event)
    requires Inv(s) && Enabled(s, e)
    ensures Extends(s, Apply(s, e))
  {
    match e
    case Locking(_, _) => QuietStepExtends(s, Apply(s, e));
    case Working(c, ch) =>
      assert HolderOk(s, c);
      if s.work[c].Committing? {
        CommitExtends(s, c, ch);
      } else if s.work[c].Loaded? {
        AnswerExtends(s, c, ch);
      } else {
        QuietStepExtends(s, Apply(s, e));
      }
  }

  lemma {:induction false} RunExtends(s: Store, es: seq<Event>)
    requires Inv(s) && IsRun(s, es) && !HasStaleLoad(s, es)
    ensures Extends(s, After(s, es))
    decreases |es|
  {
    if es != [] {
      var s1 := Apply(s, es[0]);
      StepKeepsInv(s, es[0]);
      StepExtends(s, es[0]);
      RunExtends(s1, es[1..]);
      var s2 := After(s1, es[1..]);
      if s.last.Some? {
        PrecedesIsOrder(s.last.value, s1.last.value, s2.last.value);
        forall i | |s.replies| <= i < |s2.replies| ensures Precedes(s.last.value, s2.replies[i].env) {
          if i < |s1.replies| {
            assert s2.replies[i] == s1.replies[i];
          } else {
            PrecedesIsOrder(s.last.value, s1.last.value, s2.replies[i].env);
          }
        }
      }
    }
  }

  /** Whatever a process has cached, everything that it, or any other process, is answered from then
      on extends it: no process sees its generation go backwards. */
  lemma CachesNeverRunAhead(s: Store, es: seq<Event>, p: L.Pid, i: nat)
    requires Reachable(s) && IsRun(s, es) && !HasStaleLoad(s, es)
    requires p in s.caches && |s.replies| <= i < |After(s, es).replies|
    ensures Precedes(s.caches[p], After(s, es).replies[i].env)
    ensures s.caches[p].generation <= After(s, es).replies[i].env.generation
  {
    ReachableIsInv(s);
    RunExtends(s, es);
    assert Behind(s.caches[p], s.last);
    PrecedesIsOrder(s.caches[p], s.last.value, After(s, es).replies[i].env);
  }

  /** In every reachable state the ownership assertions and the comparison before a commit of intact
      files pass, and a load is refused in two cases only: it sees a file but no envelope, or it passes
      over `current` while its process has cached something newer than `backup`. */
  lemma GuardsNeverFire(s: Store, c: L.Token, unread: set<Place>)
    requires Reachable(s) && Inside(s, c)
    ensures s.lock.at == Some(c)
    ensures s.work[c].Loading? && s.files == NOTHING ==> s.caches == map[]
    ensures s.work[c].Comparing? ==> Selected(s.files) == Some(s.work[c].base)
    ensures s.work[c].Loading? ==>
              var pid := s.lock.contenders[c].pid;
              Load(s, c, unread).work[c].Over?
              <==> Lost(Seen(s.files, unread))
                   || (PassesOver(s.files, unread)
                       && pid in s.caches && s.caches[pid].generation > s.files.backup.env.generation)
  {
    ReachableIsInv(s);
    assert L.ContenderOk(s.lock, c) && HolderOk(s, c);
    var seen := Seen(s.files, unread);
    SelectFindsTheBest(s.files);
    SelectFindsTheBest(seen);
    assert At(seen, Current) == seen.current && At(seen, Next) == seen.next && At(seen, Backup) == seen.backup;
    assert At(s.files, Current) == s.files.current && At(s.files, Backup) == s.files.backup;
    var p := s.lock.contenders[c].pid;
    if s.last.Some? {
      SelectionOfResting(s.files, s.last.value, unread);
      if p in s.caches {
        CacheIsCompatible(s.caches[p], s.last.value, Selected(seen));
      }
    }
  }

  /** A cached state and a newer, equal or immediately older one are ordered by their generations. */
  lemma CacheIsCompatible(cached: Envelope, l: Envelope, found: Option<Envelope>)
    requires Precedes(cached, l)
    ensures found.Some? && (found.value == l || Succeeds(found.value, l) || Succeeds(l, found.value)) ==>
              && (cached.generation == found.value.generation ==> cached.payload == found.value.payload)
              && (cached.generation > found.value.generation ==> Succeeds(l, found.value))
  {
  }

  // Composing runs

  lemma {:induction false} RunsConcat(s: Store, a: seq<Event>, b: seq<Event>)
    requires IsRun(s, a) && IsRun(After(s, a), b)
    ensures IsRun(s, a + b) && After(s, a + b) == After(After(s, a), b)
    ensures HasStaleLoad(s, a + b) <==> HasStaleLoad(s, a) || HasStaleLoad(After(s, a), b)
    decreases |a|
  {
    if a == [] {
      assert a + b == b;
    } else {
      assert (a + b)[1..] == a[1..] + b;
      RunsConcat(Apply(s, a[0]), a[1..], b);
    }
  }

  lemma LeadsOn(s: Store, s1: Store, s2: Store)
    requires Leads(s, s1) && Leads(s1, s2)
    ensures Leads(s, s2)
  {
    var a :| IsRun(s, a) && !HasStaleLoad(s, a) && After(s, a) == s1;
    var b :| IsRun(s1, b) && !HasStaleLoad(s1, b) && After(s1, b) == s2;
    RunsConcat(s, a, b);
  }

  lemma StepLeads(s: Store, e: Event)
    requires Enabled(s, e) && !StaleLoad(s, e)
    ensures Leads(s, Apply(s, e))
  {
    var one: seq<Event> := [e];
    var rest := one[1..];
    assert rest == [] && IsRun(Apply(s, e), rest) && !HasStaleLoad(Apply(s, e), rest) && After(Apply(s, e), rest) == Apply(s, e);
    assert IsRun(s, one) && !HasStaleLoad(s, one);
    assert After(s, one) == After(Apply(s, one[0]), rest);
  }

  /** Every call succeeds and every file can be read. */
  const GO := Choice(true, true, true, true, {})

  lemma GoesOn(s0: Store, s: Store, c: L.Token, s': Store)
    requires Leads(s0, s) && Enabled(s, Working(c, GO)) && Act(s, c, GO) == s'
    ensures Leads(s0, s')
  {
    StepLeads(s, Working(c, GO));
    LeadsOn(s0, s, s');
  }
}
