/**
 How the state of the store can be lost for good, over every run of every number of processes: the
 invariant behind it does not depend on which files the loads could read.
 */
module StoreLoss {
  import opened Basics
  import opened Slots
  import opened StoreProtocol
  import L = LockProtocol
  import opened StaleLoads

  /** Neither of the two files that a commit does not rewrite first holds an envelope. */
  predicate Exposed(f: Files) {
    !f.current.Holds? && !f.backup.Holds?
  }

  predicate OpensNext(s: Store, e: Event) {
    e.Working? && e.c in s.work && s.work[e.c].Committing? && s.work[e.c].stage.Open? && e.choice.ok
  }

  predicate Readable(f: Files) {
    f.current.Holds? || f.next.Holds? || f.backup.Holds?
  }

  /** What is in the files while a contender is at w, whichever loads went before. */
  predicate Backed(w: Work, f: Files) {
    match w
    case Entering => true
    case Loading => true
    case Cleaning(e) => f.current.Holds?
    case Claiming(e, why) => if why.Initialise? then f == NOTHING else Readable(f)
    case Committing(e, why, stage) =>
      if stage.Open? then (if why.Initialise? then f == NOTHING else Readable(f))
      else if stage.Write? then f.next == Torn
      else if stage.Finish? then f.current.Holds?
      else f.next.Holds?
    case Reclaiming(_, _) => f.next.Holds?
    case Restoring(_, _) => f.next.Holds?
    case Loaded(_) => f.current.Holds?
    case Comparing(_, _) => f.current.Holds?
    case Over => true
  }

  predicate HolderBacked(s: Store, c: L.Token)
    requires L.Runs(s.lock, c)
  {
    L.Holding(L.PcOf(s.lock, c)) ==>
      c in s.work && Backed(s.work[c], s.files) && (L.PcOf(s.lock, c).Leaving? ==> s.work[c].Over?)
  }

  predicate Grounded(s: Store) {
    && L.Inv(s.lock)
    && s.lock.contenders.Keys <= s.kinds.Keys
    && (forall c :: c in s.lock.contenders && L.Alive(s.lock, c) ==> HolderBacked(s, c))
  }

  lemma LoadIsBacked(s: Store, c: L.Token, unread: set<Place>)
    requires Inside(s, c)
    ensures Backed(Load(s, c, unread).work[c], s.files)
  {
    LostIffNothingHolds(Seen(s.files, unread));
  }

  lemma ActIsBacked(s: Store, c: L.Token, ch: Choice)
    requires Enabled(s, Working(c, ch)) && Backed(s.work[c], s.files)
    ensures Backed(Act(s, c, ch).work[c], Act(s, c, ch).files)
  {
    if s.work[c].Loading? { LoadIsBacked(s, c, ch.unread); }
  }

  lemma StepKeepsGrounded(s: Store, e: Event)
    requires Grounded(s) && Enabled(s, e)
    ensures Grounded(Apply(s, e))
  {
    var s' := Apply(s, e);
    match e
    case Working(c, ch) =>
      assert HolderBacked(s, c);
      ActIsBacked(s, c, ch);
      forall x | x in s'.lock.contenders && L.Alive(s'.lock, x) ensures HolderBacked(s', x) {
        if L.Holding(L.PcOf(s.lock, x)) { L.OneHolder(s.lock, x, c); }
      }
    case Locking(le, kind) =>
      L.StepKeepsInv(s.lock, le);
      L.ContendersOnlyArrive(s.lock, le);
      forall x | x in s'.lock.contenders && L.Alive(s'.lock, x) ensures HolderBacked(s', x) {
        LockingKeepsBacked(s, le, kind, x);
      }
  }

  lemma LockingKeepsBacked(s: Store, le: L.Event, kind: Kind, x: L.Token)
    requires Grounded(s) && Enabled(s, Locking(le, kind)) && L.Runs(L.Apply(s.lock, le), x)
    ensures HolderBacked(Apply(s, Locking(le, kind)), x)
  {
    if L.Holding(L.PcOf(L.Apply(s.lock, le), x)) {
      L.HoldersOnlyPublish(s.lock, le, x);
      if le != L.Publish(x) {
        assert HolderBacked(s, x) && L.ContenderOk(s.lock, x);
      }
    }
  }

  lemma {:induction false} RunKeepsGrounded(s: Store, es: seq<Event>)
    requires Grounded(s) && IsRun(s, es)
    ensures Grounded(After(s, es))
    decreases |es|
  {
    if es != [] {
      StepKeepsGrounded(s, es[0]);
      RunKeepsGrounded(Apply(s, es[0]), es[1..]);
    }
  }

  lemma RunsAreGrounded(s: Store)
    requires Leads(FRESH, s)
    ensures Grounded(s)
  {
    var es :| IsRun(FRESH, es) && After(FRESH, es) == s;
    RunKeepsGrounded(FRESH, es);
  }

  lemma CommitLosesIffItOpensExposed(s: Store, c: L.Token, ch: Choice)
    requires Inside(s, c) && s.work[c].Committing? && Backed(s.work[c], s.files) && !Lost(s.files)
    ensures var w := s.work[c];
            Lost(Commit(s, c, w.e, w.why, w.stage, ch).files) <==> w.stage.Open? && ch.ok && Exposed(s.files)
  {
    var w := s.work[c];
    LostIffNothingHolds(s.files);
    LostIffNothingHolds(Commit(s, c, w.e, w.why, w.stage, ch).files);
  }

  /** A step turns readable files into unreadable ones exactly when it opens `next` for rewriting while
      neither `current` nor `backup` holds an envelope. From there on all depends on the write. */
  lemma StepLosesIffItOpensExposed(s: Store, e: Event)
    requires Grounded(s) && Enabled(s, e) && !Lost(s.files)
    ensures Lost(Apply(s, e).files) <==> OpensNext(s, e) && Exposed(s.files)
  {
    if e.Working? {
      assert HolderBacked(s, e.c);
      var w := s.work[e.c];
      if w.Committing? {
        CommitLosesIffItOpensExposed(s, e.c, e.choice);
      } else if w.Cleaning? || w.Restoring? {
        LostIffNothingHolds(s.files);
        LostIffNothingHolds(Apply(s, e).files);
      }
    }
  }

  /** c lives and has opened `next` but not yet written it. */
  predicate Writing(s: Store, c: L.Token) {
    Inside(s, c) && s.work[c].Committing? && s.work[c].stage.Write?
  }

  /** No file holds an envelope, some file is there, and nobody is about to write one. */
  ghost predicate Gone(s: Store) {
    Lost(s.files) && forall c :: !Writing(s, c)
  }

  /** What a contender can be doing inside the section while no file holds an envelope. */
  lemma WorkOnLostFiles(s: Store, c: L.Token)
    requires Grounded(s) && Inside(s, c) && Lost(s.files)
    ensures Writing(s, c) || s.work[c].Entering? || s.work[c].Loading? || s.work[c].Over?
  {
    LostIffNothingHolds(s.files);
    assert HolderBacked(s, c);
  }

  lemma LoadOfLostFiles(s: Store, c: L.Token, unread: set<Place>)
    requires Inside(s, c) && Lost(s.files)
    ensures Load(s, c, unread) == Then(s, c, Over)
  {
    LostIffNothingHolds(s.files);
    LostIffNothingHolds(Seen(s.files, unread));
  }

  /** Whoever is inside after a step of the lock was inside before, at the same work, or begins. */
  lemma InsideAfterLocking(s: Store, le: L.Event, kind: Kind, x: L.Token)
    requires Enabled(s, Locking(le, kind)) && Inside(Apply(s, Locking(le, kind)), x)
    ensures var s' := Apply(s, Locking(le, kind));
            || s'.work[x].Entering?
            || (x in s.work && s'.work[x] == s.work[x] && L.Runs(s.lock, x) && L.Holding(L.PcOf(s.lock, x)))
  {
    L.HoldersOnlyPublish(s.lock, le, x);
  }

  lemma WritersOnlyWork(s: Store, le: L.Event, kind: Kind, x: L.Token)
    requires Grounded(s) && Enabled(s, Locking(le, kind)) && Writing(Apply(s, Locking(le, kind)), x)
    ensures Writing(s, x)
  {
    InsideAfterLocking(s, le, kind, x);
    assert HolderBacked(s, x);
  }

  lemma StepKeepsGone(s: Store, e: Event)
    requires Grounded(s) && Gone(s) && Enabled(s, e)
    ensures var s' := Apply(s, e);
            Gone(s') && s'.files == s.files && s'.replies == s.replies && s'.caches == s.caches
  {
    var s' := Apply(s, e);
    LostIffNothingHolds(s.files);
    match e
    case Working(c, ch) =>
      WorkOnLostFiles(s, c);
      if s.work[c].Loading? { LoadOfLostFiles(s, c, ch.unread); }
      forall x ensures !Writing(s', x) {
        if x != c && Inside(s', x) { L.OneHolder(s.lock, x, c); }
      }
    case Locking(le, kind) =>
      forall x ensures !Writing(s', x) {
        if Writing(s', x) { WritersOnlyWork(s, le, kind, x); }
      }
  }

  /** Once the state is gone it stays gone: whoever comes, dies or retries, in every later run the
      files stay as they are, nothing is answered and nothing is cached. */
  lemma {:induction false} GoneForever(s: Store, es: seq<Event>)
    requires Grounded(s) && Gone(s) && IsRun(s, es)
    ensures var s' := After(s, es);
            Gone(s') && s'.files == s.files && s'.replies == s.replies && s'.caches == s.caches
    decreases |es|
  {
    if es != [] {
      StepKeepsGone(s, es[0]);
      StepKeepsGrounded(s, es[0]);
      GoneForever(Apply(s, es[0]), es[1..]);
    }
  }

  /** The one step that loses the state for good: between opening an exposed `next` and having written
      it, the writer dies, or its write fails and leaves the file torn. */
  predicate CutsExposedWrite(s: Store, e: Event) {
    && Exposed(s.files)
    && match e
       case Working(c, ch) => Writing(s, c) && !ch.ok && !ch.landed
       case Locking(le, _) =>
         && le.Die? && s.lock.at.Some?
         && Writing(s, s.lock.at.value) && s.lock.contenders[s.lock.at.value].pid == le.pid
  }

  lemma WritersFindNextTorn(s: Store, c: L.Token)
    requires Grounded(s) && Writing(s, c)
    ensures s.files.next == Torn && (Exposed(s.files) <==> Lost(s.files))
  {
    LostIffNothingHolds(s.files);
    assert HolderBacked(s, c);
  }

  lemma LosingByWork(s: Store, c: L.Token, ch: Choice)
    requires Grounded(s) && !Gone(s) && Enabled(s, Working(c, ch))
    ensures Gone(Act(s, c, ch)) <==> CutsExposedWrite(s, Working(c, ch))
  {
    var s' := Act(s, c, ch);
    LostIffNothingHolds(s.files);
    assert HolderBacked(s, c);
    forall x | Inside(s', x) && x != c ensures false {
      L.OneHolder(s.lock, x, c);
    }
    if Writing(s, c) {
      LostIffNothingHolds(s'.files);
    } else {
      assert !Lost(s.files) by {
        if Lost(s.files) {
          var x :| Writing(s, x);
          L.OneHolder(s.lock, x, c);
        }
      }
      StepLosesIffItOpensExposed(s, Working(c, ch));
      if Lost(s'.files) { assert Writing(s', c); }
    }
  }

  lemma LosingByLock(s: Store, le: L.Event, kind: Kind)
    requires Grounded(s) && !Gone(s) && Enabled(s, Locking(le, kind))
    ensures Gone(Apply(s, Locking(le, kind))) <==> CutsExposedWrite(s, Locking(le, kind))
  {
    var s' := Apply(s, Locking(le, kind));
    LostIffNothingHolds(s.files);
    if Lost(s.files) {
      var c :| Writing(s, c);
      assert L.ContenderOk(s.lock, c) && HolderBacked(s, c);
      forall x | Writing(s', x) ensures x == c {
        InsideAfterLocking(s, le, kind, x);
        if !s'.work[x].Entering? { L.OneHolder(s.lock, x, c); }
      }
      if le != L.Die(s.lock.contenders[c].pid) {
        L.HolderStays(s.lock, c, le);
        assert Writing(s', c);
      }
    } else if s.lock.at.Some? && Writing(s, s.lock.at.value) {
      WritersFindNextTorn(s, s.lock.at.value);
    }
  }

  lemma StepLosesIffAWriteIsCut(s: Store, e: Event)
    requires Grounded(s) && !Gone(s) && Enabled(s, e)
    ensures Gone(Apply(s, e)) <==> CutsExposedWrite(s, e)
  {
    match e
    case Working(c, ch) => LosingByWork(s, c, ch);
    case Locking(le, kind) => LosingByLock(s, le, kind);
  }

  predicate HasCutWrite(s: Store, es: seq<Event>)
    requires IsRun(s, es)
    decreases |es|
  {
    es != [] && (CutsExposedWrite(s, es[0]) || HasCutWrite(Apply(s, es[0]), es[1..]))
  }

  lemma {:induction false} RunLosesIffAWriteIsCut(s: Store, es: seq<Event>)
    requires Grounded(s) && !Gone(s) && IsRun(s, es)
    ensures Gone(After(s, es)) <==> HasCutWrite(s, es)
    decreases |es|
  {
    if es != [] {
      var s' := Apply(s, es[0]);
      StepLosesIffAWriteIsCut(s, es[0]);
      StepKeepsGrounded(s, es[0]);
      if Gone(s') {
        GoneForever(s', es[1..]);
      } else {
        RunLosesIffAWriteIsCut(s', es[1..]);
      }
    }
  }

  /** No file holds an envelope, and whatever run follows, the files stay as they are and no operation
      is answered. */
  ghost predicate LostForGood(s: Store) {
    Lost(s.files) && forall es :: IsRun(s, es) ==> After(s, es).files == s.files && After(s, es).replies == s.replies
  }

  lemma GoneIffLostForGood(s: Store)
    requires Grounded(s)
    ensures Gone(s) <==> LostForGood(s)
  {
    if Gone(s) {
      forall es | IsRun(s, es) ensures After(s, es).files == s.files && After(s, es).replies == s.replies {
        GoneForever(s, es);
      }
    } else if LostForGood(s) {
      var c :| Writing(s, c);
      StepLeads(s, Working(c, GO));
      WritersFindNextTorn(s, c);
    }
  }

  /** With any number of processes, deaths, failing calls and unreadable files, the state of the store is
      lost for good if and only if somewhere the writer of an exposed `next` dies, or fails, before the
      file is complete. */
  lemma LostIffAWriteWasCut(es: seq<Event>)
    requires IsRun(FRESH, es)
    ensures LostForGood(After(FRESH, es)) <==> HasCutWrite(FRESH, es)
  {
    RunLosesIffAWriteIsCut(FRESH, es);
    RunKeepsGrounded(FRESH, es);
    GoneIffLostForGood(After(FRESH, es));
  }

  /** The first process has opened `next` for the defaults. */
  const OPENED := STARTED.(files := Files(Absent, Torn, Absent), work := map[WRITER := Committing(FIRST, Initialise, Write)])

  lemma OpensForDefaults()
    ensures Leads(FRESH, OPENED)
  {
    StartsUp();
    GoesOn(FRESH, STARTED, WRITER, Then(STARTED, WRITER, Committing(FIRST, Initialise, Open)));
    GoesOn(FRESH, Then(STARTED, WRITER, Committing(FIRST, Initialise, Open)), WRITER, OPENED);
  }

  /** The simplest loss: the first process ever dies after opening `next` for the defaults. The torn
      file stays the only one, and no operation is ever answered. */
  lemma FirstStartCanLoseTheStore()
    ensures exists s :: Leads(FRESH, s) && s.files == Files(Absent, Torn, Absent) && s.replies == [] && LostForGood(s)
  {
    OpensForDefaults();
    var dies := Locking(L.Die(0), Mutating);
    var s := Apply(OPENED, dies);
    StepLeads(OPENED, dies);
    LeadsOn(FRESH, OPENED, s);
    RunsAreGrounded(s);
    LostIffNothingHolds(s.files);
    GoneIffLostForGood(s);
  }
}
