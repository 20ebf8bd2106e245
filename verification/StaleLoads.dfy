/**
 Loads that cannot read the newest envelope: which of them go back behind it, and what becomes of the
 store when one does.
 */
module StaleLoads {
  import opened Basics
  import opened Slots
  import opened StoreProtocol
  import L = LockProtocol

  /** Which loads go on from an older state than the newest one that was in `current`: exactly those
      that cannot read `current`, find `next` no help and `backup` readable, in a process whose cache
      does not know better. */
  lemma StaleLoadIff(s: Store, c: L.Token, ch: Choice)
    requires Reachable(s) && Enabled(s, Working(c, ch)) && s.work[c].Loading? && ch.ok && s.last.Some?
    ensures var w := Load(s, c, ch.unread).work[c];
            StaleLoad(s, Working(c, ch))
            <==> (w.Cleaning? || w.Claiming?) && w.e != s.last.value && !Succeeds(w.e, s.last.value)
  {
    ReachableIsInv(s);
    GuardsNeverFire(s, c, ch.unread);
    SelectionOfResting(s.files, s.last.value, ch.unread);
  }

  /** c is alone in the section and is about to do w. */
  predicate Doing(s: Store, c: L.Token, w: Work) {
    Inside(s, c) && c in s.kinds && s.lock.at == Some(c) && s.work[c] == w
  }

  /** c has installed e and goes on to remove `backup`. */
  function Installed(s: Store, c: L.Token, e: Envelope, why: Why): Store {
    Then(s.(files := Files(Holds(e), Absent, s.files.current), last := Some(e)), c, Committing(e, why, Finish))
  }

  function Recovered(s: Store, c: L.Token, e: Envelope): Store
    requires Inside(s, c)
  {
    Then(Cached(s.(files := Files(Holds(e), Absent, Absent), last := Some(e)), c, e), c, Loaded(e))
  }

  lemma OpensAlone(s: Store, c: L.Token, e: Envelope, why: Why)
    requires Doing(s, c, Claiming(e, why))
    ensures Leads(s, Then(s.(files := s.files.(next := Torn)), c, Committing(e, why, Write)))
  {
    var s1 := Then(s, c, Committing(e, why, Open));
    StepLeads(s, Working(c, GO));
    GoesOn(s, s1, c, Then(s.(files := s.files.(next := Torn)), c, Committing(e, why, Write)));
  }

  lemma WritesAlone(s: Store, c: L.Token, e: Envelope, why: Why)
    requires Doing(s, c, Claiming(e, why))
    ensures Leads(s, Then(s.(files := s.files.(next := Holds(e))), c, Committing(e, why, Drop)))
  {
    var s1 := Then(s.(files := s.files.(next := Torn)), c, Committing(e, why, Write));
    var s2 := Then(s.(files := s.files.(next := Holds(e))), c, Reclaiming(e, why));
    OpensAlone(s, c, e, why);
    GoesOn(s, s1, c, s2);
    GoesOn(s, s2, c, Then(s2, c, Committing(e, why, Drop)));
  }

  lemma InstallsAlone(s: Store, c: L.Token, e: Envelope, why: Why)
    requires Doing(s, c, Committing(e, why, Drop)) && s.files.next == Holds(e)
    ensures Leads(s, Installed(s, c, e, why))
  {
    var f := s.files;
    var s1 := Then(s.(files := f.(backup := Absent)), c, Committing(e, why, Displace));
    var s2 := Then(s.(files := Files(Absent, Holds(e), f.current)), c, Committing(e, why, Install));
    StepLeads(s, Working(c, GO));
    GoesOn(s, s1, c, s2);
    GoesOn(s, s2, c, Installed(s, c, e, why));
  }

  /** A contender left alone with an envelope to commit gets it into `current`. */
  lemma CommitsAlone(s: Store, c: L.Token, e: Envelope, why: Why)
    requires Doing(s, c, Claiming(e, why))
    ensures Leads(s, Installed(s, c, e, why))
  {
    var s1 := Then(s.(files := s.files.(next := Holds(e))), c, Committing(e, why, Drop));
    WritesAlone(s, c, e, why);
    InstallsAlone(s1, c, e, why);
    LeadsOn(s, s1, Installed(s, c, e, why));
  }

  lemma RecoversAlone(s: Store, c: L.Token, e: Envelope, why: Why)
    requires Doing(s, c, Claiming(e, why)) && !why.Change?
    ensures Leads(s, Recovered(s, c, e))
  {
    var s1 := Installed(s, c, e, why);
    CommitsAlone(s, c, e, why);
    GoesOn(s, s1, c, Recovered(s, c, e));
  }

  /** A stale load drops the newest envelope: the reader goes on to be answered from the one before,
      which is by then the only one left in the files. */
  lemma StaleLoadForks(s: Store, c: L.Token, ch: Choice)
    requires Reachable(s) && StaleLoad(s, Working(c, ch)) && s.kinds[c].Reading?
    ensures s.last.Some? && s.files.backup.Holds? && Succeeds(s.last.value, s.files.backup.env)
    ensures exists s' :: Leads(Apply(s, Working(c, ch)), s')
              && s'.replies == s.replies + [Reply(c, s.files.backup.env, false)]
              && s'.files == Files(Holds(s.files.backup.env), Absent, Absent)
  {
    ReachableIsInv(s);
    assert L.ContenderOk(s.lock, c);
    SelectionOfResting(s.files, s.last.value, ch.unread);
    GuardsNeverFire(s, c, ch.unread);
    var e := s.files.backup.env;
    var s1 := Then(s, c, Claiming(e, Repair));
    assert Apply(s, Working(c, ch)) == s1;
    var s2 := Recovered(s1, c, e);
    RecoversAlone(s1, c, e, Repair);
    GoesOn(s1, s2, c, Answer(s2, c, e, false));
  }

  // An acknowledged mutation and a stale load behind it

  const WRITER: L.Token := 0
  const READER: L.Token := 1
  const FIRST := Envelope(0, Payload(WRITER, []))
  const SECOND := Envelope(1, Payload(WRITER, [WRITER]))

  /** The first process has found nothing and is about to write the defaults. */
  const STARTED := Store(
    L.Lock(Some(WRITER), map[], map[], {}, map[WRITER := L.Contender(0, L.Critical)], {}),
    NOTHING, map[WRITER := Claiming(FIRST, Initialise)], map[WRITER := Mutating], map[], None, [])

  const INITIALISED := STARTED.(
    files := Files(Holds(FIRST), Absent, Absent), work := map[WRITER := Loaded(FIRST)], caches := map[0 := FIRST],
    last := Some(FIRST))

  /** The writer was answered; its `backup` could not be removed. */
  const ANSWERED := INITIALISED.(
    files := Files(Holds(SECOND), Absent, Holds(FIRST)), work := map[WRITER := Over], caches := map[0 := SECOND],
    last := Some(SECOND), replies := [Reply(WRITER, SECOND, true)])

  /** The writer has left, and a reader in another process has come to its load. */
  const READING := ANSWERED.(
    lock := L.Lock(Some(READER), map[], map[WRITER := WRITER], {},
                   map[WRITER := L.Contender(0, L.Done), READER := L.Contender(1, L.Critical)], {}),
    work := map[WRITER := Over, READER := Loading], kinds := map[WRITER := Mutating, READER := Reading])

  lemma StartsUp()
    ensures Leads(FRESH, STARTED)
  {
    var s1 := Apply(FRESH, Locking(L.Arrive(WRITER, 0), Mutating));
    StepLeads(FRESH, Locking(L.Arrive(WRITER, 0), Mutating));
    var s2 := Apply(s1, Locking(L.Publish(WRITER), Mutating));
    StepLeads(s1, Locking(L.Publish(WRITER), Mutating));
    LeadsOn(FRESH, s1, s2);
    assert Doing(s2, WRITER, Entering);
    GoesOn(FRESH, s2, WRITER, Then(s2, WRITER, Loading));
    GoesOn(FRESH, Then(s2, WRITER, Loading), WRITER, STARTED);
  }

  lemma Initialises()
    ensures Leads(FRESH, INITIALISED)
  {
    StartsUp();
    RecoversAlone(STARTED, WRITER, FIRST, Initialise);
    assert Recovered(STARTED, WRITER, FIRST) == INITIALISED;
    LeadsOn(FRESH, STARTED, INITIALISED);
  }

  lemma Mutates()
    ensures Leads(FRESH, Then(INITIALISED, WRITER, Claiming(SECOND, Change)))
  {
    Initialises();
    var s1, s2 := Then(INITIALISED, WRITER, Comparing(FIRST, SECOND)), Then(INITIALISED, WRITER, Claiming(SECOND, Change));
    assert SECOND == Envelope(1, FIRST.payload.(ops := FIRST.payload.ops + [WRITER]));
    GoesOn(FRESH, INITIALISED, WRITER, s1);
    assert Selected(s1.files) == Some(FIRST) && Seen(s1.files, {}) == s1.files;
    GoesOn(FRESH, s1, WRITER, s2);
  }

  lemma KeepsBackup()
    ensures Leads(Installed(Then(INITIALISED, WRITER, Claiming(SECOND, Change)), WRITER, SECOND, Change), ANSWERED)
  {
    var s := Installed(Then(INITIALISED, WRITER, Claiming(SECOND, Change)), WRITER, SECOND, Change);
    StepLeads(s, Working(WRITER, GO.(ok := false)));
    assert Apply(s, Working(WRITER, GO.(ok := false))) == ANSWERED;
  }

  lemma MutatesOnce()
    ensures Leads(FRESH, ANSWERED)
  {
    Mutates();
    var s1 := Then(INITIALISED, WRITER, Claiming(SECOND, Change));
    var s2 := Installed(s1, WRITER, SECOND, Change);
    CommitsAlone(s1, WRITER, SECOND, Change);
    LeadsOn(FRESH, s1, s2);
    KeepsBackup();
    LeadsOn(FRESH, s2, ANSWERED);
  }

  /** The writer has asserted that the lock is its own and moved it away. */
  const LEFT := ANSWERED.(lock := L.Lock(None, map[], map[WRITER := WRITER], {}, map[WRITER := L.Contender(0, L.Done)], {}))

  lemma WriterLeaves()
    ensures Leads(ANSWERED, LEFT)
  {
    var leave, aside := Locking(L.Assert(WRITER), Reading), Locking(L.MoveAside(WRITER, true), Reading);
    var s1 := Apply(ANSWERED, leave);
    StepLeads(ANSWERED, leave);
    StepLeads(s1, aside);
    assert Apply(s1, aside) == LEFT;
    LeadsOn(ANSWERED, s1, LEFT);
  }

  const ARRIVED := LEFT.(
    lock := LEFT.lock.(contenders := map[WRITER := L.Contender(0, L.Done), READER := L.Contender(1, L.Trying)]),
    kinds := map[WRITER := Mutating, READER := Reading])

  lemma ReaderArrives()
    ensures Leads(LEFT, ARRIVED)
  {
    StepLeads(LEFT, Locking(L.Arrive(READER, 1), Reading));
    assert Apply(LEFT, Locking(L.Arrive(READER, 1), Reading)) == ARRIVED;
  }

  lemma ReaderEnters()
    ensures Leads(ARRIVED, READING)
  {
    var publish, entered := Locking(L.Publish(READER), Reading), READING.(work := map[WRITER := Over, READER := Entering]);
    StepLeads(ARRIVED, publish);
    assert Apply(ARRIVED, publish) == entered;
    GoesOn(ARRIVED, entered, READER, READING);
  }

  lemma RunThrough(s: Store, e: Event, s': Store)
    requires Leads(FRESH, s) && Enabled(s, e) && Leads(Apply(s, e), s')
    ensures exists es :: IsRun(FRESH, es) && After(FRESH, es) == s'
  {
    var a :| IsRun(FRESH, a) && After(FRESH, a) == s;
    var b :| IsRun(Apply(s, e), b) && After(Apply(s, e), b) == s';
    assert ([e] + b)[1..] == b;
    RunsConcat(FRESH, a, [e] + b);
  }

  lemma ReadingIsReached()
    ensures Reachable(READING)
  {
    MutatesOnce();
    WriterLeaves();
    ReaderArrives();
    ReaderEnters();
    LeadsOn(FRESH, ANSWERED, LEFT);
    LeadsOn(FRESH, LEFT, ARRIVED);
    LeadsOn(FRESH, ARRIVED, READING);
  }

  /** The reader's load when it cannot read `current`. */
  const BLIND := Working(READER, GO.(unread := {Current}))

  lemma ReaderIsStale()
    ensures StaleLoad(READING, BLIND)
  {
  }

  /** Without the condition on loads the chain breaks: an acknowledged mutation, a `backup` that could
      not be removed, and one reader that cannot read `current`. */
  lemma StaleLoadBreaksTheChain()
    ensures exists es :: IsRun(FRESH, es)
              && var r := After(FRESH, es).replies;
                 |r| == 2 && r[0].changed && Succeeds(r[0].env, r[1].env)
  {
    ReadingIsReached();
    ReaderIsStale();
    StaleLoadForks(READING, READER, BLIND.choice);
    var s' :| Leads(Apply(READING, BLIND), s') && s'.replies == READING.replies + [Reply(READER, FIRST, false)];
    RunThrough(READING, BLIND, s');
  }
}
