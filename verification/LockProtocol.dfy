/**
 The directory lock that serializes processes on one PIM state file.

 A contender is one attempt, with a fresh token, to hold the lock; its directory is named here by
 that token. Publishing renames the contender's directory to the lock path; releasing renames
 whatever lies at the lock path to the contender's "released" name; recovery renames whatever lies
 at the lock path to the "stale" name of the owner that the recoverer saw earlier. Every file-system
 call is one event, so any contender can be delayed between any two calls, and a process can die
 between any two events.
 */
module LockProtocol {
  import opened Basics

  type Token = nat
  type Pid = nat

  datatype Pc =
    | Trying                      // about to rename the pending directory to the lock path
    | Observing                   // lost the rename; about to read the lock
    | Judging(seen: Token)        // about to test whether the owner seen is alive
    | Planting(seen: Token)       // about to create recovery.guard at the lock path
    | Confirming(seen: Token)     // about to read the lock again
    | Rejudging(seen: Token)      // same directory confirmed; about to test the owner again
    | Quarantining(seen: Token)   // about to rename the lock path to the owner's tombstone
    | Waiting                     // between two attempts
    | Critical                    // inside the exclusive section
    | Leaving                     // asserted ownership; about to rename the lock path away
    | Done

  datatype Contender = Contender(pid: Pid, pc: Pc)

  /** Directories are identified by their owner's token; `stale` and `released` map a name to the
      directory that lies under it. */
  datatype Lock = Lock(
    at: Option<Token>,
    stale: map<Token, Token>,
    released: map<Token, Token>,
    guards: set<Token>,
    contenders: map<Token, Contender>,
    dead: set<Pid>)

  const EMPTY := Lock(None, map[], map[], {}, map[], {})

  datatype Event =
    | Arrive(c: Token, pid: Pid)
    | Publish(c: Token)
    | Observe(c: Token)
    | Judge(c: Token, expired: bool)
    | Plant(c: Token, granted: bool)
    | Confirm(c: Token)
    | Rejudge(c: Token, expired: bool)
    | Quarantine(c: Token, granted: bool)
    | Retry(c: Token)
    | GiveUp(c: Token)
    | Assert(c: Token)
    | MoveAside(c: Token, granted: bool)
    | Die(pid: Pid)

  predicate Alive(l: Lock, c: Token)
    requires c in l.contenders
  {
    l.contenders[c].pid !in l.dead
  }

  predicate Runs(l: Lock, c: Token)
  {
    c in l.contenders && Alive(l, c)
  }

  function PcOf(l: Lock, c: Token): Pc
    requires c in l.contenders
  {
    l.contenders[c].pc
  }

  function Goto(l: Lock, c: Token, pc: Pc): Lock
    requires c in l.contenders
  {
    l.(contenders := l.contenders[c := l.contenders[c].(pc := pc)])
  }

  /** A dead process takes no step; a live contender takes the step its program counter names. */
  predicate Enabled(l: Lock, e: Event) {
    match e
    case Arrive(c, pid) => c !in l.contenders && pid !in l.dead
    case Publish(c) => Runs(l, c) && PcOf(l, c).Trying?
    case Observe(c) => Runs(l, c) && PcOf(l, c).Observing?
    case Judge(c, _) => Runs(l, c) && PcOf(l, c).Judging?
    case Plant(c, _) => Runs(l, c) && PcOf(l, c).Planting?
    case Confirm(c) => Runs(l, c) && PcOf(l, c).Confirming?
    case Rejudge(c, _) => Runs(l, c) && PcOf(l, c).Rejudging?
    case Quarantine(c, _) => Runs(l, c) && PcOf(l, c).Quarantining?
    case Retry(c) => Runs(l, c) && PcOf(l, c).Waiting?
    case GiveUp(c) => Runs(l, c) && PcOf(l, c).Waiting?
    case Assert(c) => Runs(l, c) && PcOf(l, c).Critical?
    case MoveAside(c, _) => Runs(l, c) && PcOf(l, c).Leaving?
    case Die(pid) => true
  }

  /** The owner a recoverer saw counts as dead when its process is dead and its lock has aged. */
  predicate Abandoned(l: Lock, d: Token, expired: bool) {
    expired && d in l.contenders && l.contenders[d].pid in l.dead
  }

  function Apply(l: Lock, e: Event): Lock
    requires Enabled(l, e)
  {
    match e
    case Arrive(c, pid) => l.(contenders := l.contenders[c := Contender(pid, Trying)])
    case Publish(c) =>
      // Renaming onto a directory that is not empty fails.
      if l.at.None? then Goto(l.(at := Some(c)), c, Critical) else Goto(l, c, Observing)
    case Observe(c) =>
      if l.at.None? then Goto(l, c, Waiting) else Goto(l, c, Judging(l.at.value))
    case Judge(c, expired) =>
      var d := PcOf(l, c).seen;
      if Abandoned(l, d, expired) then Goto(l, c, Planting(d)) else Goto(l, c, Waiting)
    case Plant(c, granted) =>
      // The guard lands in whatever directory lies at the lock path by now.
      var d := PcOf(l, c).seen;
      if l.at.None? then Goto(l, c, Waiting)
      else if l.at.value in l.guards then Goto(l, c, Confirming(d))
      else if granted then Goto(l.(guards := l.guards + {l.at.value}), c, Confirming(d))
      else Goto(l, c, Waiting)
    case Confirm(c) =>
      var d := PcOf(l, c).seen;
      if l.at == Some(d) then Goto(l, c, Rejudging(d)) else Goto(l, c, Waiting)
    case Rejudge(c, expired) =>
      var d := PcOf(l, c).seen;
      if Abandoned(l, d, expired) then Goto(l, c, Quarantining(d)) else Goto(l, c, Waiting)
    case Quarantine(c, granted) =>
      // The rename takes whatever lies at the lock path, and fails when the tombstone exists.
      var d := PcOf(l, c).seen;
      if l.at.None? || d in l.stale || !granted then Goto(l, c, Waiting)
      else Goto(l.(at := None, stale := l.stale[d := l.at.value]), c, Waiting)
    case Retry(c) => Goto(l, c, Trying)
    case GiveUp(c) => Goto(l, c, Done)
    case Assert(c) => Goto(l, c, if l.at == Some(c) then Leaving else Done)
    case MoveAside(c, granted) =>
      // A refused rename is retried, from the ownership assertion on, until its timeout.
      if l.at.None? then Goto(l, c, Done)
      else if !granted then Goto(l, c, Critical)
      else Goto(l.(at := None, released := l.released[c := l.at.value]), c, Done)
    case Die(pid) => l.(dead := l.dead + {pid})
  }

  // Runs

  predicate IsRun(l: Lock, es: seq<Event>)
    decreases |es|
  {
    es == [] || (Enabled(l, es[0]) && IsRun(Apply(l, es[0]), es[1..]))
  }

  function After(l: Lock, es: seq<Event>): Lock
    requires IsRun(l, es)
    decreases |es|
  {
    if es == [] then l else After(Apply(l, es[0]), es[1..])
  }

  // The invariant

  /** Contenders that have never held the lock. */
  predicate BeforeEntry(pc: Pc) {
    !pc.Critical? && !pc.Leaving? && !pc.Done?
  }

  predicate Holding(pc: Pc) {
    pc.Critical? || pc.Leaving?
  }

  /** The recoverer has seen the owner's process dead. */
  predicate Condemning(pc: Pc) {
    pc.Planting? || pc.Confirming? || pc.Rejudging? || pc.Quarantining?
  }

  /** The recoverer has seen the lock again after its owner's process died. */
  predicate Confirmed(pc: Pc) {
    pc.Rejudging? || pc.Quarantining?
  }

  predicate DeadOwner(l: Lock, d: Token) {
    d in l.contenders && l.contenders[d].pid in l.dead
  }

  predicate ContenderOk(l: Lock, c: Token)
    requires c in l.contenders
  {
    var pc := PcOf(l, c);
    && (BeforeEntry(pc) ==> l.at != Some(c) && c !in l.stale)
    && (Holding(pc) && Alive(l, c) ==> l.at == Some(c))
    && (Condemning(pc) ==> DeadOwner(l, pc.seen))
    && (Confirmed(pc) ==> l.at == Some(pc.seen) || pc.seen in l.stale)
  }

  /** Every tombstone holds its own dead owner's directory and every released name its own. */
  predicate Inv(l: Lock) {
    && (l.at.Some? ==> l.at.value in l.contenders && l.at.value !in l.stale)
    && (forall d :: d in l.stale ==> l.stale[d] == d && DeadOwner(l, d))
    && (forall c :: c in l.released ==> l.released[c] == c)
    && (forall c :: c in l.contenders ==> ContenderOk(l, c))
  }

  /** Moving one contender's program counter keeps the invariant when the new counter is justified. */
  lemma GotoKeepsInv(l: Lock, c: Token, pc: Pc)
    requires Inv(l) && c in l.contenders
    requires ContenderOk(Goto(l, c, pc), c)
    ensures Inv(Goto(l, c, pc))
  {
    var l' := Goto(l, c, pc);
    forall x | x in l'.contenders ensures ContenderOk(l', x) {
      if x != c { assert ContenderOk(l, x); }
    }
  }

  lemma RecoveryKeepsInv(l: Lock, e: Event)
    requires Inv(l) && Enabled(l, e)
    requires e.Observe? || e.Judge? || e.Confirm? || e.Rejudge?
    ensures Inv(Apply(l, e))
  {
    assert ContenderOk(l, e.c);
    GotoKeepsInv(l, e.c, PcOf(Apply(l, e), e.c));
  }

  lemma PlantKeepsInv(l: Lock, e: Event)
    requires Inv(l) && Enabled(l, e) && e.Plant?
    ensures Inv(Apply(l, e))
  {
    assert ContenderOk(l, e.c);
    var guarded := l.(guards := Apply(l, e).guards);
    forall x | x in guarded.contenders ensures ContenderOk(guarded, x) { assert ContenderOk(l, x); }
    GotoKeepsInv(guarded, e.c, PcOf(Apply(l, e), e.c));
  }

  lemma QuarantineKeepsInv(l: Lock, e: Event)
    requires Inv(l) && Enabled(l, e) && e.Quarantine?
    ensures Inv(Apply(l, e))
  {
    var l' := Apply(l, e);
    assert ContenderOk(l, e.c);
    forall x | x in l'.contenders ensures ContenderOk(l', x) {
      assert ContenderOk(l, x);
    }
  }

  lemma PublishKeepsInv(l: Lock, e: Event)
    requires Inv(l) && Enabled(l, e) && e.Publish?
    ensures Inv(Apply(l, e))
  {
    var l' := Apply(l, e);
    assert ContenderOk(l, e.c);
    forall x | x in l'.contenders ensures ContenderOk(l', x) {
      assert ContenderOk(l, x);
    }
  }

  lemma ReleaseKeepsInv(l: Lock, e: Event)
    requires Inv(l) && Enabled(l, e) && e.MoveAside?
    ensures Inv(Apply(l, e))
  {
    var l' := Apply(l, e);
    assert ContenderOk(l, e.c);
    forall x | x in l'.contenders ensures ContenderOk(l', x) {
      assert ContenderOk(l, x);
    }
  }

  lemma WaitingKeepsInv(l: Lock, e: Event)
    requires Inv(l) && Enabled(l, e) && (e.Retry? || e.GiveUp? || e.Assert?)
    ensures Inv(Apply(l, e))
  {
    assert ContenderOk(l, e.c);
    GotoKeepsInv(l, e.c, PcOf(Apply(l, e), e.c));
  }

  lemma ArrivalAndDeathKeepInv(l: Lock, e: Event)
    requires Inv(l) && Enabled(l, e) && (e.Arrive? || e.Die?)
    ensures Inv(Apply(l, e))
  {
    var l' := Apply(l, e);
    forall x | x in l'.contenders ensures ContenderOk(l', x) {
      if x in l.contenders { assert ContenderOk(l, x); }
    }
  }

  lemma StepKeepsInv(l: Lock, e: Event)
    requires Inv(l) && Enabled(l, e)
    ensures Inv(Apply(l, e))
  {
    if e.Quarantine? {
      QuarantineKeepsInv(l, e);
    } else if e.Arrive? || e.Die? {
      ArrivalAndDeathKeepInv(l, e);
    } else if e.Observe? || e.Judge? || e.Confirm? || e.Rejudge? {
      RecoveryKeepsInv(l, e);
    } else if e.Plant? {
      PlantKeepsInv(l, e);
    } else if e.Publish? {
      PublishKeepsInv(l, e);
    } else if e.MoveAside? {
      ReleaseKeepsInv(l, e);
    } else {
      WaitingKeepsInv(l, e);
    }
  }

  lemma {:induction false} RunKeepsInv(l: Lock, es: seq<Event>)
    requires Inv(l) && IsRun(l, es)
    ensures Inv(After(l, es))
    decreases |es|
  {
    if es != [] {
      StepKeepsInv(l, es[0]);
      RunKeepsInv(Apply(l, es[0]), es[1..]);
    }
  }

  lemma OneHolder(l: Lock, a: Token, b: Token)
    requires Inv(l)
    requires Runs(l, a) && Holding(PcOf(l, a)) && Runs(l, b) && Holding(PcOf(l, b))
    ensures a == b && l.at == Some(a)
  {
    assert ContenderOk(l, a) && ContenderOk(l, b);
  }

  /** A contender comes to hold the lock only by publishing and to leave it only by asserting. */
  lemma HoldersOnlyPublish(l: Lock, e: Event, x: Token)
    requires Enabled(l, e)
    requires Runs(Apply(l, e), x) && Holding(PcOf(Apply(l, e), x))
    ensures e == Publish(x) || (Runs(l, x) && Holding(PcOf(l, x)))
    ensures PcOf(Apply(l, e), x).Leaving? ==> e == Assert(x) || (Runs(l, x) && PcOf(l, x).Leaving?)
  {
  }

  lemma ContendersOnlyArrive(l: Lock, e: Event)
    requires Enabled(l, e)
    ensures Apply(l, e).contenders.Keys == l.contenders.Keys + (if e.Arrive? then {e.c} else {})
  {
  }

  // Safety over every run

  ghost predicate Reachable(l: Lock) {
    exists es :: IsRun(EMPTY, es) && After(EMPTY, es) == l
  }

  lemma ReachableIsInv(l: Lock)
    requires Reachable(l)
    ensures Inv(l)
  {
    var es :| IsRun(EMPTY, es) && After(EMPTY, es) == l;
    RunKeepsInv(EMPTY, es);
  }

  /** At most one live contender is inside the exclusive section, and the lock is its own. */
  lemma MutualExclusion(l: Lock, a: Token, b: Token)
    requires Reachable(l)
    requires Runs(l, a) && Holding(PcOf(l, a))
    requires Runs(l, b) && Holding(PcOf(l, b))
    ensures a == b && l.at == Some(a)
  {
    ReachableIsInv(l);
    OneHolder(l, a, b);
  }

  /** A live owner's ownership assertion always succeeds. */
  lemma LiveOwnerPassesAssertion(l: Lock, c: Token)
    requires Reachable(l) && Enabled(l, Assert(c))
    ensures PcOf(Apply(l, Assert(c)), c) == Leaving
  {
    ReachableIsInv(l);
    assert ContenderOk(l, c);
  }

  /** Whatever a recovery moves away is the dead owner's directory, under that owner's name, and no
      live contender is inside the section; a release moves only the releaser's own directory. */
  lemma MovesTakeOnlyTheirOwn(l: Lock, e: Event)
    requires Reachable(l) && Enabled(l, e)
    requires l.at.Some? && Apply(l, e).at.None?
    ensures e.Quarantine? ==>
              && l.at == Some(PcOf(l, e.c).seen) && DeadOwner(l, l.at.value)
              && l.at.value !in l.stale && Apply(l, e).stale == l.stale[l.at.value := l.at.value]
              && forall x :: Runs(l, x) ==> !Holding(PcOf(l, x))
    ensures !e.Quarantine? ==> e.MoveAside? && l.at == Some(e.c)
  {
    ReachableIsInv(l);
    if e.Quarantine? {
      assert ContenderOk(l, e.c);
      forall x | Runs(l, x) ensures !Holding(PcOf(l, x)) {
        assert ContenderOk(l, x);
      }
    } else {
      assert e.MoveAside? && ContenderOk(l, e.c);
    }
  }

  /** The process of c dies somewhere in es, or c itself moves its directory away or gives it up. */
  predicate LetsGo(l: Lock, c: Token, es: seq<Event>)
    requires c in l.contenders
  {
    exists k :: 0 <= k < |es| && (es[k] == Die(l.contenders[c].pid) || (es[k].MoveAside? && es[k].c == c))
  }

  lemma HolderStays(l: Lock, c: Token, e: Event)
    requires Enabled(l, e) && Runs(l, c) && Holding(PcOf(l, c)) && l.at == Some(c)
    requires e != Die(l.contenders[c].pid) && !(e.MoveAside? && e.c == c)
    ensures var l' := Apply(l, e); Runs(l', c) && Holding(PcOf(l', c)) && l'.contenders[c].pid == l.contenders[c].pid
  {
  }

  /** No run of the other contenders, however delayed their recoveries are, takes the lock from a
      live owner: it keeps the lock for as long as it neither dies nor releases. */
  lemma {:induction false} LiveOwnerKeepsLock(l: Lock, c: Token, es: seq<Event>)
    requires Inv(l) && IsRun(l, es)
    requires Runs(l, c) && Holding(PcOf(l, c)) && !LetsGo(l, c, es)
    ensures After(l, es).at == Some(c)
    ensures Runs(After(l, es), c) && Holding(PcOf(After(l, es), c))
    decreases |es|
  {
    assert ContenderOk(l, c);
    if es != [] {
      var e := es[0];
      var l' := Apply(l, e);
      StepKeepsInv(l, e);
      HolderStays(l, c, e);
      forall k | 0 <= k < |es[1..]|
        ensures es[1..][k] != Die(l.contenders[c].pid) && !(es[1..][k].MoveAside? && es[1..][k].c == c)
      {
        assert es[1..][k] == es[k + 1];
      }
      LiveOwnerKeepsLock(l', c, es[1..]);
    }
  }

  /** Once a dead owner's lock lies under its tombstone, no later run brings it back to the lock path
      and no late recoverer of that owner moves another lock. */
  lemma {:induction false} TombstoneIsAFence(l: Lock, d: Token, es: seq<Event>, c: Token, granted: bool)
    requires Inv(l) && IsRun(l, es) && d in l.stale
    ensures d in After(l, es).stale && After(l, es).at != Some(d)
    ensures Enabled(After(l, es), Quarantine(c, granted)) && PcOf(After(l, es), c).seen == d ==>
              Apply(After(l, es), Quarantine(c, granted)).at == After(l, es).at
    decreases |es|
  {
    if es != [] {
      StepKeepsInv(l, es[0]);
      TombstoneIsAFence(Apply(l, es[0]), d, es[1..], c, granted);
    }
  }

  predicate LeftBehind(l: Lock, c: Token, d: Token, pc: Pc) {
    l.at == Some(d) && DeadOwner(l, d) && d !in l.stale && Runs(l, c) && PcOf(l, c) == pc
  }

  lemma NoticesDeadOwner(l: Lock, c: Token, d: Token)
    requires LeftBehind(l, c, d, Trying)
    ensures var es := [Publish(c), Observe(c), Judge(c, true)];
            IsRun(l, es) && LeftBehind(After(l, es), c, d, Planting(d))
  {
    RunOf3(l, Publish(c), Observe(c), Judge(c, true));
  }

  lemma ConfirmsDeadOwner(l: Lock, c: Token, d: Token)
    requires LeftBehind(l, c, d, Planting(d))
    ensures var es := [Plant(c, true), Confirm(c), Rejudge(c, true)];
            IsRun(l, es) && LeftBehind(After(l, es), c, d, Quarantining(d))
  {
    RunOf3(l, Plant(c, true), Confirm(c), Rejudge(c, true));
  }

  lemma ReplacesDeadOwner(l: Lock, c: Token, d: Token)
    requires LeftBehind(l, c, d, Quarantining(d))
    ensures var es := [Quarantine(c, true), Retry(c), Publish(c)];
            IsRun(l, es) && Runs(After(l, es), c)
            && PcOf(After(l, es), c) == Critical && After(l, es).at == Some(c)
  {
    RunOf3(l, Quarantine(c, true), Retry(c), Publish(c));
  }

  /** The fence never locks the store for good: from any reachable state in which the owner's process
      is dead, a waiting contender left alone recovers the lock and enters. */
  lemma DeadLockIsRecoverable(l: Lock, c: Token)
    requires Reachable(l) && l.at.Some? && DeadOwner(l, l.at.value)
    requires Runs(l, c) && PcOf(l, c).Trying?
    ensures exists es :: IsRun(l, es) && Runs(After(l, es), c)
              && PcOf(After(l, es), c) == Critical && After(l, es).at == Some(c)
  {
    ReachableIsInv(l);
    var d := l.at.value;
    NoticesDeadOwner(l, c, d);
    var notice := [Publish(c), Observe(c), Judge(c, true)];
    var l1 := After(l, notice);
    ConfirmsDeadOwner(l1, c, d);
    var confirm := [Plant(c, true), Confirm(c), Rejudge(c, true)];
    var l2 := After(l1, confirm);
    ReplacesDeadOwner(l2, c, d);
    var replace := [Quarantine(c, true), Retry(c), Publish(c)];
    RunsConcat(l1, confirm, replace);
    RunsConcat(l, notice, confirm + replace);
  }

  lemma RunOf3(l: Lock, e0: Event, e1: Event, e2: Event)
    requires Enabled(l, e0) && Enabled(Apply(l, e0), e1) && Enabled(Apply(Apply(l, e0), e1), e2)
    ensures IsRun(l, [e0, e1, e2]) && After(l, [e0, e1, e2]) == Apply(Apply(Apply(l, e0), e1), e2)
  {
    var l1 := Apply(l, e0);
    var l2 := Apply(l1, e1);
    assert [e0, e1, e2][1..] == [e1, e2] && [e1, e2][1..] == [e2] && [e2][1..] == [];
    assert IsRun(l2, [e2]) && After(l2, [e2]) == Apply(l2, e2);
    assert IsRun(l1, [e1, e2]) && After(l1, [e1, e2]) == Apply(l2, e2);
  }

  lemma {:induction false} RunsConcat(l: Lock, a: seq<Event>, b: seq<Event>)
    requires IsRun(l, a) && IsRun(After(l, a), b)
    ensures IsRun(l, a + b) && After(l, a + b) == After(After(l, a), b)
    decreases |a|
  {
    if a == [] {
      assert a + b == b;
    } else {
      assert (a + b)[1..] == a[1..] + b;
      RunsConcat(Apply(l, a[0]), a[1..], b);
    }
  }
}
