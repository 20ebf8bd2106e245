/**
 What crashes in the middle of a commit, and in the middle of recovering from it, can do to the
 three files.
 */
module CommitCrashes {
  import opened Basics
  import opened Slots

  /** The files after the first k steps of a load that nobody interrupts before. A load selecting
      `current` removes the other two files, in either order; any other load commits what it selected. */
  function CutRecovery(f: Files, k: nat, nextFirst: bool): Files
    requires k <= 6
  {
    match Select(f)
    case None => f
    case Some(Current) =>
      if k == 0 then f
      else if k == 1 then (if nextFirst then f.(next := Absent) else f.(backup := Absent))
      else f.(next := Absent, backup := Absent)
    case Some(p) => CutCommit(f, At(f, p).env, k)
  }

  /** Every cut of a commit, spelled out. */
  lemma CutsOfCommit(f: Files, e: Envelope)
    ensures CutCommit(f, e, 0) == f
    ensures CutCommit(f, e, 1) == f.(next := Torn)
    ensures CutCommit(f, e, 2) == f.(next := Holds(e))
    ensures CutCommit(f, e, 3) == f.(next := Holds(e), backup := Absent)
    ensures CutCommit(f, e, 4) == Files(Absent, Holds(e), f.current)
    ensures CutCommit(f, e, 5) == Files(Holds(e), Absent, f.current)
    ensures CutCommit(f, e, 6) == Files(Holds(e), Absent, Absent)
  {
    assert CutCommit(f, e, 1) == Do(Open, f, e);
    assert CutCommit(f, e, 2) == Do(Write, CutCommit(f, e, 1), e);
    assert CutCommit(f, e, 3) == Do(Drop, CutCommit(f, e, 2), e);
    assert CutCommit(f, e, 4) == Do(Displace, CutCommit(f, e, 3), e);
    assert CutCommit(f, e, 5) == Do(Install, CutCommit(f, e, 4), e);
    assert CutCommit(f, e, 6) == Do(Finish, CutCommit(f, e, 5), e);
  }

  predicate OldOrNew(f: Files, before: Envelope, after: Envelope) {
    Selected(f) == Some(before) || Selected(f) == Some(after)
  }

  /** The files after one crash in a commit that started with `before` in `current`; a `backup` from an
      earlier commit may still have been there. */
  predicate OnceCrashed(f: Files, before: Envelope, after: Envelope) {
    || (f.current == Holds(before) && !f.backup.Torn? && (f.backup.Holds? ==> Succeeds(before, f.backup.env))
        && (f.next.Holds? ==> f.next.env == after))
    || f == Files(Absent, Holds(after), Holds(before))
    || (f.current == Holds(after) && f.next.Absent? && (f.backup.Absent? || f.backup == Holds(before)))
  }

  lemma OneCrash(before: Envelope, after: Envelope, k: nat)
    requires Succeeds(after, before) && k <= 6
    ensures OnceCrashed(CutCommit(Files(Holds(before), Absent, Absent), after, k), before, after)
  {
    CutsOfCommit(Files(Holds(before), Absent, Absent), after);
  }

  lemma RecoveryOfOneCrash(f: Files, before: Envelope, after: Envelope, k: nat, nextFirst: bool)
    requires Succeeds(after, before) && OnceCrashed(f, before, after) && k <= 6
    ensures OldOrNew(f, before, after)
    ensures OldOrNew(CutRecovery(f, k, nextFirst), before, after)
  {
    CutsOfCommit(f, after);
  }

  lemma FullRecovery(f: Files, nextFirst: bool)
    requires Selected(f).Some?
    ensures CutRecovery(f, 6, nextFirst) == Files(Holds(Selected(f).value), Absent, Absent)
  {
    CutsOfCommit(f, Selected(f).value);
  }

  /** A crash anywhere in a commit, and another anywhere in the first recovery, leave files from which
      the selector picks exactly the old or the new envelope, the new one once it is in `current`; an
      uninterrupted recovery then ends with the envelope picked in `current` and nothing else. */
  lemma TwoCrashesAreSafe(before: Envelope, after: Envelope, k1: nat, k2: nat, nextFirst: bool, first: bool)
    requires Succeeds(after, before) && k1 <= 6 && k2 <= 6
    ensures var f1 := CutCommit(Files(Holds(before), Absent, Absent), after, k1);
            var f2 := CutRecovery(f1, k2, nextFirst);
            && OldOrNew(f1, before, after) && (k1 >= 5 ==> Selected(f1) == Some(after))
            && OldOrNew(f2, before, after)
            && CutRecovery(f2, 6, first) == Files(Holds(Selected(f2).value), Absent, Absent)
  {
    var f1 := CutCommit(Files(Holds(before), Absent, Absent), after, k1);
    OneCrash(before, after, k1);
    CutsOfCommit(Files(Holds(before), Absent, Absent), after);
    RecoveryOfOneCrash(f1, before, after, k2, nextFirst);
    FullRecovery(CutRecovery(f1, k2, nextFirst), first);
  }

  /** A third crash can lose everything: this is the shortest such history. The second recovery opens
      `next`, the only file that still holds an envelope, for rewriting. */
  lemma ThreeCrashesCanLose(before: Envelope, after: Envelope)
    requires Succeeds(after, before)
    ensures var f1 := CutCommit(Files(Holds(before), Absent, Absent), after, 4);
            var f2 := CutRecovery(f1, 3, true);
            var f3 := CutRecovery(f2, 1, true);
            Selected(f1) == Some(after) && Selected(f2) == Some(after) && Lost(f3)
  {
    var f0 := Files(Holds(before), Absent, Absent);
    CutsOfCommit(f0, after);
    var f1 := CutCommit(f0, after, 4);
    CutsOfCommit(f1, after);
    var f2 := CutRecovery(f1, 3, true);
    CutsOfCommit(f2, after);
  }

  /** Exactly which recoveries a crash can turn into a loss: those that select `next` while neither
      `current` nor `backup` holds an envelope. Any other recovery can crash at any step. */
  lemma RecoveryIsSafeIffAnotherCopyExists(f: Files)
    requires Selected(f).Some?
    ensures (forall k: nat, nextFirst :: k <= 6 ==> !Lost(CutRecovery(f, k, nextFirst)))
            <==> f.current.Holds? || f.backup.Holds?
  {
    SelectFindsTheBest(f);
    var e := Selected(f).value;
    CutsOfCommit(f, e);
    assert At(f, Current) == f.current && At(f, Next) == f.next && At(f, Backup) == f.backup;
    if f.current.Holds? || f.backup.Holds? {
      forall k: nat, nextFirst | k <= 6 ensures !Lost(CutRecovery(f, k, nextFirst)) {
        var cut := CutRecovery(f, k, nextFirst);
        SelectFindsTheBest(cut);
        assert At(cut, Current) == cut.current && At(cut, Next) == cut.next && At(cut, Backup) == cut.backup;
      }
    } else {
      assert Lost(CutRecovery(f, 1, true));
    }
  }

  /** A first start that is cut while it writes the defaults: the one cut after which every later load is
      refused is the one between opening `next` and writing it. Any other leaves nothing or the defaults. */
  lemma FirstStartIsLostIffCutAtOpen(e: Envelope, k: nat)
    requires k <= 6
    ensures Lost(CutCommit(NOTHING, e, k)) <==> k == 1
    ensures k > 1 ==> Selected(CutCommit(NOTHING, e, k)) == Some(e)
    ensures k == 0 ==> CutCommit(NOTHING, e, k) == NOTHING
  {
    CutsOfCommit(NOTHING, e);
    LostIffNothingHolds(CutCommit(NOTHING, e, k));
  }
}
