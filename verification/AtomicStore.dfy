/**
 The store object of one process, run inside the exclusive section, where every file that exists can be
 read and only the last rename of a commit can be refused. `trail` records the files after every step,
 so that what a crash at any point leaves behind can be read off it.
 */
module AtomicStore {
  import opened Basics
  import opened Slots
  import opened CommitCrashes

  datatype Refusal = InvalidFiles | Disappeared | MovedBackwards | ConflictingPayload | ChangedMeanwhile | CommitFailed

  /** What becomes of the rename that installs a commit: it is granted; or it is refused, and then the
      displaced `current` can be put back, or not. */
  datatype Rename = Granted | PutBack | LeftAside

  /** What the file system decides during a mutation: which of the two removals of a load takes effect
      first, and what becomes of the commits of the load and of the mutation itself. */
  datatype Luck = Luck(nextFirst: bool, loading: Rename, committing: Rename)

  /** The files after each step of a commit. */
  function CommitTrail(f: Files, e: Envelope, rename: Rename): seq<Files> {
    var written := [CutCommit(f, e, 1), CutCommit(f, e, 2), CutCommit(f, e, 3), CutCommit(f, e, 4)];
    match rename
    case Granted => written + [CutCommit(f, e, 5), CutCommit(f, e, 6)]
    case PutBack => if f.current.Absent? then written else written + [Files(f.current, Holds(e), Absent)]
    case LeftAside => written
  }

  /** What a load answers, decided by the files and the cache before it. */
  function LoadOutcome(f: Files, data: Option<Payload>, generation: nat, defaults: Payload): Result<Envelope, Refusal> {
    match Selected(f)
    case None =>
      if f != NOTHING then Err(InvalidFiles)
      else if data.Some? then Err(Disappeared)
      else Ok(Envelope(0, defaults))
    case Some(e) =>
      if data.Some? && e.generation < generation then Err(MovedBackwards)
      else if data.Some? && e.generation == generation && e.payload != data.value then Err(ConflictingPayload)
      else Ok(e)
  }

  /** The steps of a load that answers e: what is in `current` is only rid of the other files. */
  function LoadTrail(f: Files, e: Envelope, luck: Luck): seq<Files> {
    if Select(f) == Some(Current) then
      [if luck.nextFirst then f.(next := Absent) else f.(backup := Absent), f.(next := Absent, backup := Absent)]
    else
      CommitTrail(f, e, luck.loading)
  }

  /** The load has to commit what it found, and the rename is refused. */
  predicate LoadFails(f: Files, luck: Luck) {
    Select(f) != Some(Current) && !luck.loading.Granted?
  }

  function Mutated(b: Envelope, op: Op): Envelope {
    Envelope(b.generation + 1, b.payload.(ops := b.payload.ops + [op]))
  }

  /** The steps of a mutation: those of its load, then those of its own commit. */
  function MutationTrail(f: Files, e: Envelope, op: Op, changed: bool, luck: Luck): seq<Files> {
    var load := LoadTrail(f, e, luck);
    if !changed || LoadFails(f, luck) then load
    else load + CommitTrail(Files(Holds(e), Absent, Absent), Mutated(e, op), luck.committing)
  }

  /** The files at the end of a trail. */
  function EndOf(f: Files, trail: seq<Files>): Files {
    if trail == [] then f else trail[|trail| - 1]
  }

  class AtomicJsonStore {
    var files: Files
    var data: Option<Payload>
    var generation: nat
    ghost var trail: seq<Files>

    constructor (onDisk: Files)
      ensures files == onDisk && data == None && generation == 0 && trail == []
    {
      files, data, generation, trail := onDisk, None, 0, [];
    }

    /** Commits e, or leaves the files as the refused rename found them, but for a displaced `current`
        that could be put back. */
    method Commit(e: Envelope, rename: Rename) returns (done: bool)
      modifies this`files, this`trail
      ensures done == rename.Granted?
      ensures trail == old(trail) + CommitTrail(old(files), e, rename)
      ensures files == match rename
                       case Granted => Files(Holds(e), Absent, Absent)
                       case PutBack => Files(old(files).current, Holds(e), Absent)
                       case LeftAside => Files(Absent, Holds(e), old(files).current)
    {
      ghost var f := files;
      CutsOfCommit(f, e);
      files := files.(next := Torn);
      trail := trail + [files];
      files := files.(next := Holds(e));
      trail := trail + [files];
      files := files.(backup := Absent);
      trail := trail + [files];
      if !files.current.Absent? {
        files := files.(current := Absent, backup := files.current);
      }
      trail := trail + [files];
      if !rename.Granted? {
        if files.current.Absent? && !files.backup.Absent? && rename.PutBack? {
          files := files.(current := files.backup, backup := Absent);
          trail := trail + [files];
        }
        return false;
      }
      files := files.(current := files.next, next := Absent);
      trail := trail + [files];
      files := files.(backup := Absent);
      trail := trail + [files];
      return true;
    }

    /** Loads the newest envelope, recovers it into `current`, and caches it. A load refused by a check
        touches nothing; one whose commit is refused leaves the cache as it was. */
    method LoadLatest(defaults: Payload, luck: Luck) returns (r: Result<Envelope, Refusal>)
      modifies this
      ensures var f, outcome := old(files), LoadOutcome(old(files), old(data), old(generation), defaults);
              match outcome
              case Err(_) => r == outcome && files == f && trail == old(trail) && data == old(data) && generation == old(generation)
              case Ok(e) =>
                && trail == old(trail) + LoadTrail(f, e, luck)
                && files == EndOf(f, LoadTrail(f, e, luck))
                && if LoadFails(f, luck)
                   then r == Err(CommitFailed) && data == old(data) && generation == old(generation)
                   else r == outcome && data == Some(e.payload) && generation == e.generation
                        && files == Files(Holds(e), Absent, Absent)
    {
      ghost var f := files;
      CutsOfTrail(f, LoadOutcome(f, data, generation, defaults), luck.loading);
      var place := Select(files);
      if place.None? {
        if files != NOTHING {
          return Err(InvalidFiles);
        }
        if data.Some? {
          return Err(Disappeared);
        }
        var done := Commit(Envelope(0, defaults), luck.loading);
        if !done {
          return Err(CommitFailed);
        }
        data, generation := Some(defaults), 0;
        return Ok(Envelope(0, defaults));
      }
      var e := At(files, place.value).env;
      if data.Some? {
        if e.generation < generation {
          return Err(MovedBackwards);
        }
        if e.generation == generation && e.payload != data.value {
          return Err(ConflictingPayload);
        }
      }
      if place.value.Current? {
        files := if luck.nextFirst then files.(next := Absent) else files.(backup := Absent);
        trail := trail + [files];
        files := files.(next := Absent, backup := Absent);
        trail := trail + [files];
      } else {
        var done := Commit(e, luck.loading);
        if !done {
          return Err(CommitFailed);
        }
      }
      data, generation := Some(e.payload), e.generation;
      return Ok(e);
    }

    /** One mutation: a changed draft becomes the next generation of what was loaded; an unchanged one
        leaves files and generation as the load left them. A refused commit is reported, and the cache
        then has what the load found. */
    method Mutate(op: Op, changed: bool, defaults: Payload, luck: Luck) returns (r: Result<Envelope, Refusal>)
      modifies this
      ensures var f, outcome := old(files), LoadOutcome(old(files), old(data), old(generation), defaults);
              match outcome
              case Err(_) => r == outcome && files == f && trail == old(trail) && data == old(data) && generation == old(generation)
              case Ok(b) =>
                var whole := MutationTrail(f, b, op, changed, luck);
                && trail == old(trail) + whole
                && files == EndOf(f, whole)
                && if LoadFails(f, luck)
                   then r == Err(CommitFailed) && data == old(data) && generation == old(generation)
                   else if changed && !luck.committing.Granted?
                   then r == Err(CommitFailed) && data == Some(b.payload) && generation == b.generation
                   else && r == Ok(if changed then Mutated(b, op) else b)
                        && data == Some(r.value.payload) && generation == r.value.generation
                        && files == Files(Holds(r.value), Absent, Absent)
    {
      ghost var f := files;
      r := LoadLatest(defaults, luck);
      if r.Err? || !changed {
        return;
      }
      var base := r.value;
      var draft := base.payload.(ops := base.payload.ops + [op]);
      // The files are compared with what was loaded; inside the exclusive section they still agree.
      SelectFindsTheBest(files);
      assert At(files, Current) == files.current && At(files, Next).Absent? && At(files, Backup).Absent?;
      if Selected(files) != Some(base) {
        return Err(ChangedMeanwhile);
      }
      var e := Envelope(base.generation + 1, draft);
      ghost var load := LoadTrail(f, base, luck);
      CutsOfTrail(files, Ok(e), luck.committing);
      var done := Commit(e, luck.committing);
      if !done {
        return Err(CommitFailed);
      }
      data, generation := Some(draft), e.generation;
      return Ok(e);
    }
  }

  lemma CutsOfTrail(f: Files, outcome: Result<Envelope, Refusal>, rename: Rename)
    ensures outcome.Ok? ==>
              EndOf(f, CommitTrail(f, outcome.value, rename))
              == match rename
                 case Granted => Files(Holds(outcome.value), Absent, Absent)
                 case PutBack => Files(f.current, Holds(outcome.value), Absent)
                 case LeftAside => Files(Absent, Holds(outcome.value), f.current)
  {
    if outcome.Ok? { CutsOfCommit(f, outcome.value); }
  }

  // What a crash leaves behind

  /** Every state in a trail satisfies p. */
  ghost predicate Always(trail: seq<Files>, p: Files -> bool) {
    forall i :: 0 <= i < |trail| ==> p(trail[i])
  }

  predicate Found(f: Files) {
    !Lost(f)
  }

  /** Files that can be recovered with a crash anywhere in that recovery. */
  predicate Robust(f: Files) {
    f.current.Holds? || f.backup.Holds?
  }

  lemma RobustIsFound(f: Files)
    ensures Robust(f) || f.next.Holds? ==> Found(f)
  {
    LostIffNothingHolds(f);
  }

  lemma CommitTrailIsFoundIff(f: Files, e: Envelope, rename: Rename)
    ensures Always(CommitTrail(f, e, rename), Found) <==> Robust(f)
  {
    CutsOfCommit(f, e);
    var t := CommitTrail(f, e, rename);
    LostIffNothingHolds(t[0]);
    forall i | 0 < i < |t| ensures Found(t[i]) { RobustIsFound(t[i]); }
  }

  lemma CommitTrailIsRobustIff(f: Files, e: Envelope, rename: Rename)
    ensures Always(CommitTrail(f, e, rename), Robust) <==> f.current.Holds?
  {
    CutsOfCommit(f, e);
    var t := CommitTrail(f, e, rename);
    if Always(t, Robust) { assert Robust(t[2]); }
  }

  lemma AlwaysConcat(a: seq<Files>, b: seq<Files>, p: Files -> bool)
    ensures Always(a + b, p) <==> Always(a, p) && Always(b, p)
  {
    if Always(a + b, p) {
      forall i | 0 <= i < |a| ensures p(a[i]) { assert (a + b)[i] == a[i]; }
      forall i | 0 <= i < |b| ensures p(b[i]) { assert (a + b)[|a| + i] == b[i]; }
    }
  }

  /** Which mutations a crash can turn into a loss, whatever state they start from and whether or not
      their renames are granted: those that start with neither `current` nor `backup` holding an envelope,
      among them the first of all. */
  lemma MutationSurvivesACrashIff(f: Files, b: Envelope, op: Op, changed: bool, luck: Luck,
        data: Option<Payload>, generation: nat, defaults: Payload)
    requires LoadOutcome(f, data, generation, defaults) == Ok(b)
    ensures Always(MutationTrail(f, b, op, changed, luck), Found) <==> Robust(f)
  {
    var load := LoadTrail(f, b, luck);
    var own := Files(Holds(b), Absent, Absent);
    if Select(f) == Some(Current) {
      RobustIsFound(load[0]);
      RobustIsFound(load[1]);
    } else {
      CommitTrailIsFoundIff(f, b, luck.loading);
    }
    CommitTrailIsFoundIff(own, Mutated(b, op), luck.committing);
    AlwaysConcat(load, CommitTrail(own, Mutated(b, op), luck.committing), Found);
  }

  /** And which of them a crash, and then another one anywhere in the recovery from it, can turn into a
      loss: those that start without an envelope in `current`. */
  lemma MutationSurvivesTwoCrashesIff(f: Files, b: Envelope, op: Op, changed: bool, luck: Luck,
        data: Option<Payload>, generation: nat, defaults: Payload)
    requires LoadOutcome(f, data, generation, defaults) == Ok(b)
    ensures (forall i, k: nat, nextFirst :: 0 <= i < |MutationTrail(f, b, op, changed, luck)| && k <= 6 ==>
               Found(CutRecovery(MutationTrail(f, b, op, changed, luck)[i], k, nextFirst)))
            <==> f.current.Holds?
  {
    var load, trail := LoadTrail(f, b, luck), MutationTrail(f, b, op, changed, luck);
    var own := Files(Holds(b), Absent, Absent);
    if Select(f) != Some(Current) { CommitTrailIsRobustIff(f, b, luck.loading); }
    CommitTrailIsRobustIff(own, Mutated(b, op), luck.committing);
    AlwaysConcat(load, CommitTrail(own, Mutated(b, op), luck.committing), Robust);
    assert Always(trail, Robust) <==> f.current.Holds?;
    forall i | 0 <= i < |trail|
      ensures (forall k: nat, nextFirst :: k <= 6 ==> Found(CutRecovery(trail[i], k, nextFirst))) <==> Robust(trail[i])
    {
      RobustRecoversIff(trail[i]);
    }
  }

  lemma RobustRecoversIff(f: Files)
    requires f != NOTHING
    ensures (forall k: nat, nextFirst :: k <= 6 ==> Found(CutRecovery(f, k, nextFirst))) <==> Robust(f)
  {
    LostIffNothingHolds(f);
    if Selected(f).Some? {
      RecoveryIsSafeIffAnotherCopyExists(f);
    } else {
      assert !Found(CutRecovery(f, 0, true));
    }
  }

  lemma CommitTrailIsOnceCrashed(f: Files, before: Envelope, after: Envelope, rename: Rename, i: nat)
    requires Succeeds(after, before) && OnceCrashed(f, before, after) && f.current == Holds(before)
    requires i < |CommitTrail(f, after, rename)|
    ensures OnceCrashed(CommitTrail(f, after, rename)[i], before, after)
  {
    CutsOfCommit(f, after);
  }

  /** Wherever a mutation is cut, and wherever the next load is then cut, what is found is what lay in
      `current` before or what the load of the mutation found, while that load was under way, and the
      envelope before or after the mutation from then on. */
  lemma MutationTrailIsCrashSafe(f: Files, l: Envelope, op: Op, changed: bool, luck: Luck, i: nat, k: nat, nextFirst: bool)
    requires Resting(f, Some(l)) && f.current.Holds? && k <= 6
    requires Selected(f).Some? ==> i < |MutationTrail(f, Selected(f).value, op, changed, luck)|
    ensures Selected(f).Some?
    ensures var b := Selected(f).value;
            var left := MutationTrail(f, b, op, changed, luck)[i];
            var again := CutRecovery(left, k, nextFirst);
            if i < |LoadTrail(f, b, luck)| then OldOrNew(left, l, b) && OldOrNew(again, l, b)
            else OldOrNew(left, b, Mutated(b, op)) && OldOrNew(again, b, Mutated(b, op))
  {
    LostIffNothingHolds(f);
    SelectionOfResting(f, l, {});
    assert Seen(f, {}) == f;
    var b := Selected(f).value;
    var load, left := LoadTrail(f, b, luck), MutationTrail(f, b, op, changed, luck)[i];
    var own := Files(Holds(b), Absent, Absent);
    if i >= |load| {
      CommitTrailIsOnceCrashed(own, b, Mutated(b, op), luck.committing, i - |load|);
      RecoveryOfOneCrash(left, b, Mutated(b, op), k, nextFirst);
    } else if Select(f) == Some(Current) {
      CleaningFindsCurrent(left, l, k, nextFirst);
    } else {
      CommitTrailIsOnceCrashed(f, l, b, luck.loading, i);
      RecoveryOfOneCrash(left, l, b, k, nextFirst);
    }
  }

  lemma CleaningFindsCurrent(f: Files, l: Envelope, k: nat, nextFirst: bool)
    requires f.current == Holds(l) && !f.next.Holds? && k <= 6
    requires f.backup.Holds? ==> f.backup.env.generation < l.generation
    ensures Selected(f) == Some(l) && Selected(CutRecovery(f, k, nextFirst)) == Some(l)
  {
  }
}
