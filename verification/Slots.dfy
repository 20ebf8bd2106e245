/**
 The three files of the PIM store and the steps by which a commit moves an envelope into `current`.

 A payload is represented by where its defaults came from and by the list of mutations applied to
 them since, so a concrete payload is any fold of that list. Two payloads are equal here only when
 they were produced by the same mutations, which is finer than comparing their JSON text.
 */
module Slots {
  import opened Basics

  type Op = nat

  datatype Payload = Payload(origin: nat, ops: seq<Op>)
  datatype Envelope = Envelope(generation: nat, payload: Payload)

  /** `Torn` stands for a file that exists but does not parse, as after an interrupted write. */
  datatype Slot = Absent | Torn | Holds(env: Envelope)

  datatype Files = Files(current: Slot, next: Slot, backup: Slot)

  const NOTHING := Files(Absent, Absent, Absent)

  datatype Place = Current | Next | Backup

  function At(f: Files, p: Place): Slot {
    match p
    case Current => f.current
    case Next => f.next
    case Backup => f.backup
  }

  function Priority(p: Place): nat {
    match p
    case Current => 3
    case Next => 2
    case Backup => 1
  }

  /** p is preferred to q: higher generation first, then higher priority. */
  predicate Beats(f: Files, p: Place, q: Place)
    requires At(f, p).Holds? && At(f, q).Holds?
  {
    var left, right := At(f, p).env.generation, At(f, q).env.generation;
    left > right || (left == right && Priority(p) >= Priority(q))
  }

  function Better(f: Files, best: Option<Place>, p: Place): (r: Option<Place>)
    requires best.Some? ==> At(f, best.value).Holds?
    ensures r.Some? ==> At(f, r.value).Holds?
  {
    if !At(f, p).Holds? then best
    else if best.Some? && Beats(f, best.value, p) then best
    else Some(p)
  }

  /** The place recovery reads from. */
  function Select(f: Files): (r: Option<Place>)
    ensures r.Some? ==> At(f, r.value).Holds?
  {
    Better(f, Better(f, Better(f, None, Current), Next), Backup)
  }

  /** The selection finds an envelope whenever there is one, and none beats it. */
  lemma SelectFindsTheBest(f: Files)
    ensures Select(f).None? <==> forall p :: !At(f, p).Holds?
    ensures Select(f).Some? ==> At(f, Select(f).value).Holds?
    ensures Select(f).Some? ==> forall p :: At(f, p).Holds? ==> Beats(f, Select(f).value, p)
  {
    assert At(f, Current) == f.current && At(f, Next) == f.next && At(f, Backup) == f.backup;
    forall p
      ensures At(f, p).Holds? ==> Select(f).Some? && At(f, Select(f).value).Holds? && Beats(f, Select(f).value, p)
    {
      match p case Current => case Next => case Backup =>
    }
  }

  function Selected(f: Files): Option<Envelope> {
    if Select(f).None? then None else Some(At(f, Select(f).value).env)
  }

  // Commit steps

  datatype Stage = Open | Write | Drop | Displace | Install | Finish

  /** What one completed step of a commit of e does to the files. */
  function Do(stage: Stage, f: Files, e: Envelope): Files {
    match stage
    case Open => f.(next := Torn)
    case Write => f.(next := Holds(e))
    case Drop => f.(backup := Absent)
    case Displace => if f.current.Absent? then f else f.(current := Absent, backup := f.current)
    case Install => f.(current := f.next, next := Absent)
    case Finish => f.(backup := Absent)
  }

  const STAGES := [Open, Write, Drop, Displace, Install, Finish]

  /** The files when a commit of e stops after its first k steps. */
  function CutCommit(f: Files, e: Envelope, k: nat): Files
    requires k <= |STAGES|
  {
    if k == 0 then f else Do(STAGES[k - 1], CutCommit(f, e, k - 1), e)
  }

  // Order on envelopes

  predicate Numbered(e: Envelope) {
    e.generation == |e.payload.ops|
  }

  /** e is b or a state b went through on the way. */
  predicate Precedes(e: Envelope, b: Envelope) {
    && Numbered(e) && Numbered(b)
    && e.payload.origin == b.payload.origin
    && e.payload.ops <= b.payload.ops
  }

  /** s is one mutation applied to e. */
  predicate Succeeds(s: Envelope, e: Envelope) {
    && Precedes(e, s) && s.generation == e.generation + 1
  }

  lemma PrecedesIsOrder(a: Envelope, b: Envelope, c: Envelope)
    requires Precedes(a, b) && Precedes(b, c)
    ensures Precedes(a, c)
    ensures a.generation == b.generation ==> a == b
    ensures a.generation <= b.generation
  {
  }

  // What the files can look like when nobody is writing them

  /** The states in which any number of crashes can leave the files, where `last` is the newest
      envelope that has ever been in `current`. */
  predicate Resting(f: Files, last: Option<Envelope>) {
    match last
    case None =>
      f.current.Absent? && f.backup.Absent? && (f.next.Holds? ==> f.next.env.generation == 0 && Numbered(f.next.env))
    case Some(l) =>
      && Numbered(l)
      && (f.current == Absent || f.current == Holds(l))
      && !f.backup.Torn?
      && (f.backup.Holds? ==> if f.current.Absent? then f.backup.env == l else Succeeds(l, f.backup.env))
      && (f.next.Holds? ==> f.next.env == l || Succeeds(f.next.env, l))
      && (f.next == Holds(l) ==> f.current.Absent?)
      && (f.next.Absent? ==> f.current == Holds(l))
  }

  /** Some file exists and none parses: every later load is refused. */
  predicate Lost(f: Files) {
    Selected(f).None? && f != NOTHING
  }

  lemma LostIffNothingHolds(f: Files)
    ensures Selected(f).None? <==> !f.current.Holds? && !f.next.Holds? && !f.backup.Holds?
  {
    SelectFindsTheBest(f);
    assert At(f, Current) == f.current && At(f, Next) == f.next && At(f, Backup) == f.backup;
  }

  // Files that cannot be read

  function See(slot: Slot, hidden: bool): Slot {
    if hidden && slot.Holds? then Torn else slot
  }

  /** What a load sees of the files when it cannot read the ones in `unread`: a file that exists but
      cannot be read counts like one that does not parse. */
  function Seen(f: Files, unread: set<Place>): Files {
    Files(See(f.current, Current in unread), See(f.next, Next in unread), See(f.backup, Backup in unread))
  }

  /** `current` holds an envelope, but `backup` holds the only one that can be read. */
  predicate PassesOver(f: Files, unread: set<Place>) {
    && f.current.Holds? && Current in unread
    && (f.next.Holds? ==> Next in unread)
    && f.backup.Holds? && Backup !in unread
  }

  /** What a load of resting files finds, whichever files it cannot read: the last committed envelope,
      one mutation more, or nothing. It finds an older state exactly when it passes over `current`. */
  lemma SelectionOfResting(f: Files, l: Envelope, unread: set<Place>)
    requires Resting(f, Some(l))
    ensures Selected(Seen(f, unread)).Some? ==>
              var e := Selected(Seen(f, unread)).value;
              if PassesOver(f, unread) then e == f.backup.env && Succeeds(l, e) else e == l || Succeeds(e, l)
    ensures var place := Select(Seen(f, unread));
            && (place == Some(Current) ==> f.current == Holds(l))
            && (place == Some(Next) ==> f.next.Holds? && (f.next.env == l ==> f.current.Absent?))
            && (place == Some(Backup) ==> f.backup.Holds? && (PassesOver(f, unread) || f.current.Absent?))
    ensures PassesOver(f, unread) ==> Select(Seen(f, unread)) == Some(Backup)
    ensures Selected(f).None? ==> f.next == Torn && f.current.Absent? && f.backup.Absent?
    ensures f != NOTHING
  {
    var g := Seen(f, unread);
    SelectFindsTheBest(f);
    SelectFindsTheBest(g);
    assert At(f, Current) == f.current && At(f, Next) == f.next && At(f, Backup) == f.backup;
    assert At(g, Current) == g.current && At(g, Next) == g.next && At(g, Backup) == g.backup;
  }
}
