/** The queue of one account: operations and outgoing mail that wait for the server. The server answers as it likes,
    work arrives while the queue is being replayed, the account may be removed, and the application may stop at any step. */
module MailQueue {
  import opened Basics

  const ATTEMPT_LIMIT := 3

  datatype Draft = Draft(id: Option<nat>, content: string)

  /** Queued work; tickets number everything that is queued, in the order of queueing. */
  datatype Item<T> = Item(ticket: nat, attempts: nat, work: T)

  /** An operation on the mailbox, as text. */
  type Change = string

  /** What has reached the server. */
  datatype Reach = Done(ticket: nat) | Sent(ticket: nat)

  /** How queued work has left the queue. */
  datatype Fate = Performed | Discarded | Delivered | Drafted | WithAccount

  /** The one queue flight of the account, and what is left of the list that it works through. */
  datatype Flight =
    | Grounded
    | Replaying(left: seq<Item<Change>>, automatic: bool)
    | Recording(done: Item<Change>, left: seq<Item<Change>>, automatic: bool)
    | Checking
    | Mailing(mails: seq<Item<Draft>>, automatic: bool, since: nat)
    | Settling(mail: Item<Draft>, rejected: bool, mails: seq<Item<Draft>>, automatic: bool, since: nat)

  datatype Queue = Queue(present: bool, pending: seq<Item<Change>>, outbox: seq<Item<Draft>>, drafts: seq<Draft>, flight: Flight,
                         next: nat, server: seq<Reach>, failures: seq<nat>, fates: map<nat, Fate>)

  datatype Event =
    | Enqueue(change: Change)
    | QueueMail(draft: Draft, seen: Option<Draft>)
    | SaveDraft(saved: Draft)
    | DeleteDraft(id: nat)
    | BeginReplay
    | BeginRetry
    | BeginResend
    | Perform(ok: bool)
    | Record
    | LeaveReplay
    | Check
    | Send(accepted: bool, rejected: bool)
    | Settle(unused: nat)
    | LeaveMail
    | Discard(ticket: nat)
    | Cancel(ticket: nat)
    | RemoveAccount
    | Crash

  predicate Has<T>(s: seq<Item<T>>, ticket: nat) {
    exists k :: 0 <= k < |s| && s[k].ticket == ticket
  }

  function Find<T>(s: seq<Item<T>>, ticket: nat): (x: Item<T>)
    requires Has(s, ticket)
    ensures x in s && x.ticket == ticket
  {
    if s[0].ticket == ticket then s[0] else Find(s[1..], ticket)
  }

  function Remove<T(!new)>(s: seq<Item<T>>, ticket: nat): (r: seq<Item<T>>)
    ensures forall x :: x in r <==> x in s && x.ticket != ticket
  {
    if s == [] then [] else (if s[0].ticket == ticket then [] else [s[0]]) + Remove(s[1..], ticket)
  }

  /** One more failed attempt for the item with this ticket, if it is still queued. */
  function Fail<T>(s: seq<Item<T>>, ticket: nat): (r: seq<Item<T>>)
    ensures |r| == |s|
    ensures forall k :: 0 <= k < |s| ==>
              r[k] == Item(s[k].ticket, s[k].attempts + (if s[k].ticket == ticket then 1 else 0), s[k].work)
  {
    seq(|s|, k requires 0 <= k < |s| => Item(s[k].ticket, s[k].attempts + (if s[k].ticket == ticket then 1 else 0), s[k].work))
  }

  predicate Enabled(e: Event, q: Queue) {
    match e
    case Enqueue(_) => q.present
    case QueueMail(_, _) => q.present
    case SaveDraft(d) => q.present && d.id.Some?
    case DeleteDraft(_) => q.present
    case BeginReplay => q.flight.Grounded?
    case BeginRetry => q.flight.Grounded? && q.present && q.pending != []
    case BeginResend => q.flight.Grounded? && q.present && q.pending == [] && q.outbox != []
    case Perform(_) => q.flight.Replaying? && q.flight.left != [] && (q.flight.automatic ==> q.flight.left[0].attempts < ATTEMPT_LIMIT)
    case Record => q.flight.Recording?
    case LeaveReplay => q.flight.Replaying?
    case Check => q.flight.Checking?
    case Send(accepted, rejected) =>
      q.flight.Mailing? && q.flight.mails != [] && (q.flight.automatic ==> q.flight.mails[0].attempts < ATTEMPT_LIMIT)
      && !(accepted && rejected)
    case Settle(t) => q.flight.Settling? && forall d :: d in q.drafts ==> d.id != Some(t)
    case LeaveMail => q.flight.Mailing?
    case Discard(t) => q.flight.Grounded? && q.present && Has(q.pending, t)
    case Cancel(t) => q.flight.Grounded? && q.present && Has(q.outbox, t)
    case RemoveAccount => q.present
    case Crash => true
  }

  /** After a list of operations has been worked through, or left, an automatic replay goes on to look at the outbox. */
  function Onward(automatic: bool): Flight {
    if automatic then Checking else Grounded
  }

  /** The first draft with this id. */
  function DraftWith(drafts: seq<Draft>, id: Option<nat>): (r: Option<Draft>)
    ensures r.Some? ==> r.value in drafts && r.value.id == id && id.Some?
    ensures r.None? && id.Some? ==> forall k :: 0 <= k < |drafts| ==> drafts[k].id != id
  {
    if id.None? || drafts == [] then None
    else if drafts[0].id == id then Some(drafts[0])
    else DraftWith(drafts[1..], id)
  }

  /** The draft replaces the first one with its id, or joins the others. */
  function PutDraft(drafts: seq<Draft>, d: Draft): seq<Draft> {
    if d.id.None? then drafts + [d]
    else if drafts == [] then [d]
    else if drafts[0].id == d.id then [d] + drafts[1..]
    else [drafts[0]] + PutDraft(drafts[1..], d)
  }

  function WithoutDraft(drafts: seq<Draft>, id: Option<nat>): seq<Draft> {
    if drafts == [] then []
    else (if drafts[0].id == id then [] else [drafts[0]]) + WithoutDraft(drafts[1..], id)
  }

  /** The drafts after a mail was submitted: its own draft goes, unless that is not the one seen at the
      beginning any more. A mail that was never saved has no draft id, and nor had it then. */
  function Submitted(drafts: seq<Draft>, draft: Draft, seen: Option<Draft>): seq<Draft> {
    if draft.id.None? || DraftWith(drafts, draft.id) == seen then WithoutDraft(drafts, draft.id) else drafts
  }

  /** A rejected mail keeps its draft id unless a different draft has it by now. */
  function Retained(drafts: seq<Draft>, draft: Draft, unused: nat): Draft {
    var current := DraftWith(drafts, draft.id);
    if draft.id.Some? && (current.None? || current.value == draft) then draft else Draft(Some(unused), draft.content)
  }

  function Lost(q: Queue): map<nat, Fate> {
    q.fates + (map x | x in q.pending :: x.ticket := WithAccount) + (map x | x in q.outbox :: x.ticket := WithAccount)
  }

  function NoteFailure<T>(failures: seq<nat>, s: seq<Item<T>>, ticket: nat): seq<nat> {
    if Has(s, ticket) then failures + [ticket] else failures
  }

  function Apply(e: Event, q: Queue): Queue
    requires Enabled(e, q)
  {
    match e
    case Enqueue(change) => q.(pending := q.pending + [Item(q.next, 0, change)], next := q.next + 1)
    case SaveDraft(d) => q.(drafts := PutDraft(q.drafts, d))
    case DeleteDraft(id) => q.(drafts := WithoutDraft(q.drafts, Some(id)))
    case QueueMail(draft, seen) =>
      q.(outbox := q.outbox + [Item(q.next, 0, draft)], next := q.next + 1, drafts := Submitted(q.drafts, draft, seen))
    case BeginReplay => q.(flight := Replaying(q.pending, true))
    case BeginRetry => q.(flight := Replaying([q.pending[0]], false))
    case BeginResend => q.(flight := Mailing([q.outbox[0]], false, q.next))
    case Perform(ok) =>
      var x := q.flight.left[0];
      if ok then q.(server := q.server + [Done(x.ticket)], flight := Recording(x, q.flight.left[1..], q.flight.automatic))
      else q.(pending := Fail(q.pending, x.ticket), failures := NoteFailure(q.failures, q.pending, x.ticket),
              flight := Onward(q.flight.automatic))
    case Record =>
      if q.present then
        q.(pending := Remove(q.pending, q.flight.done.ticket), fates := q.fates[q.flight.done.ticket := Performed],
           flight := if q.flight.automatic then Replaying(q.flight.left, true) else Grounded)
      else q.(flight := Onward(q.flight.automatic))
    case LeaveReplay => q.(flight := Onward(q.flight.automatic))
    case Check => q.(flight := if q.pending != [] then Grounded else Mailing(q.outbox, true, q.next))
    case Send(accepted, rejected) =>
      var x := q.flight.mails[0];
      if !accepted && !rejected then
        q.(outbox := Fail(q.outbox, x.ticket), failures := NoteFailure(q.failures, q.outbox, x.ticket), flight := Grounded)
      else q.(server := if accepted then q.server + [Sent(x.ticket)] else q.server,
              flight := Settling(x, rejected, q.flight.mails[1..], q.flight.automatic, q.flight.since))
    case Settle(t) =>
      var x := q.flight.mail;
      if q.present && Has(q.outbox, x.ticket) then
        q.(outbox := Remove(q.outbox, x.ticket),
           fates := q.fates[x.ticket := if q.flight.rejected then Drafted else Delivered],
           drafts := if q.flight.rejected then PutDraft(q.drafts, Retained(q.drafts, x.work, t)) else q.drafts,
           flight := if q.flight.automatic then Mailing(q.flight.mails, true, q.flight.since) else Grounded)
      else q.(flight := Grounded)
    case LeaveMail => q.(flight := Grounded)
    case Discard(t) => q.(pending := Remove(q.pending, t), fates := q.fates[t := Discarded])
    case Cancel(t) =>
      q.(outbox := Remove(q.outbox, t), fates := q.fates[t := Drafted], drafts := PutDraft(q.drafts, Find(q.outbox, t).work))
    case RemoveAccount => q.(present := false, pending := [], outbox := [], drafts := [], fates := Lost(q))
    case Crash => q.(flight := Grounded)
  }

  // Lists of items

  function Count(failures: seq<nat>, ticket: nat): nat {
    if failures == [] then 0
    else Count(failures[..|failures| - 1], ticket) + (if failures[|failures| - 1] == ticket then 1 else 0)
  }

  ghost predicate Numbered<T>(s: seq<Item<T>>, next: nat) {
    && (forall i :: 0 <= i < |s| ==> s[i].ticket < next)
    && (forall i, j :: 0 <= i < j < |s| ==> s[i].ticket < s[j].ticket)
  }

  ghost predicate Counted<T>(s: seq<Item<T>>, failures: seq<nat>) {
    forall k :: 0 <= k < |s| ==> s[k].attempts == Count(failures, s[k].ticket)
  }

  /** The items under way are the front of the queue, as long as the account is there. */
  ghost predicate AtFront<T>(present: bool, underway: seq<Item<T>>, s: seq<Item<T>>, next: nat) {
    Numbered(s, next) && Numbered(underway, next) && (present ==> underway <= s) && (!present ==> s == [])
  }

  lemma {:induction false} RemoveAbsent<T(!new)>(s: seq<Item<T>>, ticket: nat)
    requires !Has(s, ticket)
    ensures Remove(s, ticket) == s
  {
    if s != [] {
      assert s[0].ticket != ticket;
      assert !Has(s[1..], ticket) by {
        forall k | 0 <= k < |s[1..]| ensures s[1..][k].ticket != ticket { assert s[1..][k] == s[k + 1]; }
      }
      RemoveAbsent(s[1..], ticket);
    }
  }

  lemma {:induction false} RemoveFirst<T(!new)>(s: seq<Item<T>>, next: nat)
    requires s != [] && Numbered(s, next)
    ensures Remove(s, s[0].ticket) == s[1..]
  {
    assert !Has(s[1..], s[0].ticket);
    RemoveAbsent(s[1..], s[0].ticket);
  }

  lemma {:induction false} RemoveKeepsNumbered<T(!new)>(s: seq<Item<T>>, ticket: nat, next: nat)
    requires Numbered(s, next)
    ensures Numbered(Remove(s, ticket), next)
  {
    if s != [] {
      RemoveKeepsNumbered(s[1..], ticket, next);
      var rest := Remove(s[1..], ticket);
      forall i | 0 <= i < |rest| ensures s[0].ticket < rest[i].ticket { assert rest[i] in s[1..]; }
    }
  }

  lemma RemoveKeepsCounted<T(!new)>(s: seq<Item<T>>, ticket: nat, failures: seq<nat>)
    requires Counted(s, failures)
    ensures Counted(Remove(s, ticket), failures)
  {
    var r := Remove(s, ticket);
    forall k | 0 <= k < |r| ensures r[k].attempts == Count(failures, r[k].ticket) {
      assert r[k] in s;
    }
  }

  lemma CountOneMore(failures: seq<nat>, ticket: nat, other: nat)
    ensures Count(failures + [ticket], other) == Count(failures, other) + (if other == ticket then 1 else 0)
  {
    assert (failures + [ticket])[..|failures|] == failures;
  }

  lemma FailKeepsCounted<T>(s: seq<Item<T>>, ticket: nat, failures: seq<nat>)
    requires Counted(s, failures)
    ensures Counted(Fail(s, ticket), NoteFailure(failures, s, ticket))
  {
    forall k | 0 <= k < |s| ensures Fail(s, ticket)[k].attempts == Count(NoteFailure(failures, s, ticket), s[k].ticket) {
      CountOneMore(failures, ticket, s[k].ticket);
    }
  }

  lemma OtherFailureKeepsCounted<T, U>(s: seq<Item<T>>, other: seq<Item<U>>, ticket: nat, failures: seq<nat>)
    requires Counted(s, failures) && (Has(other, ticket) ==> !Has(s, ticket))
    ensures Counted(s, NoteFailure(failures, other, ticket))
  {
    forall k | 0 <= k < |s| ensures s[k].attempts == Count(NoteFailure(failures, other, ticket), s[k].ticket) {
      CountOneMore(failures, ticket, s[k].ticket);
    }
  }

  lemma {:induction false} UncountedTicket(failures: seq<nat>, ticket: nat)
    requires forall k :: 0 <= k < |failures| ==> failures[k] < ticket
    ensures Count(failures, ticket) == 0
  {
    if failures != [] { UncountedTicket(failures[..|failures| - 1], ticket); }
  }

  // Invariants

  /** The operations, and the mails, that the flight still has to settle, in order. */
  function Underway(f: Flight): seq<Item<Change>> {
    match f
    case Replaying(left, _) => left
    case Recording(done, left, _) => [done] + left
    case _ => []
  }

  function MailUnderway(f: Flight): seq<Item<Draft>> {
    match f
    case Mailing(mails, _, _) => mails
    case Settling(mail, _, mails, _, _) => [mail] + mails
    case _ => []
  }

  lemma ArrivalKeepsFront<T>(present: bool, underway: seq<Item<T>>, s: seq<Item<T>>, x: Item<T>, next: nat)
    requires AtFront(present, underway, s, next) && present && x.ticket == next
    ensures AtFront(present, underway, s + [x], next + 1)
    ensures forall t :: Has(s + [x], t) <==> Has(s, t) || t == next
  {
    forall t ensures Has(s + [x], t) <==> Has(s, t) || t == next {
      if Has(s, t) {
        var k :| 0 <= k < |s| && s[k].ticket == t;
        assert (s + [x])[k].ticket == t;
      }
      assert (s + [x])[|s|].ticket == next;
    }
  }

  lemma RemovalKeepsFront<T(!new)>(present: bool, underway: seq<Item<T>>, s: seq<Item<T>>, next: nat)
    requires AtFront(present, underway, s, next) && underway != []
    ensures AtFront(present, underway[1..], Remove(s, underway[0].ticket), next)
    ensures present ==> Remove(s, underway[0].ticket) == s[1..]
  {
    if present {
      RemoveFirst(s, next);
      assert s[0] == underway[0];
    }
  }

  lemma RemovedHas<T(!new)>(s: seq<Item<T>>, ticket: nat)
    ensures forall t :: Has(Remove(s, ticket), t) <==> Has(s, t) && t != ticket
  {
    var r := Remove(s, ticket);
    forall t ensures Has(r, t) <==> Has(s, t) && t != ticket {
      if Has(r, t) {
        var k :| 0 <= k < |r| && r[k].ticket == t;
        assert r[k] in r;
      }
      if Has(s, t) && t != ticket {
        var k :| 0 <= k < |s| && s[k].ticket == t;
        assert s[k] in s && s[k] in r;
      }
    }
  }

  lemma FailKeepsFront<T>(present: bool, underway: seq<Item<T>>, s: seq<Item<T>>, ticket: nat, next: nat)
    requires AtFront(present, underway, s, next)
    ensures AtFront(present, [], Fail(s, ticket), next)
    ensures forall t :: Has(Fail(s, ticket), t) <==> Has(s, t)
  {
    var r := Fail(s, ticket);
    forall t ensures Has(r, t) <==> Has(s, t) {
      if Has(s, t) {
        var k :| 0 <= k < |s| && s[k].ticket == t;
        assert r[k].ticket == t;
      }
    }
  }

  lemma HeadAndTail<T>(s: seq<Item<T>>)
    requires s != []
    ensures [s[0]] + s[1..] == s
  {
  }

  ghost predicate Apart(pending: seq<Item<Change>>, outbox: seq<Item<Draft>>) {
    forall t :: Has(pending, t) ==> !Has(outbox, t)
  }

  ghost predicate FlightMatches(q: Queue) {
    && AtFront(q.present, Underway(q.flight), q.pending, q.next)
    && AtFront(q.present, MailUnderway(q.flight), q.outbox, q.next)
    && Apart(q.pending, q.outbox)
  }

  lemma ArrivalsKeepFlight(e: Event, q: Queue)
    requires FlightMatches(q) && Enabled(e, q) && (e.Enqueue? || e.QueueMail?)
    ensures FlightMatches(Apply(e, q))
  {
    if e.Enqueue? {
      ArrivalKeepsFront(q.present, Underway(q.flight), q.pending, Item(q.next, 0, e.change), q.next);
    } else {
      ArrivalKeepsFront(q.present, MailUnderway(q.flight), q.outbox, Item(q.next, 0, e.draft), q.next);
    }
  }

  lemma PerformKeepsFlight(ok: bool, q: Queue)
    requires FlightMatches(q) && Enabled(Perform(ok), q)
    ensures FlightMatches(Apply(Perform(ok), q))
  {
    var q', x := Apply(Perform(ok), q), q.flight.left[0];
    assert MailUnderway(q'.flight) == MailUnderway(q.flight) == [] && q'.outbox == q.outbox;
    if ok {
      HeadAndTail(q.flight.left);
      assert Underway(q'.flight) == Underway(q.flight) && q'.pending == q.pending;
    } else {
      FailKeepsFront(q.present, Underway(q.flight), q.pending, x.ticket, q.next);
      assert Underway(q'.flight) == [] && q'.pending == Fail(q.pending, x.ticket);
    }
  }

  lemma RecordKeepsFlight(q: Queue)
    requires FlightMatches(q) && Enabled(Record, q)
    ensures FlightMatches(Apply(Record, q))
  {
    RemovalKeepsFront(q.present, Underway(q.flight), q.pending, q.next);
    RemovedHas(q.pending, q.flight.done.ticket);
    assert ([q.flight.done] + q.flight.left)[1..] == q.flight.left;
  }

  lemma SendKeepsFlight(e: Event, q: Queue)
    requires FlightMatches(q) && Enabled(e, q) && e.Send?
    ensures FlightMatches(Apply(e, q))
  {
    var q', x := Apply(e, q), q.flight.mails[0];
    assert Underway(q'.flight) == Underway(q.flight) == [] && q'.pending == q.pending;
    if e.accepted || e.rejected {
      HeadAndTail(q.flight.mails);
      assert MailUnderway(q'.flight) == MailUnderway(q.flight) && q'.outbox == q.outbox;
    } else {
      FailKeepsFront(q.present, MailUnderway(q.flight), q.outbox, x.ticket, q.next);
      assert MailUnderway(q'.flight) == [] && q'.outbox == Fail(q.outbox, x.ticket);
    }
  }

  lemma SettleKeepsFlight(t: nat, q: Queue)
    requires FlightMatches(q) && Enabled(Settle(t), q)
    ensures FlightMatches(Apply(Settle(t), q))
  {
    RemovalKeepsFront(q.present, MailUnderway(q.flight), q.outbox, q.next);
    RemovedHas(q.outbox, q.flight.mail.ticket);
    assert ([q.flight.mail] + q.flight.mails)[1..] == q.flight.mails;
  }

  lemma DepartureKeepsFlight(e: Event, q: Queue)
    requires FlightMatches(q) && Enabled(e, q) && (e.Discard? || e.Cancel? || e.RemoveAccount?)
    ensures FlightMatches(Apply(e, q))
  {
    if e.Discard? {
      RemoveKeepsNumbered(q.pending, e.ticket, q.next);
      RemovedHas(q.pending, e.ticket);
    } else if e.Cancel? {
      RemoveKeepsNumbered(q.outbox, e.ticket, q.next);
      RemovedHas(q.outbox, e.ticket);
    }
  }

  lemma PrefixIsAtFront<T>(present: bool, s: seq<Item<T>>, part: seq<Item<T>>, next: nat)
    requires AtFront(present, [], s, next) && part <= s
    ensures AtFront(present, part, s, next)
  {
  }

  lemma BeginKeepsFlight(e: Event, q: Queue)
    requires FlightMatches(q) && Enabled(e, q)
    requires e.BeginReplay? || e.BeginRetry? || e.BeginResend? || e.Check?
    ensures FlightMatches(Apply(e, q))
  {
    var q' := Apply(e, q);
    PrefixIsAtFront(q.present, q.pending, Underway(q'.flight), q.next);
    PrefixIsAtFront(q.present, q.outbox, MailUnderway(q'.flight), q.next);
  }

  /** A step that leaves the lists alone and drops what is under way, or nothing. */
  lemma QuietKeepsFlight(q: Queue, q': Queue)
    requires FlightMatches(q) && q'.present == q.present && q'.next == q.next
    requires q'.pending == q.pending && q'.outbox == q.outbox
    requires Underway(q'.flight) == Underway(q.flight) || Underway(q'.flight) == []
    requires MailUnderway(q'.flight) == MailUnderway(q.flight) || MailUnderway(q'.flight) == []
    ensures FlightMatches(q')
  {
  }

  lemma StepKeepsFlight(e: Event, q: Queue)
    requires FlightMatches(q) && Enabled(e, q)
    ensures FlightMatches(Apply(e, q))
  {
    if e.Enqueue? || e.QueueMail? {
      ArrivalsKeepFlight(e, q);
    } else if e.Perform? {
      PerformKeepsFlight(e.ok, q);
    } else if e.Record? {
      RecordKeepsFlight(q);
    } else if e.Send? {
      SendKeepsFlight(e, q);
    } else if e.Settle? {
      SettleKeepsFlight(e.unused, q);
    } else if e.Discard? || e.Cancel? || e.RemoveAccount? {
      DepartureKeepsFlight(e, q);
    } else if e.BeginReplay? || e.BeginRetry? || e.BeginResend? || e.Check? {
      BeginKeepsFlight(e, q);
    } else {
      QuietKeepsFlight(q, Apply(e, q));
    }
  }

  /** While mail goes out, all operations that wait were queued after the mailing began. */
  ghost predicate MailComesLast(q: Queue) {
    (q.flight.Mailing? || q.flight.Settling?) ==>
      q.flight.since <= q.next && forall k :: 0 <= k < |q.pending| ==> q.pending[k].ticket >= q.flight.since
  }

  lemma StepKeepsMailLast(e: Event, q: Queue)
    requires FlightMatches(q) && MailComesLast(q) && Enabled(e, q)
    ensures MailComesLast(Apply(e, q))
  {
  }

  /** Every item knows how often it has failed. */
  ghost predicate FailuresCounted(q: Queue) {
    && Counted(q.pending, q.failures) && Counted(Underway(q.flight), q.failures)
    && Counted(q.outbox, q.failures) && Counted(MailUnderway(q.flight), q.failures)
    && (forall k :: 0 <= k < |q.failures| ==> q.failures[k] < q.next)
  }

  lemma FailedTicketIsOld<T>(failures: seq<nat>, s: seq<Item<T>>, ticket: nat, next: nat)
    requires Numbered(s, next) && forall k :: 0 <= k < |failures| ==> failures[k] < next
    ensures forall k :: 0 <= k < |NoteFailure(failures, s, ticket)| ==> NoteFailure(failures, s, ticket)[k] < next
  {
  }

  lemma PerformKeepsCounted(ok: bool, q: Queue)
    requires FlightMatches(q) && FailuresCounted(q) && Enabled(Perform(ok), q)
    ensures FailuresCounted(Apply(Perform(ok), q))
  {
    var q', ticket := Apply(Perform(ok), q), q.flight.left[0].ticket;
    assert MailUnderway(q'.flight) == [] && q'.outbox == q.outbox;
    if ok {
      HeadAndTail(q.flight.left);
      assert Underway(q'.flight) == q.flight.left && q'.pending == q.pending && q'.failures == q.failures;
    } else {
      assert Underway(q'.flight) == [] && q'.pending == Fail(q.pending, ticket);
      FailKeepsCounted(q.pending, ticket, q.failures);
      OtherFailureKeepsCounted(q.outbox, q.pending, ticket, q.failures);
      FailedTicketIsOld(q.failures, q.pending, ticket, q.next);
    }
  }

  lemma SendKeepsCounted(e: Event, q: Queue)
    requires FlightMatches(q) && FailuresCounted(q) && Enabled(e, q) && e.Send?
    ensures FailuresCounted(Apply(e, q))
  {
    var q', ticket := Apply(e, q), q.flight.mails[0].ticket;
    assert Underway(q'.flight) == [] && q'.pending == q.pending;
    if e.accepted || e.rejected {
      HeadAndTail(q.flight.mails);
      assert MailUnderway(q'.flight) == q.flight.mails && q'.outbox == q.outbox && q'.failures == q.failures;
    } else {
      assert MailUnderway(q'.flight) == [] && q'.outbox == Fail(q.outbox, ticket);
      FailKeepsCounted(q.outbox, ticket, q.failures);
      OtherFailureKeepsCounted(q.pending, q.outbox, ticket, q.failures);
      FailedTicketIsOld(q.failures, q.outbox, ticket, q.next);
    }
  }

  lemma RecordKeepsCounted(q: Queue)
    requires FlightMatches(q) && FailuresCounted(q) && Enabled(Record, q)
    ensures FailuresCounted(Apply(Record, q))
  {
    RemoveKeepsCounted(q.pending, q.flight.done.ticket, q.failures);
    assert q.flight.left == Underway(q.flight)[1..];
  }

  lemma SettleKeepsCounted(t: nat, q: Queue)
    requires FlightMatches(q) && FailuresCounted(q) && Enabled(Settle(t), q)
    ensures FailuresCounted(Apply(Settle(t), q))
  {
    RemoveKeepsCounted(q.outbox, q.flight.mail.ticket, q.failures);
    assert q.flight.mails == MailUnderway(q.flight)[1..];
  }

  lemma ArrivalKeepsCounted(e: Event, q: Queue)
    requires FailuresCounted(q) && Enabled(e, q) && (e.Enqueue? || e.QueueMail?)
    ensures FailuresCounted(Apply(e, q))
  {
    UncountedTicket(q.failures, q.next);
  }

  lemma PrefixIsCounted<T>(s: seq<Item<T>>, part: seq<Item<T>>, failures: seq<nat>)
    requires Counted(s, failures) && part <= s
    ensures Counted(part, failures)
  {
  }

  lemma BeginKeepsCounted(e: Event, q: Queue)
    requires FailuresCounted(q) && Enabled(e, q)
    requires e.BeginReplay? || e.BeginRetry? || e.BeginResend? || e.Check?
    ensures FailuresCounted(Apply(e, q))
  {
    PrefixIsCounted(q.pending, Underway(Apply(e, q).flight), q.failures);
    PrefixIsCounted(q.outbox, MailUnderway(Apply(e, q).flight), q.failures);
  }

  lemma StepKeepsCounted(e: Event, q: Queue)
    requires FlightMatches(q) && FailuresCounted(q) && Enabled(e, q)
    ensures FailuresCounted(Apply(e, q))
  {
    if e.Perform? {
      PerformKeepsCounted(e.ok, q);
    } else if e.Send? {
      SendKeepsCounted(e, q);
    } else if e.Record? {
      RecordKeepsCounted(q);
    } else if e.Settle? {
      SettleKeepsCounted(e.unused, q);
    } else if e.Discard? {
      RemoveKeepsCounted(q.pending, e.ticket, q.failures);
    } else if e.Cancel? {
      RemoveKeepsCounted(q.outbox, e.ticket, q.failures);
    } else if e.Enqueue? || e.QueueMail? {
      ArrivalKeepsCounted(e, q);
    } else if e.BeginReplay? || e.BeginRetry? || e.BeginResend? || e.Check? {
      BeginKeepsCounted(e, q);
    }
  }

  ghost predicate InOrder(server: seq<Reach>) {
    forall i, j :: 0 <= i < j < |server| && server[i].Done? && server[j].Done? ==> server[i].ticket <= server[j].ticket
  }

  ghost predicate NoneAfter(server: seq<Reach>, s: seq<Item<Change>>) {
    forall i, k :: 0 <= i < |server| && server[i].Done? && 0 <= k < |s| ==> server[i].ticket <= s[k].ticket
  }

  /** What has reached the server did so in the order of queueing, and before anything that still waits. */
  ghost predicate Ordered(q: Queue) {
    && InOrder(q.server) && NoneAfter(q.server, q.pending) && NoneAfter(q.server, Underway(q.flight))
    && (forall i :: 0 <= i < |q.server| ==> q.server[i].ticket < q.next)
  }

  lemma PartKeepsNoneAfter(server: seq<Reach>, s: seq<Item<Change>>, part: seq<Item<Change>>)
    requires NoneAfter(server, s) && forall k :: 0 <= k < |part| ==> part[k] in s
    ensures NoneAfter(server, part)
  {
  }

  lemma ArrivalKeepsNoneAfter(server: seq<Reach>, s: seq<Item<Change>>, x: Item<Change>)
    requires NoneAfter(server, s) && forall i :: 0 <= i < |server| ==> server[i].ticket <= x.ticket
    ensures NoneAfter(server, s + [x])
  {
  }

  lemma OneMoreDone(server: seq<Reach>, ticket: nat, s: seq<Item<Change>>)
    requires NoneAfter(server, s) && forall k :: 0 <= k < |s| ==> ticket <= s[k].ticket
    ensures NoneAfter(server + [Done(ticket)], s)
  {
  }

  lemma OneMoreInOrder(server: seq<Reach>, s: seq<Item<Change>>)
    requires InOrder(server) && NoneAfter(server, s) && s != []
    ensures InOrder(server + [Done(s[0].ticket)])
  {
  }

  lemma PerformKeepsOrdered(ok: bool, q: Queue)
    requires FlightMatches(q) && Ordered(q) && Enabled(Perform(ok), q)
    ensures Ordered(Apply(Perform(ok), q))
  {
    var q', left := Apply(Perform(ok), q), q.flight.left;
    if ok {
      HeadAndTail(left);
      assert Underway(q'.flight) == left && q'.pending == q.pending && q'.server == q.server + [Done(left[0].ticket)];
      assert q.present ==> q.pending[0] == left[0];
      OneMoreInOrder(q.server, left);
      OneMoreDone(q.server, left[0].ticket, left);
      OneMoreDone(q.server, left[0].ticket, q.pending);
    } else {
      assert Underway(q'.flight) == [] && q'.pending == Fail(q.pending, left[0].ticket) && q'.server == q.server;
    }
  }

  lemma OneMoreSent(server: seq<Reach>, ticket: nat, s: seq<Item<Change>>)
    requires InOrder(server) && NoneAfter(server, s)
    ensures InOrder(server + [Sent(ticket)]) && NoneAfter(server + [Sent(ticket)], s)
  {
  }

  lemma SendKeepsOrdered(e: Event, q: Queue)
    requires FlightMatches(q) && Ordered(q) && Enabled(e, q) && e.Send?
    ensures Ordered(Apply(e, q))
  {
    var ticket := q.flight.mails[0].ticket;
    assert ticket < q.next by { assert MailUnderway(q.flight)[0].ticket < q.next; }
    OneMoreSent(q.server, ticket, q.pending);
    OneMoreSent(q.server, ticket, []);
  }

  lemma RemovalKeepsNoneAfter(server: seq<Reach>, s: seq<Item<Change>>, ticket: nat)
    requires NoneAfter(server, s)
    ensures NoneAfter(server, Remove(s, ticket))
  {
    var r := Remove(s, ticket);
    forall i, k | 0 <= i < |server| && server[i].Done? && 0 <= k < |r| ensures server[i].ticket <= r[k].ticket {
      assert r[k] in s;
    }
  }

  lemma RecordKeepsOrdered(q: Queue)
    requires FlightMatches(q) && Ordered(q) && Enabled(Record, q)
    ensures Ordered(Apply(Record, q))
  {
    RemovalKeepsNoneAfter(q.server, q.pending, q.flight.done.ticket);
    assert q.flight.left == Underway(q.flight)[1..];
  }

  lemma BeginKeepsOrdered(e: Event, q: Queue)
    requires FlightMatches(q) && Ordered(q) && Enabled(e, q) && (e.BeginReplay? || e.BeginRetry?)
    ensures Ordered(Apply(e, q))
  {
    PartKeepsNoneAfter(q.server, q.pending, Underway(Apply(e, q).flight));
  }

  /** A step that sends nothing and adds nothing to the operations. */
  lemma QuietKeepsOrdered(q: Queue, q': Queue)
    requires Ordered(q) && q'.server == q.server && q'.next >= q.next
    requires q'.pending == q.pending || q'.pending == []
    requires Underway(q'.flight) == Underway(q.flight) || Underway(q'.flight) == []
    ensures Ordered(q')
  {
  }

  lemma StepKeepsOrdered(e: Event, q: Queue)
    requires FlightMatches(q) && Ordered(q) && Enabled(e, q)
    ensures Ordered(Apply(e, q))
  {
    match e
    case Perform(ok) => PerformKeepsOrdered(ok, q);
    case Send(_, _) => SendKeepsOrdered(e, q);
    case Record => RecordKeepsOrdered(q);
    case Discard(t) => RemovalKeepsNoneAfter(q.server, q.pending, t);
    case Enqueue(change) => ArrivalKeepsNoneAfter(q.server, q.pending, Item(q.next, 0, change));
    case BeginReplay => BeginKeepsOrdered(e, q);
    case BeginRetry => BeginKeepsOrdered(e, q);
    case _ => QuietKeepsOrdered(q, Apply(e, q));
  }

  /** Every ticket is in one of the two queues or has left with a fate, which the server bears out. */
  ghost predicate Accounted(q: Queue) {
    && (forall t: nat :: t in q.fates <==> t < q.next && !Has(q.pending, t) && !Has(q.outbox, t))
    && (forall t :: t in q.fates && q.fates[t] == Performed ==> Done(t) in q.server)
    && (forall t :: t in q.fates && q.fates[t] == Delivered ==> Sent(t) in q.server)
    && (q.flight.Recording? ==> Done(q.flight.done.ticket) in q.server)
    && (q.flight.Settling? && !q.flight.rejected ==> Sent(q.flight.mail.ticket) in q.server)
  }

  lemma ArrivalKeepsAccounted(e: Event, q: Queue)
    requires FlightMatches(q) && Accounted(q) && Enabled(e, q) && (e.Enqueue? || e.QueueMail?)
    ensures Accounted(Apply(e, q))
  {
    if e.Enqueue? {
      ArrivalKeepsFront(q.present, Underway(q.flight), q.pending, Item(q.next, 0, e.change), q.next);
    } else {
      ArrivalKeepsFront(q.present, MailUnderway(q.flight), q.outbox, Item(q.next, 0, e.draft), q.next);
    }
  }

  lemma AttemptKeepsAccounted(e: Event, q: Queue)
    requires FlightMatches(q) && Accounted(q) && Enabled(e, q) && (e.Perform? || e.Send?)
    ensures Accounted(Apply(e, q))
  {
    var q' := Apply(e, q);
    assert forall x :: x in q.server ==> x in q'.server;
    if e.Perform? {
      FailKeepsFront(q.present, Underway(q.flight), q.pending, q.flight.left[0].ticket, q.next);
    } else {
      FailKeepsFront(q.present, MailUnderway(q.flight), q.outbox, q.flight.mails[0].ticket, q.next);
    }
  }

  lemma FrontIsQueued<T>(present: bool, underway: seq<Item<T>>, s: seq<Item<T>>, next: nat)
    requires AtFront(present, underway, s, next) && present && underway != []
    ensures Has(s, underway[0].ticket) && underway[0].ticket < next
  {
    assert s[0] == underway[0];
  }

  lemma RecordKeepsAccounted(q: Queue)
    requires FlightMatches(q) && Accounted(q) && Enabled(Record, q)
    ensures Accounted(Apply(Record, q))
  {
    RemovedHas(q.pending, q.flight.done.ticket);
    if q.present { FrontIsQueued(q.present, Underway(q.flight), q.pending, q.next); }
  }

  lemma SettleKeepsAccounted(t: nat, q: Queue)
    requires FlightMatches(q) && Accounted(q) && Enabled(Settle(t), q)
    ensures Accounted(Apply(Settle(t), q))
  {
    RemovedHas(q.outbox, q.flight.mail.ticket);
    if q.present { FrontIsQueued(q.present, MailUnderway(q.flight), q.outbox, q.next); }
  }

  lemma QueuedIsNumbered<T>(s: seq<Item<T>>, next: nat)
    requires Numbered(s, next)
    ensures forall t: nat :: Has(s, t) ==> t < next
    ensures forall x :: x in s ==> Has(s, x.ticket)
  {
  }

  lemma DiscardKeepsAccounted(t: nat, q: Queue)
    requires FlightMatches(q) && Accounted(q) && Enabled(Discard(t), q)
    ensures Accounted(Apply(Discard(t), q))
  {
    QueuedIsNumbered(q.pending, q.next);
    RemovedHas(q.pending, t);
  }

  lemma CancelKeepsAccounted(t: nat, q: Queue)
    requires FlightMatches(q) && Accounted(q) && Enabled(Cancel(t), q)
    ensures Accounted(Apply(Cancel(t), q))
  {
    QueuedIsNumbered(q.outbox, q.next);
    RemovedHas(q.outbox, t);
  }

  lemma RemovalKeepsAccounted(q: Queue)
    requires FlightMatches(q) && Accounted(q) && Enabled(RemoveAccount, q)
    ensures Accounted(Apply(RemoveAccount, q))
  {
    var fates := Lost(q);
    forall t: nat ensures t in fates <==> t < q.next {
      if Has(q.pending, t) {
        var k :| 0 <= k < |q.pending| && q.pending[k].ticket == t;
        assert q.pending[k] in q.pending;
      }
      if Has(q.outbox, t) {
        var k :| 0 <= k < |q.outbox| && q.outbox[k].ticket == t;
        assert q.outbox[k] in q.outbox;
      }
      if t in fates && t !in q.fates {
        QueuedIsNumbered(q.pending, q.next);
        QueuedIsNumbered(q.outbox, q.next);
      }
    }
  }

  lemma StepKeepsAccounted(e: Event, q: Queue)
    requires FlightMatches(q) && Accounted(q) && Enabled(e, q)
    ensures Accounted(Apply(e, q))
  {
    if e.Enqueue? || e.QueueMail? {
      ArrivalKeepsAccounted(e, q);
    } else if e.Perform? || e.Send? {
      AttemptKeepsAccounted(e, q);
    } else if e.Record? {
      RecordKeepsAccounted(q);
    } else if e.Settle? {
      SettleKeepsAccounted(e.unused, q);
    } else if e.Discard? {
      DiscardKeepsAccounted(e.ticket, q);
    } else if e.Cancel? {
      CancelKeepsAccounted(e.ticket, q);
    } else if e.RemoveAccount? {
      RemovalKeepsAccounted(q);
    }
  }

  ghost predicate Inv(q: Queue) {
    FlightMatches(q) && MailComesLast(q) && FailuresCounted(q) && Ordered(q) && Accounted(q)
  }

  lemma StepKeepsInv(e: Event, q: Queue)
    requires Inv(q) && Enabled(e, q)
    ensures Inv(Apply(e, q))
  {
    StepKeepsFlight(e, q);
    StepKeepsMailLast(e, q);
    StepKeepsCounted(e, q);
    StepKeepsOrdered(e, q);
    StepKeepsAccounted(e, q);
  }

  // Runs

  const EMPTY := Queue(true, [], [], [], Grounded, 0, [], [], map[])

  ghost predicate IsRun(events: seq<Event>, q: Queue) {
    events != [] ==> Enabled(events[0], q) && IsRun(events[1..], Apply(events[0], q))
  }

  ghost function After(events: seq<Event>, q: Queue): Queue
    requires IsRun(events, q)
  {
    if events == [] then q else After(events[1..], Apply(events[0], q))
  }

  lemma {:induction false} RunKeepsInv(events: seq<Event>, q: Queue)
    requires Inv(q) && IsRun(events, q)
    ensures Inv(After(events, q))
  {
    if events != [] {
      StepKeepsInv(events[0], q);
      RunKeepsInv(events[1..], Apply(events[0], q));
    }
  }

  ghost predicate LeadsTo(events: seq<Event>, q: Queue) {
    IsRun(events, EMPTY) && After(events, EMPTY) == q
  }

  ghost predicate Reachable(q: Queue) {
    exists events :: LeadsTo(events, q)
  }

  lemma {:induction false} RunOneMore(events: seq<Event>, q: Queue, e: Event)
    requires IsRun(events, q) && Enabled(e, After(events, q))
    ensures IsRun(events + [e], q) && After(events + [e], q) == Apply(e, After(events, q))
  {
    if events == [] {
      assert (events + [e])[1..] == [];
    } else {
      RunOneMore(events[1..], Apply(events[0], q), e);
      assert (events + [e])[1..] == events[1..] + [e];
    }
  }

  lemma StepStaysReachable(e: Event, q: Queue)
    requires Reachable(q) && Enabled(e, q)
    ensures Reachable(Apply(e, q))
  {
    var events :| LeadsTo(events, q);
    RunOneMore(events, EMPTY, e);
    assert LeadsTo(events + [e], Apply(e, q));
  }

  lemma ReachableInv(q: Queue)
    requires Reachable(q)
    ensures Inv(q)
  {
    var events :| LeadsTo(events, q);
    RunKeepsInv(events, EMPTY);
  }

  /** In every run the operations reach the server in the order of queueing; one that is repeated after a crash
      is repeated before any later one. */
  lemma ServerSeesQueueOrder(q: Queue)
    requires Reachable(q)
    ensures InOrder(q.server)
  {
    ReachableInv(q);
  }

  /** Nothing that was queued is lost: it waits, or it left as performed, discarded, delivered, a draft, or with its account. */
  lemma NothingQueuedIsLost(q: Queue, ticket: nat)
    requires Reachable(q) && ticket < q.next
    ensures ticket in q.fates <==> !Has(q.pending, ticket) && !Has(q.outbox, ticket)
    ensures ticket in q.fates && q.fates[ticket] == Performed ==> Done(ticket) in q.server
    ensures ticket in q.fates && q.fates[ticket] == Delivered ==> Sent(ticket) in q.server
  {
    ReachableInv(q);
  }

  /** After three failures there is no further automatic attempt, by replay or by sending. */
  lemma NoAutomaticAttemptAfterThreeFailures(q: Queue, e: Event)
    requires Reachable(q) && Enabled(e, q)
    ensures e.Perform? && q.flight.automatic ==> Count(q.failures, q.flight.left[0].ticket) < ATTEMPT_LIMIT
    ensures e.Send? && q.flight.automatic ==> Count(q.failures, q.flight.mails[0].ticket) < ATTEMPT_LIMIT
  {
    ReachableInv(q);
    AttemptsAreFailures(q);
  }

  lemma AttemptsAreFailures(q: Queue)
    requires Inv(q)
    ensures q.flight.Replaying? && q.flight.left != [] ==> q.flight.left[0].attempts == Count(q.failures, q.flight.left[0].ticket)
    ensures q.flight.Mailing? && q.flight.mails != [] ==> q.flight.mails[0].attempts == Count(q.failures, q.flight.mails[0].ticket)
  {
  }

  /** Mail is sent only when every operation that still waits was queued after the sending began. */
  lemma MailWaitsForOperations(q: Queue, accepted: bool, rejected: bool)
    requires Reachable(q) && Enabled(Send(accepted, rejected), q)
    ensures forall k :: 0 <= k < |q.pending| ==> q.pending[k].ticket >= q.flight.since
  {
    ReachableInv(q);
  }

  lemma SettledMailKeepsContent(t: nat, q: Queue, mail: Item<Draft>)
    requires FlightMatches(q) && Enabled(Settle(t), q) && mail in q.outbox && mail.ticket == q.flight.mail.ticket
    requires q.present && q.flight.rejected
    ensures exists d :: d in Apply(Settle(t), q).drafts && d.content == mail.work.content
  {
    assert q.outbox[0] == q.flight.mail;
    UniqueTicket(q.outbox, q.next, mail, q.outbox[0]);
    PutIsThere(q.drafts, Retained(q.drafts, mail.work, t));
  }

  /** Mail that becomes a draft, by rejection or by cancelling, is there with its content. */
  lemma DraftedMailKeepsContent(e: Event, q: Queue, ticket: nat)
    requires Reachable(q) && Enabled(e, q) && Has(q.outbox, ticket) && ticket in Apply(e, q).fates && Apply(e, q).fates[ticket] == Drafted
    ensures exists d :: d in Apply(e, q).drafts && d.content == Find(q.outbox, ticket).work.content
  {
    assert FlightMatches(q) && ticket !in q.fates by { ReachableInv(q); }
    var mail := Find(q.outbox, ticket);
    if e.Settle? {
      SettledMailKeepsContent(e.unused, q, mail);
    } else if e.Cancel? {
      PutIsThere(q.drafts, mail.work);
    }
  }

  lemma UniqueTicket<T>(s: seq<Item<T>>, next: nat, x: Item<T>, y: Item<T>)
    requires Numbered(s, next) && x in s && y in s && x.ticket == y.ticket
    ensures x == y
  {
  }

  lemma {:induction false} PutIsThere(drafts: seq<Draft>, d: Draft)
    ensures d in PutDraft(drafts, d)
  {
    if d.id.Some? && drafts != [] && drafts[0].id != d.id {
      PutIsThere(drafts[1..], d);
    }
  }

  /** What putting a draft does to the others: at most the first one with its id is replaced. */
  lemma {:induction false} PutReplacesOne(drafts: seq<Draft>, d: Draft)
    ensures var had := DraftWith(drafts, d.id);
            multiset(PutDraft(drafts, d))
            == multiset(drafts) + multiset{d} - (if had.Some? then multiset{had.value} else multiset{})
  {
    if d.id.Some? && drafts != [] {
      assert drafts == [drafts[0]] + drafts[1..];
      if drafts[0].id != d.id {
        PutReplacesOne(drafts[1..], d);
        var had := DraftWith(drafts[1..], d.id);
        assert had.Some? ==> had.value in multiset(drafts[1..]);
      }
    }
  }

  /** No draft is lost on the way from one list to the other. */
  ghost predicate Spared(before: seq<Draft>, after: seq<Draft>) {
    multiset(before) <= multiset(after)
  }

  lemma PutSparesIff(drafts: seq<Draft>, d: Draft)
    ensures Spared(drafts, PutDraft(drafts, d)) <==> DraftWith(drafts, d.id) in {None, Some(d)}
  {
    PutReplacesOne(drafts, d);
    var had := DraftWith(drafts, d.id);
    if had.Some? && had.value != d {
      assert had.value in multiset(drafts);
      assert multiset(PutDraft(drafts, d))[had.value] < multiset(drafts)[had.value];
    }
  }

  /** A rejected mail never overwrites a draft, edited in the meantime or not. */
  lemma RejectionSparesEditedDrafts(drafts: seq<Draft>, draft: Draft, unused: nat)
    requires forall x :: x in drafts ==> x.id != Some(unused)
    ensures Spared(drafts, PutDraft(drafts, Retained(drafts, draft, unused)))
  {
    PutSparesIff(drafts, Retained(drafts, draft, unused));
  }

  /** Cancelling overwrites the draft that has the cancelled mail's id by now, if it is a different one;
      otherwise every draft is spared. */
  lemma CancelSparesDraftsIff(q: Queue, ticket: nat)
    requires Enabled(Cancel(ticket), q)
    ensures var mail := Find(q.outbox, ticket).work;
            Spared(q.drafts, Apply(Cancel(ticket), q).drafts) <==> DraftWith(q.drafts, mail.id) in {None, Some(mail)}
  {
    PutSparesIff(q.drafts, Find(q.outbox, ticket).work);
  }

  /** An edit made while the mail was waiting is lost when the mail is cancelled. */
  lemma CancelCanLoseAnEdit()
    ensures var events := [QueueMail(Draft(Some(1), "sent"), None), SaveDraft(Draft(Some(1), "edited")), Cancel(0)];
            IsRun(events, EMPTY) && After(events[..2], EMPTY).drafts == [Draft(Some(1), "edited")]
            && After(events, EMPTY).drafts == [Draft(Some(1), "sent")]
  {
    var queue, edit, cancel := QueueMail(Draft(Some(1), "sent"), None), SaveDraft(Draft(Some(1), "edited")), Cancel(0);
    var q2 := Apply(edit, Apply(queue, EMPTY));
    assert q2.outbox[0] == Item(0, 0, Draft(Some(1), "sent"));
    RunOf3(queue, edit, cancel);
  }

  lemma RunOf3(a: Event, b: Event, c: Event)
    requires Enabled(a, EMPTY) && Enabled(b, Apply(a, EMPTY)) && Enabled(c, Apply(b, Apply(a, EMPTY)))
    ensures IsRun([a, b, c], EMPTY) && After([a, b, c], EMPTY) == Apply(c, Apply(b, Apply(a, EMPTY)))
    ensures [a, b, c][..2] == [a, b] && IsRun([a, b], EMPTY) && After([a, b], EMPTY) == Apply(b, Apply(a, EMPTY))
  {
    var none: seq<Event> := [];
    RunOneMore(none, EMPTY, a);
    RunOneMore([a], EMPTY, b);
    RunOneMore([a, b], EMPTY, c);
    assert none + [a] == [a] && [a] + [b] == [a, b] && [a, b] + [c] == [a, b, c];
  }

  lemma {:induction false} WithoutIsShorter(drafts: seq<Draft>, id: Option<nat>)
    ensures |WithoutDraft(drafts, id)| <= |drafts|
    ensures |WithoutDraft(drafts, id)| == |drafts| <==> forall k :: 0 <= k < |drafts| ==> drafts[k].id != id
    ensures |WithoutDraft(drafts, id)| == |drafts| ==> WithoutDraft(drafts, id) == drafts
  {
    if drafts != [] {
      WithoutIsShorter(drafts[1..], id);
    }
  }

  lemma WithoutSparesIff(drafts: seq<Draft>, id: Option<nat>)
    ensures Spared(drafts, WithoutDraft(drafts, id)) <==> forall d :: d in drafts ==> d.id != id
  {
    WithoutIsShorter(drafts, id);
    var after := WithoutDraft(drafts, id);
    if Spared(drafts, after) {
      assert |multiset(after)| == |multiset(drafts)| + |multiset(after) - multiset(drafts)|;
    }
  }

  /** Submitting a mail takes away exactly the draft it was made from, if that is unchanged; but one that
      was never saved takes away every draft without an id. */
  lemma SubmittingSparesDraftsIff(drafts: seq<Draft>, draft: Draft, seen: Option<Draft>)
    ensures Spared(drafts, Submitted(drafts, draft, seen)) <==>
              if draft.id.None? then forall d :: d in drafts ==> d.id.Some?
              else DraftWith(drafts, draft.id).None? || DraftWith(drafts, draft.id) != seen
  {
    WithoutSparesIff(drafts, draft.id);
  }

  /** A mail that was never saved, queued and then cancelled, is gone with the next such mail: it is in
      neither list, though it was neither sent nor discarded. */
  lemma CancelledMailCanVanish()
    ensures var events := [QueueMail(Draft(None, "first"), None), Cancel(0), QueueMail(Draft(None, "second"), None)];
            && IsRun(events, EMPTY)
            && var q := After(events, EMPTY);
               q.drafts == [] && q.outbox == [Item(1, 0, Draft(None, "second"))] && q.fates == map[0 := Drafted]
  {
    var first, cancel, second := QueueMail(Draft(None, "first"), None), Cancel(0), QueueMail(Draft(None, "second"), None);
    var q1 := Apply(first, EMPTY);
    assert q1.outbox[0] == Item(0, 0, Draft(None, "first")) && Has(q1.outbox, 0);
    var q2 := Apply(cancel, q1);
    assert q2.drafts == [Draft(None, "first")] && q2.drafts[1..] == [];
    RemoveFirst(q1.outbox, 1);
    RunOf3(first, cancel, second);
  }
}
