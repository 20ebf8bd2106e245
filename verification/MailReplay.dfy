/** The replay of an account's queue as the loops that the service runs, and the lists that all accounts share. */
module MailReplay {
  import opened Basics
  import opened MailQueue

  /** What the server does with a mail. */
  datatype Delivery = Unreachable | Accepted | Rejected

  /** How the server and the folders treat the item with a given ticket during one replay. */
  datatype World = World(conflicts: nat -> bool, reaches: nat -> bool, delivers: nat -> Delivery)

  predicate Passes(x: Item<Change>, w: World) {
    !w.conflicts(x.ticket) && x.attempts < ATTEMPT_LIMIT && w.reaches(x.ticket)
  }

  /** The operations at the front that go through. */
  function Leading(s: seq<Item<Change>>, w: World): (k: nat)
    ensures k <= |s| && (forall i :: 0 <= i < k ==> Passes(s[i], w)) && (k < |s| ==> !Passes(s[k], w))
  {
    if s == [] || !Passes(s[0], w) then 0 else 1 + Leading(s[1..], w)
  }

  predicate Leaves(x: Item<Draft>, w: World) {
    x.attempts < ATTEMPT_LIMIT && w.delivers(x.ticket) != Unreachable
  }

  function LeadingMail(s: seq<Item<Draft>>, w: World): (k: nat)
    ensures k <= |s| && (forall i :: 0 <= i < k ==> Leaves(s[i], w)) && (k < |s| ==> !Leaves(s[k], w))
  {
    if s == [] || !Leaves(s[0], w) then 0 else 1 + LeadingMail(s[1..], w)
  }

  function DoneOf(s: seq<Item<Change>>): seq<Reach> {
    seq(|s|, i requires 0 <= i < |s| => Done(s[i].ticket))
  }

  /** A failing front item is tried once. */
  function Tried<T>(s: seq<Item<T>>, tried: bool): seq<Item<T>> {
    if tried && s != [] then Fail(s, s[0].ticket) else s
  }

  predicate MayTry(x: Item<Change>, w: World) {
    !w.conflicts(x.ticket) && x.attempts < ATTEMPT_LIMIT
  }

  /** The replay that began at start has sent i operations, and has just failed if it is checking. */
  ghost predicate Replayed(start: Queue, q: Queue, i: nat, w: World) {
    var s, k := start.pending, Leading(start.pending, w);
    && q.present && q.outbox == start.outbox && q.drafts == start.drafts && i <= k
    && q.server == start.server + DoneOf(s[..i])
    && (q.flight == Replaying(q.pending, true) || q.flight.Checking?)
    && (q.flight.Replaying? ==> q.pending == s[i..])
    && (q.flight.Checking? ==> i == k < |s| && MayTry(s[k], w) && q.pending == Tried(s[k..], true))
  }

  lemma NextDone(s: seq<Item<Change>>, i: nat)
    requires i < |s|
    ensures DoneOf(s[..i + 1]) == DoneOf(s[..i]) + [Done(s[i].ticket)] && s[i..][1..] == s[i + 1..] && s[i..][0] == s[i]
  {
  }

  ghost predicate Attempted(q: Queue, q': Queue, went: bool, w: World)
    requires q.pending != []
  {
    && q'.present && q'.outbox == q.outbox && q'.drafts == q.drafts
    && went == w.reaches(q.pending[0].ticket)
    && (went ==> q'.flight == Replaying(q'.pending, true) && q'.pending == q.pending[1..]
                 && q'.server == q.server + [Done(q.pending[0].ticket)])
    && (!went ==> q'.flight.Checking? && q'.pending == Tried(q.pending, true) && q'.server == q.server)
  }

  lemma ReplayedNext(start: Queue, q: Queue, q': Queue, i: nat, went: bool, w: World)
    requires Replayed(start, q, i, w) && q.flight.Replaying? && q.pending != [] && MayTry(q.pending[0], w)
    requires Attempted(q, q', went, w)
    ensures Replayed(start, q', if went then i + 1 else i, w)
  {
    NextDone(start.pending, i);
  }

  /** The end of the loop: all that goes through has been sent, and a tried failure is counted. */
  lemma ReplayIsOver(start: Queue, q: Queue, i: nat, w: World)
    requires Replayed(start, q, i, w)
    requires q.flight.Checking? || q.pending == [] || !MayTry(q.pending[0], w)
    ensures var s, k := start.pending, Leading(start.pending, w);
            i == k && q.pending == Tried(s[k..], k < |s| && MayTry(s[k], w))
  {
    if q.flight.Replaying? && q.pending != [] {
      assert q.pending[0] == start.pending[i];
    }
  }

  function SentOf(s: seq<Item<Draft>>, w: World): seq<Reach> {
    if s == [] then []
    else SentOf(s[..|s| - 1], w) + (if w.delivers(s[|s| - 1].ticket) == Accepted then [Sent(s[|s| - 1].ticket)] else [])
  }

  /** The mailing that began at start has let i mails go, and has just failed if it has ended by itself. */
  ghost predicate Mailed(start: Queue, q: Queue, i: nat, w: World) {
    var s, k := start.outbox, LeadingMail(start.outbox, w);
    && q.present && q.pending == [] && i <= k
    && q.server == start.server + SentOf(s[..i], w)
    && (q.flight == Mailing(q.outbox, true, start.next) || q.flight.Grounded?)
    && (q.flight.Mailing? ==> q.outbox == s[i..])
    && (q.flight.Grounded? ==> i == k < |s| && s[k].attempts < ATTEMPT_LIMIT && q.outbox == Tried(s[k..], true))
  }

  lemma NextMail(s: seq<Item<Draft>>, i: nat, w: World)
    requires i < |s|
    ensures SentOf(s[..i + 1], w) == SentOf(s[..i], w) + (if w.delivers(s[i].ticket) == Accepted then [Sent(s[i].ticket)] else [])
    ensures s[i..][1..] == s[i + 1..] && s[i..][0] == s[i]
  {
    assert s[..i + 1][..i] == s[..i];
  }

  ghost predicate Dispatched(q: Queue, q': Queue, went: bool, w: World)
    requires q.outbox != [] && q.flight.Mailing?
  {
    && q'.present && q'.pending == []
    && went == (w.delivers(q.outbox[0].ticket) != Unreachable)
    && q'.server == q.server + (if w.delivers(q.outbox[0].ticket) == Accepted then [Sent(q.outbox[0].ticket)] else [])
    && (went ==> q'.flight == Mailing(q'.outbox, true, q.flight.since) && q'.outbox == q.outbox[1..])
    && (!went ==> q'.flight.Grounded? && q'.outbox == Tried(q.outbox, true))
  }

  lemma MailedNext(start: Queue, q: Queue, q': Queue, i: nat, went: bool, w: World)
    requires Mailed(start, q, i, w) && q.flight.Mailing? && q.outbox != [] && q.outbox[0].attempts < ATTEMPT_LIMIT
    requires Dispatched(q, q', went, w)
    ensures Mailed(start, q', if went then i + 1 else i, w)
  {
    NextMail(start.outbox, i, w);
  }

  lemma MailingIsOver(start: Queue, q: Queue, i: nat, w: World)
    requires Mailed(start, q, i, w)
    requires q.flight.Grounded? || q.outbox == [] || q.outbox[0].attempts >= ATTEMPT_LIMIT
    ensures var s, k := start.outbox, LeadingMail(start.outbox, w);
            i == k && q.outbox == Tried(s[k..], k < |s| && s[k].attempts < ATTEMPT_LIMIT)
  {
    if q.flight.Mailing? && q.outbox != [] {
      assert q.outbox[0] == start.outbox[i];
    }
  }

  /** A draft id that no draft has. */
  function UnusedId(drafts: seq<Draft>): (id: nat)
    ensures forall d :: d in drafts && d.id.Some? ==> d.id.value < id
  {
    if drafts == [] then 0
    else
      var rest := UnusedId(drafts[1..]);
      assert drafts == [drafts[0]] + drafts[1..];
      if drafts[0].id.Some? && drafts[0].id.value >= rest then drafts[0].id.value + 1 else rest
  }

  class AccountQueue {
    var queue: Queue

    ghost predicate Valid()
      reads this
    {
      Reachable(queue) && queue.present && queue.flight.Grounded?
    }

    method Do(e: Event)
      requires Reachable(queue) && Enabled(e, queue)
      modifies this
      ensures queue == Apply(e, old(queue)) && Reachable(queue)
    {
      StepStaysReachable(e, queue);
      queue := Apply(e, queue);
    }

    /** Performs the front operation and takes it off the queue, or counts a failure. */
    method Attempt(w: World) returns (went: bool)
      requires Reachable(queue) && queue.present && queue.flight.Replaying? && queue.flight.automatic
      requires queue.flight.left == queue.pending != [] && MayTry(queue.pending[0], w)
      modifies this
      ensures Reachable(queue) && Attempted(old(queue), queue, went, w)
    {
      var first := queue.pending[0];
      went := w.reaches(first.ticket);
      assert Remove(queue.pending, first.ticket) == queue.pending[1..] by {
        ReachableInv(queue);
        RemoveFirst(queue.pending, queue.next);
      }
      Do(Perform(went));
      if went {
        Do(Record);
      }
    }

    method TakeOff()
      requires Valid()
      modifies this
      ensures Reachable(queue) && queue == old(queue).(flight := Replaying(queue.pending, true))
    {
      Do(BeginReplay);
    }

    method Land()
      requires Reachable(queue) && queue.flight.Replaying? && queue.flight.automatic
      modifies this
      ensures Reachable(queue) && queue == old(queue).(flight := Checking)
    {
      Do(LeaveReplay);
    }

    /** Sends the queued operations from the front until one conflicts, has failed too often, or fails now. */
    method ReplayOperations(w: World)
      requires Valid()
      modifies this
      ensures Reachable(queue) && queue.present && queue.flight.Checking?
      ensures queue.outbox == old(queue).outbox && queue.drafts == old(queue).drafts
      ensures var s, k := old(queue).pending, Leading(old(queue).pending, w);
              && queue.server == old(queue).server + DoneOf(s[..k])
              && queue.pending == Tried(s[k..], k < |s| && MayTry(s[k], w))
    {
      ghost var start, i: nat := queue, 0;
      TakeOff();
      assert queue.server + DoneOf(start.pending[..0]) == queue.server;
      while queue.pending != [] && queue.flight.Replaying? && MayTry(queue.pending[0], w)
        invariant Reachable(queue) && Replayed(start, queue, i, w)
        decreases queue.flight.Replaying?, |queue.pending|
      {
        ghost var q := queue;
        var went := Attempt(w);
        ReplayedNext(start, q, queue, i, went, w);
        i := if went then i + 1 else i;
      }
      ReplayIsOver(start, queue, i, w);
      if queue.flight.Replaying? {
        Land();
      }
    }

    /** Sends the front mail and takes it out of the outbox, or counts a failure and ends the flight. */
    method DeliverFirst(w: World) returns (went: bool)
      requires Reachable(queue) && queue.present && queue.pending == [] && queue.flight.Mailing? && queue.flight.automatic
      requires queue.flight.mails == queue.outbox != [] && queue.outbox[0].attempts < ATTEMPT_LIMIT
      modifies this
      ensures Reachable(queue) && Dispatched(old(queue), queue, went, w)
    {
      var answer := w.delivers(queue.outbox[0].ticket);
      went := answer != Unreachable;
      assert Remove(queue.outbox, queue.outbox[0].ticket) == queue.outbox[1..] by {
        ReachableInv(queue);
        RemoveFirst(queue.outbox, queue.next);
      }
      Do(Send(answer == Accepted, answer == Rejected));
      if went {
        assert queue.outbox[0].ticket == queue.flight.mail.ticket;
        Do(Settle(UnusedId(queue.drafts)));
      }
    }

    method LookAtOutbox()
      requires Reachable(queue) && queue.flight.Checking?
      modifies this
      ensures Reachable(queue) && queue == old(queue).(flight := if queue.pending != [] then Grounded else Mailing(queue.outbox, true, queue.next))
    {
      Do(Check);
    }

    method EndMailing()
      requires Reachable(queue) && queue.flight.Mailing?
      modifies this
      ensures Reachable(queue) && queue == old(queue).(flight := Grounded)
    {
      Do(LeaveMail);
    }

    /** Delivers the outbox from the front until one mail has failed too often or fails now; no operation may wait. */
    method ReplayOutbox(w: World)
      requires Reachable(queue) && queue.present && queue.flight.Checking?
      modifies this
      ensures Valid() && queue.pending == old(queue).pending
      ensures queue.pending != [] ==> queue.outbox == old(queue).outbox && queue.server == old(queue).server
      ensures queue.pending == [] ==>
                var s, k := old(queue).outbox, LeadingMail(old(queue).outbox, w);
                && queue.server == old(queue).server + SentOf(s[..k], w)
                && queue.outbox == Tried(s[k..], k < |s| && s[k].attempts < ATTEMPT_LIMIT)
    {
      LookAtOutbox();
      if queue.flight.Grounded? {
        return;
      }
      ghost var start, i: nat := queue, 0;
      assert queue.server + SentOf(start.outbox[..0], w) == queue.server;
      while queue.outbox != [] && queue.flight.Mailing? && queue.outbox[0].attempts < ATTEMPT_LIMIT
        invariant Reachable(queue) && Mailed(start, queue, i, w)
        decreases queue.flight.Mailing?, |queue.outbox|
      {
        ghost var q := queue;
        var went := DeliverFirst(w);
        MailedNext(start, q, queue, i, went, w);
        i := if went then i + 1 else i;
      }
      MailingIsOver(start, queue, i, w);
      if queue.flight.Mailing? {
        EndMailing();
      }
    }

    /** The whole replay: operations first, and mail only when no operation is left. */
    method ReplayPending(w: World)
      requires Valid()
      modifies this
      ensures Valid()
      ensures var s, k := old(queue).pending, Leading(old(queue).pending, w);
              && queue.pending == Tried(s[k..], k < |s| && MayTry(s[k], w))
              && (k < |s| ==> queue.outbox == old(queue).outbox && queue.server == old(queue).server + DoneOf(s[..k]))
      ensures Leading(old(queue).pending, w) == |old(queue).pending| ==>
                var mails, n := old(queue).outbox, LeadingMail(old(queue).outbox, w);
                && queue.server == old(queue).server + DoneOf(old(queue).pending) + SentOf(mails[..n], w)
                && queue.outbox == Tried(mails[n..], n < |mails| && mails[n].attempts < ATTEMPT_LIMIT)
    {
      ReplayOperations(w);
      assert old(queue).pending[..|old(queue).pending|] == old(queue).pending;
      ReplayOutbox(w);
    }
  }

  // The lists that all accounts share

  datatype Owned<T> = Owned(account: nat, item: Item<T>)

  /** The part of the shared list that belongs to an account. */
  function Of<T>(list: seq<Owned<T>>, account: nat): seq<Item<T>> {
    if list == [] then []
    else (if list[0].account == account then [list[0].item] else []) + Of(list[1..], account)
  }

  function RemoveId<T>(list: seq<Owned<T>>, ticket: nat): seq<Owned<T>> {
    if list == [] then []
    else (if list[0].item.ticket == ticket then [] else [list[0]]) + RemoveId(list[1..], ticket)
  }

  function RemoveOwner<T>(list: seq<Owned<T>>, account: nat): seq<Owned<T>> {
    if list == [] then []
    else (if list[0].account == account then [] else [list[0]]) + RemoveOwner(list[1..], account)
  }

  lemma {:induction false} PushAffectsOneAccount<T>(list: seq<Owned<T>>, x: Owned<T>, account: nat)
    ensures Of(list + [x], account) == if x.account == account then Of(list, account) + [x.item] else Of(list, account)
  {
    if list == [] {
      assert (list + [x])[1..] == [];
    } else {
      PushAffectsOneAccount(list[1..], x, account);
      assert (list + [x])[1..] == list[1..] + [x];
    }
  }

  /** Removing by ticket from the shared list is removing by ticket from each account's queue. */
  lemma {:induction false} RemovalIsByAccount<T(!new)>(list: seq<Owned<T>>, ticket: nat, account: nat)
    ensures Of(RemoveId(list, ticket), account) == Remove(Of(list, account), ticket)
  {
    if list != [] {
      RemovalIsByAccount(list[1..], ticket, account);
      var first := if list[0].item.ticket == ticket then [] else [list[0]];
      assert (first + RemoveId(list[1..], ticket))[|first|..] == RemoveId(list[1..], ticket);
      var mine := if list[0].account == account then [list[0].item] else [];
      assert (mine + Of(list[1..], account))[|mine|..] == Of(list[1..], account);
    }
  }

  /** Removing an account empties its queue and leaves every other account's queue alone. */
  lemma {:induction false} OwnerRemovalIsByAccount<T>(list: seq<Owned<T>>, removed: nat, account: nat)
    ensures Of(RemoveOwner(list, removed), account) == if account == removed then [] else Of(list, account)
  {
    if list != [] {
      OwnerRemovalIsByAccount(list[1..], removed, account);
      var first := if list[0].account == removed then [] else [list[0]];
      assert (first + RemoveOwner(list[1..], removed))[|first|..] == RemoveOwner(list[1..], removed);
    }
  }
}
