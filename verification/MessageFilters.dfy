/** Filter actions: collapsing a list to its last decisions, and what the list does to a message. */
module MessageFilters {
  import opened Basics
  import opened Sorting

  const FILTER_LIMIT := 200
  const ACTION_LIMIT := 20

  datatype Kind =
    | MarkRead | MarkUnread | Star | Unstar | AddTag | RemoveTag
    | Move | Archive | Trash | MarkJunk | MarkNotJunk | Stop

  /** A tag id or a folder path; only equality of names matters. */
  type Name = nat

  datatype Action = Action(kind: Kind, value: Name)

  predicate Destination(a: Action) {
    a.kind == Move || a.kind == Archive || a.kind == Trash
  }

  /** What an action decides about. */
  datatype Topic = Reading | Starring | Tagging | Placing | Junking | Stopping

  function TopicOf(k: Kind): Topic {
    match k
    case MarkRead => Reading
    case MarkUnread => Reading
    case Star => Starring
    case Unstar => Starring
    case AddTag => Tagging
    case RemoveTag => Tagging
    case Move => Placing
    case Archive => Placing
    case Trash => Placing
    case MarkJunk => Junking
    case MarkNotJunk => Junking
    case Stop => Stopping
  }

  /** A later action makes an earlier one of its topic pointless: any destination does, so does an opposite,
      and so does the same action; tag actions clash only over one tag. */
  predicate Clash(a: Action, earlier: Action) {
    && TopicOf(a.kind) == TopicOf(earlier.kind)
    && (TopicOf(a.kind) == Placing || (a.kind != earlier.kind && TopicOf(a.kind) != Tagging) || a.value == earlier.value)
  }

  predicate Contradicts(k: Kind, l: Kind) {
    match k
    case MarkRead => l == MarkUnread
    case MarkUnread => l == MarkRead
    case Star => l == Unstar
    case Unstar => l == Star
    case MarkJunk => l == MarkNotJunk
    case MarkNotJunk => l == MarkJunk
    case _ => false
  }

  /** Clashing, case by case: the same action, a contradiction, two destinations, or opposite actions on one tag. */
  lemma ClashSpelledOut(a: Action, earlier: Action)
    ensures Clash(a, earlier) <==>
              || a == earlier
              || Contradicts(a.kind, earlier.kind)
              || (Destination(a) && Destination(earlier))
              || (a.kind == AddTag && earlier.kind == RemoveTag && a.value == earlier.value)
              || (a.kind == RemoveTag && earlier.kind == AddTag && a.value == earlier.value)
  {
  }

  function Last(s: seq<Action>): Action
    requires s != []
  {
    s[|s| - 1]
  }

  function Front(s: seq<Action>): seq<Action>
    requires s != []
  {
    s[..|s| - 1]
  }

  /** The actions that do not clash with a. */
  function Without(actions: seq<Action>, a: Action): (r: seq<Action>)
    ensures |r| <= |actions|
  {
    if actions == [] then []
    else if Clash(a, Last(actions)) then Without(Front(actions), a)
    else Without(Front(actions), a) + [Last(actions)]
  }

  function Collapse(actions: seq<Action>): seq<Action> {
    if actions == [] then []
    else if Last(actions).kind == Stop then Collapse(Front(actions))
    else Without(Collapse(Front(actions)), Last(actions)) + [Last(actions)]
  }

  lemma Snoc(s: seq<Action>, x: Action)
    ensures Front(s + [x]) == s && Last(s + [x]) == x
  {
  }

  lemma FrontAndLast(s: seq<Action>)
    requires s != []
    ensures Front(s) + [Last(s)] == s
  {
  }

  /** Takes out of the list, from its end to its start, what clashes with the new action. */
  method RemoveClashes(collapsed: seq<Action>, action: Action) returns (r: seq<Action>)
    ensures r == Without(collapsed, action)
  {
    r := collapsed;
    var index := |r|;
    assert collapsed[..index] == collapsed;
    while index > 0
      invariant 0 <= index <= |collapsed| && index <= |r|
      invariant r[..index] == collapsed[..index]
      invariant Without(collapsed, action) == Without(collapsed[..index], action) + r[index..]
    {
      index := index - 1;
      assert Front(collapsed[..index + 1]) == collapsed[..index];
      assert r[index] == collapsed[index];
      if Clash(action, r[index]) {
        r := r[..index] + r[index + 1..];
      }
    }
  }

  method CollapseActions(actions: seq<Action>) returns (collapsed: seq<Action>)
    ensures collapsed == Collapse(actions)
  {
    collapsed := [];
    var i := 0;
    while i < |actions|
      invariant 0 <= i <= |actions| && collapsed == Collapse(actions[..i])
    {
      assert Front(actions[..i + 1]) == actions[..i];
      if actions[i].kind != Stop {
        collapsed := RemoveClashes(collapsed, actions[i]);
        collapsed := collapsed + [actions[i]];
      }
      i := i + 1;
    }
    assert actions[..|actions|] == actions;
  }

  // What is kept

  /** Nothing later clashes with action i. */
  predicate Survives(actions: seq<Action>, i: nat)
    requires i < |actions|
  {
    actions[i].kind != Stop
    && forall j :: i < j < |actions| && actions[j].kind != Stop ==> !Clash(actions[j], actions[i])
  }

  function Survivors(actions: seq<Action>, n: nat): seq<Action>
    requires n <= |actions|
  {
    if n == 0 then []
    else if Survives(actions, n - 1) then Survivors(actions, n - 1) + [actions[n - 1]]
    else Survivors(actions, n - 1)
  }

  lemma SurvivesOneMore(actions: seq<Action>, i: nat)
    requires actions != [] && i < |actions| - 1
    ensures Survives(actions, i) <==>
              Survives(Front(actions), i) && (Last(actions).kind == Stop || !Clash(Last(actions), actions[i]))
  {
    assert forall j :: 0 <= j < |actions| - 1 ==> actions[j] == Front(actions)[j];
  }

  lemma {:induction false} OneMoreAction(actions: seq<Action>, n: nat)
    requires actions != [] && n < |actions|
    ensures Last(actions).kind == Stop ==> Survivors(actions, n) == Survivors(Front(actions), n)
    ensures Last(actions).kind != Stop ==> Survivors(actions, n) == Without(Survivors(Front(actions), n), Last(actions))
  {
    if n > 0 {
      var front, a, e := Front(actions), Last(actions), actions[n - 1];
      OneMoreAction(actions, n - 1);
      SurvivesOneMore(actions, n - 1);
      assert front[n - 1] == e;
      if Survives(front, n - 1) {
        WithoutPushed(Survivors(front, n - 1), e, a);
      }
    }
  }

  lemma WithoutPushed(s: seq<Action>, e: Action, a: Action)
    ensures Without(s + [e], a) == if Clash(a, e) then Without(s, a) else Without(s, a) + [e]
  {
    Snoc(s, e);
  }

  /** Collapsing keeps, in order, exactly the actions other than stop that no later action clashes with. */
  lemma {:induction false} CollapseKeepsSurvivors(actions: seq<Action>)
    ensures Collapse(actions) == Survivors(actions, |actions|)
  {
    if actions != [] {
      CollapseKeepsSurvivors(Front(actions));
      OneMoreAction(actions, |actions| - 1);
    }
  }

  ghost predicate ClashFree(actions: seq<Action>) {
    && (forall i :: 0 <= i < |actions| ==> actions[i].kind != Stop)
    && (forall i, j :: 0 <= i < j < |actions| ==> !Clash(actions[j], actions[i]))
  }

  lemma {:induction false} WithoutKeepsClashFree(actions: seq<Action>, a: Action)
    requires ClashFree(actions)
    ensures ClashFree(Without(actions, a))
    ensures forall i :: 0 <= i < |Without(actions, a)| ==> !Clash(a, Without(actions, a)[i]) && Without(actions, a)[i] in actions
  {
    if actions != [] {
      WithoutKeepsClashFree(Front(actions), a);
      var rest, e := Without(Front(actions), a), Last(actions);
      forall i | 0 <= i < |rest| ensures !Clash(e, rest[i]) {
        var k :| 0 <= k < |Front(actions)| && Front(actions)[k] == rest[i];
        assert actions[k] == rest[i];
      }
    }
  }

  lemma {:induction false} CollapseIsClashFree(actions: seq<Action>)
    ensures ClashFree(Collapse(actions))
  {
    if actions != [] {
      CollapseIsClashFree(Front(actions));
      WithoutKeepsClashFree(Collapse(Front(actions)), Last(actions));
    }
  }

  lemma ClashFreeFront(actions: seq<Action>)
    requires actions != [] && ClashFree(actions)
    ensures ClashFree(Front(actions)) && Last(actions).kind != Stop
    ensures forall i :: 0 <= i < |Front(actions)| ==> !Clash(Last(actions), Front(actions)[i])
  {
    assert forall i :: 0 <= i < |Front(actions)| ==> Front(actions)[i] == actions[i];
  }

  lemma {:induction false} ClashFreeStays(actions: seq<Action>)
    requires ClashFree(actions)
    ensures Collapse(actions) == actions
  {
    if actions != [] {
      ClashFreeFront(actions);
      ClashFreeStays(Front(actions));
      NothingToRemove(Front(actions), Last(actions));
      FrontAndLast(actions);
    }
  }

  lemma {:induction false} NothingToRemove(actions: seq<Action>, a: Action)
    requires forall i :: 0 <= i < |actions| ==> !Clash(a, actions[i])
    ensures Without(actions, a) == actions
  {
    if actions != [] {
      NothingToRemove(Front(actions), a);
      assert Front(actions) + [Last(actions)] == actions;
    }
  }

  /** Collapsing a second time changes nothing. */
  lemma CollapseIsIdempotent(actions: seq<Action>)
    ensures Collapse(Collapse(actions)) == Collapse(actions)
  {
    CollapseIsClashFree(actions);
    ClashFreeStays(Collapse(actions));
  }

  // What the actions do to a message

  datatype Label = Junk | Good

  datatype Effects = Effects(unread: Option<bool>, starred: Option<bool>, tags: set<Name>, junk: Option<Label>)

  /** Folders by role, where the account has one. */
  datatype Roles = Roles(archive: Option<Name>, trash: Option<Name>, junk: Option<Name>)

  datatype Outcome = Outcome(effects: Effects, tagsChanged: bool, destination: Option<Name>)

  function Effect(a: Action, e: Effects): Effects {
    match a.kind
    case MarkRead => e.(unread := Some(false))
    case MarkUnread => e.(unread := Some(true))
    case Star => e.(starred := Some(true))
    case Unstar => e.(starred := Some(false))
    case AddTag => e.(tags := e.tags + {a.value})
    case RemoveTag => e.(tags := e.tags - {a.value})
    case MarkJunk => e.(junk := Some(Junk))
    case MarkNotJunk => e.(junk := Some(Good))
    case _ => e
  }

  function Routed(a: Action, destination: Option<Name>, roles: Roles): Option<Name> {
    match a.kind
    case Move => Some(a.value)
    case Archive => roles.archive
    case Trash => roles.trash
    case MarkJunk => if destination.Some? then destination else roles.junk
    case _ => destination
  }

  function TagChange(a: Action, tags: set<Name>): bool {
    (a.kind == AddTag && a.value !in tags) || (a.kind == RemoveTag && a.value in tags)
  }

  function Outcomes(actions: seq<Action>, tags: set<Name>, roles: Roles): Outcome {
    if actions == [] then Outcome(Effects(None, None, tags, None), false, None)
    else
      var before, a := Outcomes(Front(actions), tags, roles), Last(actions);
      Outcome(Effect(a, before.effects), before.tagsChanged || TagChange(a, before.effects.tags), Routed(a, before.destination, roles))
  }

  /** The interpreter of an evaluation for one message. */
  method Interpret(actions: seq<Action>, tags: set<Name>, roles: Roles) returns (r: Outcome)
    ensures r == Outcomes(actions, tags, roles)
  {
    r := Outcome(Effects(None, None, tags, None), false, None);
    var i := 0;
    while i < |actions|
      invariant 0 <= i <= |actions| && r == Outcomes(actions[..i], tags, roles)
    {
      assert Front(actions[..i + 1]) == actions[..i];
      var e, a := r.effects, actions[i];
      match a.kind {
        case MarkRead => r := r.(effects := e.(unread := Some(false)));
        case MarkUnread => r := r.(effects := e.(unread := Some(true)));
        case Star => r := r.(effects := e.(starred := Some(true)));
        case Unstar => r := r.(effects := e.(starred := Some(false)));
        case AddTag => r := r.(effects := e.(tags := e.tags + {a.value}), tagsChanged := a.value !in e.tags || r.tagsChanged);
        case RemoveTag => r := r.(effects := e.(tags := e.tags - {a.value}), tagsChanged := a.value in e.tags || r.tagsChanged);
        case Move => r := r.(destination := Some(a.value));
        case Archive => r := r.(destination := roles.archive);
        case Trash => r := r.(destination := roles.trash);
        case MarkJunk =>
          r := r.(effects := e.(junk := Some(Junk)), destination := if r.destination.Some? then r.destination else roles.junk);
        case MarkNotJunk => r := r.(effects := e.(junk := Some(Good)));
        case Stop =>
      }
      i := i + 1;
    }
    assert actions[..|actions|] == actions;
  }

  function AllEffects(actions: seq<Action>, start: Effects): Effects {
    if actions == [] then start else Effect(Last(actions), AllEffects(Front(actions), start))
  }

  lemma {:induction false} OutcomesHaveAllEffects(actions: seq<Action>, tags: set<Name>, roles: Roles)
    ensures Outcomes(actions, tags, roles).effects == AllEffects(actions, Effects(None, None, tags, None))
  {
    if actions != [] { OutcomesHaveAllEffects(Front(actions), tags, roles); }
  }

  lemma ClashingEffectIsLost(a: Action, earlier: Action, e: Effects)
    requires Clash(a, earlier)
    ensures Effect(a, Effect(earlier, e)) == Effect(a, e)
  {
  }

  lemma OtherEffectsCommute(a: Action, b: Action, e: Effects)
    requires !Clash(a, b)
    ensures Effect(a, Effect(b, e)) == Effect(b, Effect(a, e))
  {
  }

  lemma {:induction false} RemovingClashesKeepsEffects(actions: seq<Action>, a: Action, start: Effects)
    ensures Effect(a, AllEffects(Without(actions, a), start)) == Effect(a, AllEffects(actions, start))
  {
    if actions != [] {
      var front, e := Front(actions), Last(actions);
      var kept := AllEffects(Without(front, a), start);
      var all := AllEffects(front, start);
      RemovingClashesKeepsEffects(front, a, start);
      if Clash(a, e) {
        ClashingEffectIsLost(a, e, all);
        assert Without(actions, a) == Without(front, a);
      } else {
        OtherEffectsCommute(a, e, kept);
        OtherEffectsCommute(a, e, all);
        assert Front(Without(actions, a)) == Without(front, a);
      }
    }
  }

  /** The collapsed list sets the same flags, tags and junk label as the full list. */
  lemma {:induction false} CollapseKeepsEffects(actions: seq<Action>, start: Effects)
    ensures AllEffects(Collapse(actions), start) == AllEffects(actions, start)
  {
    if actions != [] {
      var front, a := Front(actions), Last(actions);
      CollapseKeepsEffects(front, start);
      if a.kind != Stop {
        RemovingClashesKeepsEffects(Collapse(front), a, start);
        assert Front(Collapse(actions)) == Without(Collapse(front), a);
      }
    }
  }

  // Destinations

  /** Where the last move, archive or trash leads. */
  function LastDestination(actions: seq<Action>, roles: Roles): Option<Name> {
    if actions == [] then None
    else if Destination(Last(actions)) then Routed(Last(actions), None, roles)
    else LastDestination(Front(actions), roles)
  }

  /** A mark-junk comes after the last move, archive or trash. */
  predicate JunkedAfter(actions: seq<Action>) {
    actions != [] && !Destination(Last(actions)) && (Last(actions).kind == MarkJunk || JunkedAfter(Front(actions)))
  }

  function Verdict(actions: seq<Action>): Option<Label> {
    if actions == [] then None
    else if Last(actions).kind == MarkJunk then Some(Junk)
    else if Last(actions).kind == MarkNotJunk then Some(Good)
    else Verdict(Front(actions))
  }

  lemma {:induction false} DestinationOf(actions: seq<Action>, tags: set<Name>, roles: Roles)
    ensures Outcomes(actions, tags, roles).destination
            == if LastDestination(actions, roles).Some? then LastDestination(actions, roles)
               else if JunkedAfter(actions) then roles.junk else None
  {
    if actions != [] { DestinationOf(Front(actions), tags, roles); }
  }

  lemma RouteOfOneMore(s: seq<Action>, x: Action, roles: Roles)
    ensures LastDestination(s + [x], roles) == if Destination(x) then Routed(x, None, roles) else LastDestination(s, roles)
    ensures JunkedAfter(s + [x]) <==> !Destination(x) && (x.kind == MarkJunk || JunkedAfter(s))
    ensures Verdict(s + [x]) == if x.kind == MarkJunk then Some(Junk) else if x.kind == MarkNotJunk then Some(Good) else Verdict(s)
  {
    Snoc(s, x);
  }

  /** The list without clashes, one action further. */
  function Pushed(kept: seq<Action>, e: Action, a: Action): seq<Action> {
    if Clash(a, e) then kept else kept + [e]
  }

  lemma WithoutIsPushed(actions: seq<Action>, a: Action)
    requires actions != []
    ensures Without(actions, a) == Pushed(Without(Front(actions), a), Last(actions), a)
    ensures Front(actions) + [Last(actions)] == actions
  {
  }

  lemma PushKeepsDestination(kept: seq<Action>, front: seq<Action>, e: Action, a: Action, roles: Roles)
    requires !Destination(a) && LastDestination(kept, roles) == LastDestination(front, roles)
    ensures LastDestination(Pushed(kept, e, a), roles) == LastDestination(front + [e], roles)
  {
    RouteOfOneMore(front, e, roles);
    RouteOfOneMore(kept, e, roles);
  }

  lemma PushKeepsJunk(kept: seq<Action>, front: seq<Action>, e: Action, a: Action, roles: Roles)
    requires !Destination(a) && a.kind != MarkJunk && a.kind != MarkNotJunk && JunkedAfter(kept) == JunkedAfter(front)
    ensures JunkedAfter(Pushed(kept, e, a)) == JunkedAfter(front + [e])
  {
    RouteOfOneMore(front, e, roles);
    RouteOfOneMore(kept, e, roles);
  }

  lemma PushKeepsVerdict(kept: seq<Action>, front: seq<Action>, e: Action, a: Action, roles: Roles)
    requires a.kind != MarkJunk && a.kind != MarkNotJunk && Verdict(kept) == Verdict(front)
    ensures Verdict(Pushed(kept, e, a)) == Verdict(front + [e])
  {
    RouteOfOneMore(front, e, roles);
    RouteOfOneMore(kept, e, roles);
  }

  lemma PushKeepsWithdrawn(kept: seq<Action>, e: Action, a: Action, roles: Roles)
    requires a.kind == MarkNotJunk && !JunkedAfter(kept)
    ensures !JunkedAfter(Pushed(kept, e, a))
  {
    RouteOfOneMore(kept, e, roles);
  }

  lemma {:induction false} RemovalKeepsLastDestination(actions: seq<Action>, a: Action, roles: Roles)
    requires !Destination(a)
    ensures LastDestination(Without(actions, a), roles) == LastDestination(actions, roles)
  {
    if actions != [] {
      RemovalKeepsLastDestination(Front(actions), a, roles);
      PushKeepsDestination(Without(Front(actions), a), Front(actions), Last(actions), a, roles);
      WithoutIsPushed(actions, a);
    }
  }

  lemma {:induction false} WithdrawalRemovesJunk(actions: seq<Action>, a: Action, roles: Roles)
    requires a.kind == MarkNotJunk
    ensures !JunkedAfter(Without(actions, a))
  {
    if actions != [] {
      WithdrawalRemovesJunk(Front(actions), a, roles);
      PushKeepsWithdrawn(Without(Front(actions), a), Last(actions), a, roles);
      WithoutIsPushed(actions, a);
    }
  }

  lemma {:induction false} RemovalKeepsJunk(actions: seq<Action>, a: Action, roles: Roles)
    requires !Destination(a) && a.kind != MarkJunk && a.kind != MarkNotJunk
    ensures JunkedAfter(Without(actions, a)) == JunkedAfter(actions)
  {
    if actions != [] {
      RemovalKeepsJunk(Front(actions), a, roles);
      PushKeepsJunk(Without(Front(actions), a), Front(actions), Last(actions), a, roles);
      WithoutIsPushed(actions, a);
    }
  }

  lemma {:induction false} RemovalKeepsVerdict(actions: seq<Action>, a: Action, roles: Roles)
    requires a.kind != MarkJunk && a.kind != MarkNotJunk
    ensures Verdict(Without(actions, a)) == Verdict(actions)
  {
    if actions != [] {
      RemovalKeepsVerdict(Front(actions), a, roles);
      PushKeepsVerdict(Without(Front(actions), a), Front(actions), Last(actions), a, roles);
      WithoutIsPushed(actions, a);
    }
  }

  lemma {:induction false} RouteOfCollapsed(actions: seq<Action>, roles: Roles)
    ensures LastDestination(Collapse(actions), roles) == LastDestination(actions, roles)
    ensures Verdict(Collapse(actions)) == Verdict(actions)
    ensures JunkedAfter(Collapse(actions)) <==> JunkedAfter(actions) && Verdict(actions) == Some(Junk)
  {
    if actions != [] {
      var front, a := Front(actions), Last(actions);
      RouteOfCollapsed(front, roles);
      FrontAndLast(actions);
      RouteOfOneMore(front, a, roles);
      if a.kind != Stop {
        RouteOfPushed(Collapse(front), a, roles);
      }
    }
  }

  lemma RouteOfPushed(collapsed: seq<Action>, a: Action, roles: Roles)
    requires a.kind != Stop
    ensures var pushed := Without(collapsed, a) + [a];
            && LastDestination(pushed, roles) == (if Destination(a) then Routed(a, None, roles) else LastDestination(collapsed, roles))
            && Verdict(pushed) == (if a.kind == MarkJunk then Some(Junk) else if a.kind == MarkNotJunk then Some(Good) else Verdict(collapsed))
            && (JunkedAfter(pushed) <==> !Destination(a) && a.kind != MarkNotJunk && (a.kind == MarkJunk || JunkedAfter(collapsed)))
  {
    RouteOfOneMore(Without(collapsed, a), a, roles);
    if !Destination(a) { RemovalKeepsLastDestination(collapsed, a, roles); }
    if a.kind == MarkNotJunk {
      WithdrawalRemovesJunk(collapsed, a, roles);
    } else if a.kind != MarkJunk {
      RemovalKeepsVerdict(collapsed, a, roles);
      if !Destination(a) { RemovalKeepsJunk(collapsed, a, roles); }
    }
  }

  /** The one case in which collapsing changes where a message goes: a mark-junk that would have sent it
      to the junk folder is later withdrawn by mark-not-junk. */
  predicate WithdrawnJunkMove(actions: seq<Action>, roles: Roles) {
    && LastDestination(actions, roles).None? && JunkedAfter(actions)
    && Verdict(actions) == Some(Good) && roles.junk.Some?
  }

  lemma CollapseKeepsDestinationIff(actions: seq<Action>, tags: set<Name>, roles: Roles)
    ensures Outcomes(Collapse(actions), tags, roles).destination == Outcomes(actions, tags, roles).destination
            <==> !WithdrawnJunkMove(actions, roles)
  {
    DestinationOf(actions, tags, roles);
    DestinationOf(Collapse(actions), tags, roles);
    RouteOfCollapsed(actions, roles);
    JunkedHasVerdict(actions);
    var route, junked, verdict := LastDestination(actions, roles), JunkedAfter(actions), Verdict(actions);
    var full, collapsed := Outcomes(actions, tags, roles).destination, Outcomes(Collapse(actions), tags, roles).destination;
    assert full == if route.Some? then route else if junked then roles.junk else None;
    assert collapsed == if route.Some? then route else if junked && verdict == Some(Junk) then roles.junk else None;
    assert junked ==> verdict.value.Junk? || verdict.value.Good?;
  }

  lemma {:induction false} JunkedHasVerdict(actions: seq<Action>)
    ensures JunkedAfter(actions) ==> Verdict(actions).Some?
  {
    if actions != [] { JunkedHasVerdict(Front(actions)); }
  }

  // Tag updates are sent only when the tags change

  lemma {:induction false} UntouchedTag(actions: seq<Action>, start: Effects, tag: Name)
    requires forall i :: 0 <= i < |actions| ==> !(actions[i].kind in {AddTag, RemoveTag} && actions[i].value == tag)
    ensures tag in AllEffects(actions, start).tags <==> tag in start.tags
  {
    if actions != [] { UntouchedTag(Front(actions), start, tag); }
  }

  /** In a collapsed list no tag is touched twice, so tags are written exactly when they have changed. */
  lemma {:induction false} TagsAreWrittenIffChanged(actions: seq<Action>, tags: set<Name>, roles: Roles)
    requires ClashFree(actions)
    ensures Outcomes(actions, tags, roles).tagsChanged <==> Outcomes(actions, tags, roles).effects.tags != tags
  {
    if actions != [] {
      var front, a, start := Front(actions), Last(actions), Effects(None, None, tags, None);
      TagsAreWrittenIffChanged(front, tags, roles);
      OutcomesHaveAllEffects(front, tags, roles);
      if a.kind == AddTag || a.kind == RemoveTag {
        forall i | 0 <= i < |front|
          ensures !(front[i].kind in {AddTag, RemoveTag} && front[i].value == a.value)
        {
          assert front[i] == actions[i] && !Clash(a, actions[i]);
        }
        UntouchedTag(front, start, a.value);
        ChangeElsewhere(Outcomes(front, tags, roles).effects.tags, tags, a);
      }
    }
  }

  lemma ChangeElsewhere(now: set<Name>, before: set<Name>, a: Action)
    requires (a.value in now <==> a.value in before) && (a.kind == AddTag || a.kind == RemoveTag)
    ensures var e := Effect(a, Effects(None, None, now, None));
            e.tags != before <==> now != before || TagChange(a, now)
  {
    var after := Effect(a, Effects(None, None, now, None)).tags;
    if TagChange(a, now) {
      assert a.value in after <==> a.value !in before;
    } else {
      assert after == now;
    }
  }

  /** For every message: the collapsed actions have the same effects, and write the tags exactly when they change. */
  lemma CollapsedOutcome(actions: seq<Action>, tags: set<Name>, roles: Roles)
    ensures Outcomes(Collapse(actions), tags, roles).effects == Outcomes(actions, tags, roles).effects
    ensures Outcomes(Collapse(actions), tags, roles).tagsChanged <==> Outcomes(actions, tags, roles).effects.tags != tags
  {
    var start := Effects(None, None, tags, None);
    CollapseKeepsEffects(actions, start);
    OutcomesHaveAllEffects(actions, tags, roles);
    OutcomesHaveAllEffects(Collapse(actions), tags, roles);
    CollapseIsClashFree(actions);
    TagsAreWrittenIffChanged(Collapse(actions), tags, roles);
  }

  // Evaluation

  /** A filter; hit says whether it is enabled and its conditions match the message at hand. */
  datatype Filter = Filter(id: nat, ordinal: int, name: nat, hit: bool, actions: seq<Action>)

  /** Filters run by ordinal, then name, then id; names and ids stand for their place in the order of texts. */
  predicate RunsFirst(f: Filter, g: Filter) {
    f.ordinal < g.ordinal || (f.ordinal == g.ordinal && (f.name < g.name || (f.name == g.name && f.id < g.id)))
  }

  function Limited<T>(s: seq<T>, limit: nat): seq<T> {
    if |s| > limit then s[..limit] else s
  }

  predicate Stops(actions: seq<Action>) {
    exists i :: 0 <= i < |actions| && actions[i].kind == Stop
  }

  function UpToStop(actions: seq<Action>): (r: seq<Action>)
    ensures r <= actions && !Stops(r)
    ensures |r| < |actions| ==> actions[|r|].kind == Stop
  {
    if actions == [] || actions[0].kind == Stop then []
    else
      var rest := UpToStop(actions[1..]);
      var r := [actions[0]] + rest;
      assert forall i :: 0 <= i < |r| ==> r[i].kind != Stop;
      r
  }

  /** The actions of the filters that hit, up to the first stop. */
  function Collected(filters: seq<Filter>): seq<Action> {
    if filters == [] then []
    else if !filters[0].hit then Collected(filters[1..])
    else
      var actions := Limited(filters[0].actions, ACTION_LIMIT);
      UpToStop(actions) + (if Stops(actions) then [] else Collected(filters[1..]))
  }

  function Matched(filters: seq<Filter>): seq<nat> {
    if filters == [] then []
    else if !filters[0].hit then Matched(filters[1..])
    else [filters[0].id] + (if Stops(Limited(filters[0].actions, ACTION_LIMIT)) then [] else Matched(filters[1..]))
  }

  /** The first i filters have been considered; stopped says that one of them ended the run. */
  ghost predicate Considered(sorted: seq<Filter>, i: nat, stopped: bool, matched: seq<nat>, collected: seq<Action>) {
    && i <= |sorted|
    && Matched(sorted) == matched + (if stopped then [] else Matched(sorted[i..]))
    && Collected(sorted) == collected + (if stopped then [] else Collected(sorted[i..]))
  }

  lemma ConsiderNext(sorted: seq<Filter>, i: nat, matched: seq<nat>, collected: seq<Action>)
    requires i < |sorted| && Considered(sorted, i, false, matched, collected)
    ensures !sorted[i].hit ==> Considered(sorted, i + 1, false, matched, collected)
    ensures var actions := Limited(sorted[i].actions, ACTION_LIMIT);
            sorted[i].hit ==>
              Considered(sorted, i + 1, Stops(actions), matched + [sorted[i].id], collected + UpToStop(actions))
  {
    assert sorted[i..][1..] == sorted[i + 1..];
    if sorted[i].hit && !Stops(Limited(sorted[i].actions, ACTION_LIMIT)) {
      var actions := UpToStop(Limited(sorted[i].actions, ACTION_LIMIT));
      assert matched + ([sorted[i].id] + Matched(sorted[i + 1..])) == matched + [sorted[i].id] + Matched(sorted[i + 1..]);
      assert collected + (actions + Collected(sorted[i + 1..])) == collected + actions + Collected(sorted[i + 1..]);
    }
  }

  lemma NoneConsidered(sorted: seq<Filter>)
    ensures Considered(sorted, 0, false, [], [])
  {
    assert sorted[0..] == sorted;
  }

  method Evaluate(filters: seq<Filter>) returns (matched: seq<nat>, effective: seq<Action>)
    ensures matched == Matched(Limited(Sort(filters, RunsFirst), FILTER_LIMIT))
    ensures effective == Collapse(Collected(Limited(Sort(filters, RunsFirst), FILTER_LIMIT)))
    ensures ClashFree(effective)
  {
    var sorted := Limited(Sort(filters, RunsFirst), FILTER_LIMIT);
    var collected: seq<Action> := [];
    matched := [];
    var i, stopped := 0, false;
    NoneConsidered(sorted);
    while i < |sorted| && !stopped
      invariant 0 <= i <= |sorted| && Considered(sorted, i, stopped, matched, collected)
    {
      ConsiderNext(sorted, i, matched, collected);
      if sorted[i].hit {
        var actions := Limited(sorted[i].actions, ACTION_LIMIT);
        var k := FirstStop(actions);
        matched := matched + [sorted[i].id];
        collected := collected + actions[..k];
        stopped := k < |actions|;
      }
      i := i + 1;
    }
    assert matched == Matched(sorted) && collected == Collected(sorted);
    effective := CollapseActions(collected);
    CollapseIsClashFree(collected);
  }

  method FirstStop(actions: seq<Action>) returns (k: nat)
    ensures k <= |actions| && UpToStop(actions) == actions[..k] && (Stops(actions) <==> k < |actions|)
  {
    k := 0;
    assert actions[0..] == actions;
    while k < |actions| && actions[k].kind != Stop
      invariant k <= |actions| && UpToStop(actions) == actions[..k] + UpToStop(actions[k..])
      invariant forall j :: 0 <= j < k ==> actions[j].kind != Stop
    {
      assert actions[k..][1..] == actions[k + 1..];
      k := k + 1;
    }
  }

  /** Nothing that comes after a filter that hit and stops has any influence. */
  lemma {:induction false} StopEndsTheRun(before: seq<Filter>, stopping: Filter, after: seq<Filter>)
    requires stopping.hit && Stops(Limited(stopping.actions, ACTION_LIMIT))
    ensures Collected(before + [stopping] + after) == Collected(before + [stopping])
    ensures Matched(before + [stopping] + after) == Matched(before + [stopping])
  {
    if before != [] {
      StopEndsTheRun(before[1..], stopping, after);
      assert (before + [stopping] + after)[1..] == before[1..] + [stopping] + after;
      assert (before + [stopping])[1..] == before[1..] + [stopping];
    }
  }
}
