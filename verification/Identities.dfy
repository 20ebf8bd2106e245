/** Sender identities: one default for each account that has any. */
module Identities {
  import opened Basics
  import opened Lists
  import opened Sorting

  const LIMIT := 20

  /** Names and ids stand for their place in the order of texts; details are the fields that decide nothing here. */
  datatype Identity = Identity(id: nat, account: nat, isDefault: bool, ordinal: nat, name: nat, details: string)

  /** An edit when it names an id, else a new identity; valid says that name and addresses are acceptable. */
  datatype Input = Input(id: Option<nat>, account: nat, isDefault: Option<bool>, name: nat, details: string, valid: bool)

  datatype IdentityError = Invalid | NotFound | LimitReached | LastOfAccount

  function Members(s: seq<Identity>, account: nat): nat {
    if s == [] then 0 else (if s[0].account == account then 1 else 0) + Members(s[1..], account)
  }

  function Defaults(s: seq<Identity>, account: nat): nat {
    if s == [] then 0 else (if s[0].account == account && s[0].isDefault then 1 else 0) + Defaults(s[1..], account)
  }

  ghost predicate OneDefault(s: seq<Identity>) {
    forall account :: Members(s, account) > 0 ==> Defaults(s, account) == 1
  }

  ghost predicate UniqueIds(s: seq<Identity>) {
    forall i, j :: 0 <= i < j < |s| ==> s[i].id != s[j].id
  }

  // Operations

  function Of(s: seq<Identity>, account: nat): (r: seq<Identity>)
    ensures forall x :: x in r <==> x in s && x.account == account
    ensures |r| == Members(s, account)
  {
    if s == [] then [] else (if s[0].account == account then [s[0]] else []) + Of(s[1..], account)
  }

  function Find(s: seq<Identity>, id: nat): (r: Option<Identity>)
    ensures r.Some? ==> r.value in s && r.value.id == id
    ensures r.None? ==> forall x :: x in s ==> x.id != id
  {
    if s == [] then None else if s[0].id == id then Some(s[0]) else Find(s[1..], id)
  }

  function Without(s: seq<Identity>, id: nat): (r: seq<Identity>)
    ensures forall x :: x in r <==> x in s && x.id != id
  {
    if s == [] then [] else (if s[0].id == id then [] else [s[0]]) + Without(s[1..], id)
  }

  function Demoted(s: seq<Identity>, account: nat): seq<Identity> {
    if s == [] then []
    else [if s[0].account == account then s[0].(isDefault := false) else s[0]] + Demoted(s[1..], account)
  }

  function Promoted(s: seq<Identity>, id: nat): seq<Identity> {
    if s == [] then [] else [if s[0].id == id then s[0].(isDefault := true) else s[0]] + Promoted(s[1..], id)
  }

  predicate Precedes(x: Identity, y: Identity) {
    if x.isDefault != y.isDefault then x.isDefault
    else if x.ordinal != y.ordinal then x.ordinal < y.ordinal
    else if x.name != y.name then x.name < y.name
    else x.id < y.id
  }

  /** The first identity of an account in the order of the list that users see. */
  function FirstOf(s: seq<Identity>, account: nat): (r: Identity)
    requires Members(s, account) > 0
    ensures r in s && r.account == account
  {
    var sorted := Sort(Of(s, account), Precedes);
    assert sorted[0] in multiset(sorted);
    sorted[0]
  }

  function NextOrdinal(s: seq<Identity>, account: nat): nat {
    if s == [] then 0
    else
      var rest := NextOrdinal(s[1..], account);
      if s[0].account == account && s[0].ordinal >= rest then s[0].ordinal + 1 else rest
  }

  /** The identity that a save writes. */
  function Written(s: seq<Identity>, input: Input, current: Option<Identity>, newId: nat): Identity {
    var wanted := if input.isDefault.Some? then input.isDefault.value
                  else if current.Some? then current.value.isDefault
                  else Members(s, input.account) == 0;
    Identity(if current.Some? then current.value.id else newId, input.account,
             Members(s, input.account) == 0 || wanted,
             if current.Some? then current.value.ordinal else NextOrdinal(s, input.account),
             input.name, input.details)
  }

  function Place(s: seq<Identity>, identity: Identity): seq<Identity> {
    var others := Without(s, identity.id);
    var next := (if identity.isDefault then Demoted(others, identity.account) else others) + [identity];
    if Members(next, identity.account) > 0 && Defaults(next, identity.account) == 0
    then Promoted(next, FirstOf(next, identity.account).id) else next
  }

  function Build(s: seq<Identity>, input: Input, newId: nat): Result<seq<Identity>, IdentityError> {
    var current := if input.id.Some? then Find(s, input.id.value) else None;
    if !input.valid then Err(Invalid)
    else if input.id.Some? && current.None? then Err(NotFound)
    else if current.None? && Members(s, input.account) >= LIMIT then Err(LimitReached)
    else Ok(Place(s, Written(s, input, current, newId)))
  }

  function Remove(s: seq<Identity>, id: nat): Result<seq<Identity>, IdentityError> {
    var identity := Find(s, id);
    if identity.None? then Err(NotFound)
    else
      var remaining := Without(s, id);
      var account := identity.value.account;
      if identity.value.isDefault && Members(remaining, account) == 0 then Err(LastOfAccount)
      else if !identity.value.isDefault || Members(remaining, account) == 0 then Ok(remaining)
      else Ok(Promoted(remaining, FirstOf(remaining, account).id))
  }

  function Only(s: seq<Identity>, account: nat, id: nat): seq<Identity> {
    if s == [] then []
    else [if s[0].account == account then s[0].(isDefault := s[0].id == id) else s[0]] + Only(s[1..], account, id)
  }

  function Promote(s: seq<Identity>, id: nat): Result<seq<Identity>, IdentityError> {
    var identity := Find(s, id);
    if identity.None? then Err(NotFound) else Ok(Only(s, identity.value.account, id))
  }

  function Forget(s: seq<Identity>, account: nat): seq<Identity> {
    if s == [] then [] else (if s[0].account == account then [] else [s[0]]) + Forget(s[1..], account)
  }

  // Counting through the operations

  lemma {:induction false} CountOfConcat(a: seq<Identity>, b: seq<Identity>, account: nat)
    ensures Members(a + b, account) == Members(a, account) + Members(b, account)
    ensures Defaults(a + b, account) == Defaults(a, account) + Defaults(b, account)
  {
    if a == [] {
      assert a + b == b;
    } else {
      CountOfConcat(a[1..], b, account);
      assert (a + b)[1..] == a[1..] + b;
    }
  }

  lemma {:induction false} CountOfDemoted(s: seq<Identity>, demoted: nat, account: nat)
    ensures Members(Demoted(s, demoted), account) == Members(s, account)
    ensures Defaults(Demoted(s, demoted), account) == if account == demoted then 0 else Defaults(s, account)
  {
    if s != [] {
      CountOfDemoted(s[1..], demoted, account);
      assert Demoted(s, demoted)[1..] == Demoted(s[1..], demoted);
    }
  }

  lemma {:induction false} WithoutAbsent(s: seq<Identity>, id: nat)
    requires forall x :: x in s ==> x.id != id
    ensures Without(s, id) == s
  {
    if s != [] { WithoutAbsent(s[1..], id); }
  }

  lemma {:induction false} CountWithout(s: seq<Identity>, x: Identity, account: nat)
    requires UniqueIds(s) && x in s
    ensures Members(Without(s, x.id), account) == Members(s, account) - (if x.account == account then 1 else 0)
    ensures Defaults(Without(s, x.id), account) == Defaults(s, account) - (if x.account == account && x.isDefault then 1 else 0)
  {
    if s[0] == x {
      assert forall y :: y in s[1..] ==> y.id != x.id;
      WithoutAbsent(s[1..], x.id);
      assert Without(s, x.id) == s[1..];
    } else {
      CountWithout(s[1..], x, account);
      assert s[0].id != x.id;
      assert Without(s, x.id)[1..] == Without(s[1..], x.id);
    }
  }

  lemma {:induction false} PromotedAbsent(s: seq<Identity>, id: nat)
    requires forall x :: x in s ==> x.id != id
    ensures Promoted(s, id) == s
  {
    if s != [] { PromotedAbsent(s[1..], id); }
  }

  lemma {:induction false} CountPromoted(s: seq<Identity>, x: Identity, account: nat)
    requires UniqueIds(s) && x in s
    ensures Members(Promoted(s, x.id), account) == Members(s, account)
    ensures Defaults(Promoted(s, x.id), account) == Defaults(s, account) + (if x.account == account && !x.isDefault then 1 else 0)
  {
    assert Promoted(s, x.id)[1..] == Promoted(s[1..], x.id);
    if s[0] == x {
      assert forall y :: y in s[1..] ==> y.id != x.id;
      PromotedAbsent(s[1..], x.id);
    } else {
      CountPromoted(s[1..], x, account);
      assert s[0].id != x.id;
    }
  }

  lemma {:induction false} NoDefaults(s: seq<Identity>, account: nat)
    ensures Defaults(s, account) <= Members(s, account)
    ensures Defaults(s, account) == 0 ==> forall x :: x in s && x.account == account ==> !x.isDefault
  {
    if s != [] { NoDefaults(s[1..], account); }
  }

  lemma {:induction false} WithoutKeepsUnique(s: seq<Identity>, id: nat)
    requires UniqueIds(s)
    ensures UniqueIds(Without(s, id))
  {
    if s != [] {
      WithoutKeepsUnique(s[1..], id);
      var rest := Without(s[1..], id);
      forall k | 0 <= k < |rest| ensures rest[k].id != s[0].id { assert rest[k] in s[1..]; }
    }
  }

  ghost predicate SameIds(s: seq<Identity>, t: seq<Identity>) {
    |s| == |t| && forall k :: 0 <= k < |s| ==> s[k].id == t[k].id && s[k].account == t[k].account
  }

  lemma {:induction false} MapsKeepIds(s: seq<Identity>, account: nat, id: nat)
    ensures SameIds(Demoted(s, account), s) && SameIds(Promoted(s, id), s) && SameIds(Only(s, account, id), s)
  {
    if s != [] { MapsKeepIds(s[1..], account, id); }
  }

  // What every operation keeps

  ghost predicate Inv(s: seq<Identity>) {
    UniqueIds(s) && OneDefault(s)
  }

  lemma CountOfOne(x: Identity, account: nat)
    ensures Members([x], account) == if x.account == account then 1 else 0
    ensures Defaults([x], account) == if x.account == account && x.isDefault then 1 else 0
  {
    assert [x][1..] == [];
  }

  /** Promoting the first identity of an account without default gives that account, and no other, one default. */
  lemma PromotingFirst(s: seq<Identity>, promoted: nat, account: nat)
    requires UniqueIds(s) && Members(s, promoted) > 0 && Defaults(s, promoted) == 0
    ensures var t := Promoted(s, FirstOf(s, promoted).id);
            && UniqueIds(t) && Members(t, account) == Members(s, account)
            && Defaults(t, account) == if account == promoted then 1 else Defaults(s, account)
  {
    var first := FirstOf(s, promoted);
    NoDefaults(s, promoted);
    CountPromoted(s, first, account);
    MapsKeepIds(s, promoted, first.id);
  }

  /** Counts before the last step of placing: the others, demoted if need be, and then the identity itself. */
  lemma CountsBeforePromotion(others: seq<Identity>, x: Identity, account: nat)
    requires UniqueIds(others) && forall y :: y in others ==> y.id != x.id
    ensures var next := (if x.isDefault then Demoted(others, x.account) else others) + [x];
            && UniqueIds(next)
            && Members(next, account) == Members(others, account) + (if account == x.account then 1 else 0)
            && Defaults(next, account) == if account == x.account && x.isDefault then 1 else Defaults(others, account)
  {
    var front := if x.isDefault then Demoted(others, x.account) else others;
    CountOfDemoted(others, x.account, account);
    MapsKeepIds(others, x.account, x.id);
    CountOfConcat(front, [x], account);
    CountOfOne(x, account);
    forall i | 0 <= i < |front| ensures front[i].id != x.id { assert others[i] in others; }
  }

  lemma CountOfPlaced(s: seq<Identity>, x: Identity, account: nat)
    requires UniqueIds(s)
    ensures var t, others := Place(s, x), Without(s, x.id);
            && UniqueIds(t)
            && Members(t, account) == Members(others, account) + (if account == x.account then 1 else 0)
            && Defaults(t, account) == if account != x.account then Defaults(others, account)
                                       else if x.isDefault || Defaults(others, account) == 0 then 1
                                       else Defaults(others, account)
  {
    var others := Without(s, x.id);
    var next := (if x.isDefault then Demoted(others, x.account) else others) + [x];
    WithoutKeepsUnique(s, x.id);
    CountsBeforePromotion(others, x, account);
    CountsBeforePromotion(others, x, x.account);
    if Defaults(next, x.account) == 0 {
      PromotingFirst(next, x.account, account);
    }
  }

  /** A save keeps one default for each account exactly when it does not move an account's default away from other identities. */
  lemma SaveKeepsOneDefaultIff(s: seq<Identity>, input: Input, newId: nat)
    requires Inv(s) && Build(s, input, newId).Ok? && (input.id.None? ==> forall x :: x in s ==> x.id != newId)
    ensures UniqueIds(Build(s, input, newId).value)
    ensures OneDefault(Build(s, input, newId).value) <==> !MovesDefaultAway(s, input)
  {
    var current := if input.id.Some? then Find(s, input.id.value) else None;
    var x := Written(s, input, current, newId);
    var t := Place(s, x);
    CountOfPlaced(s, x, x.account);
    if current.None? {
      WithoutAbsent(s, x.id);
      forall account | Members(t, account) > 0 ensures Defaults(t, account) == 1 {
        CountOfPlaced(s, x, account);
      }
    } else {
      var c := current.value;
      forall account ensures account != c.account || x.account == c.account ==> (Members(t, account) > 0 ==> Defaults(t, account) == 1) {
        CountOfPlaced(s, x, account);
        CountWithout(s, c, account);
      }
      CountOfPlaced(s, x, c.account);
      CountWithout(s, c, c.account);
      MemberCounts(s, c);
    }
  }

  lemma {:induction false} MemberCounts(s: seq<Identity>, x: Identity)
    requires x in s
    ensures Members(s, x.account) > 0 && (x.isDefault ==> Defaults(s, x.account) > 0)
  {
    if s[0] != x { MemberCounts(s[1..], x); }
  }

  /** An edit that takes the default identity of an account with other identities over to another account. */
  predicate MovesDefaultAway(s: seq<Identity>, input: Input) {
    && input.id.Some? && Find(s, input.id.value).Some?
    && var c := Find(s, input.id.value).value;
       c.account != input.account && c.isDefault && Members(s, c.account) > 1
  }

  /** An edit that moves an account's only identity leaves that account without any. */
  lemma MovingTheOnlyIdentityEmptiesItsAccount(s: seq<Identity>, input: Input, newId: nat)
    requires Inv(s) && Build(s, input, newId).Ok? && input.id.Some?
    ensures var c := Find(s, input.id.value).value;
            Members(Build(s, input, newId).value, c.account) == 0 <==> c.account != input.account && Members(s, c.account) == 1
  {
    var c := Find(s, input.id.value).value;
    var x := Written(s, input, Some(c), newId);
    CountOfPlaced(s, x, c.account);
    CountWithout(s, c, c.account);
  }

  /** Removing keeps one default for each account, and is refused exactly for an account's last identity. */
  lemma RemoveKeepsInv(s: seq<Identity>, id: nat)
    requires Inv(s) && Find(s, id).Some?
    ensures Remove(s, id) == Err(LastOfAccount) <==> Members(s, Find(s, id).value.account) == 1
    ensures Remove(s, id).Ok? <==> Members(s, Find(s, id).value.account) != 1
    ensures Remove(s, id).Ok? ==> Inv(Remove(s, id).value)
    ensures Remove(s, id).Ok? ==> forall account :: Members(s, account) > 0 ==> Members(Remove(s, id).value, account) > 0
  {
    var x := Find(s, id).value;
    var remaining := Without(s, id);
    WithoutKeepsUnique(s, id);
    CountWithout(s, x, x.account);
    MemberCounts(s, x);
    if Members(s, x.account) == 1 {
      NoDefaults(s, x.account);
      if !x.isDefault { NoOtherMember(s, x); }
    } else {
      var t := Remove(s, id).value;
      if x.isDefault { PromotingFirst(remaining, x.account, x.account); }
      forall account
        ensures Members(t, account) == Members(s, account) - (if account == x.account then 1 else 0)
        ensures Members(t, account) > 0 ==> Defaults(t, account) == 1
      {
        CountWithout(s, x, account);
        if x.isDefault { PromotingFirst(remaining, x.account, account); }
      }
    }
  }

  lemma {:induction false} NoOtherMember(s: seq<Identity>, x: Identity)
    requires x in s && !x.isDefault && Members(s, x.account) == 1
    ensures Defaults(s, x.account) == 0
  {
    if s[0] == x {
      NoDefaults(s[1..], x.account);
    } else {
      MemberCounts(s[1..], x);
      NoOtherMember(s[1..], x);
    }
  }

  lemma {:induction false} CountOfOnly(s: seq<Identity>, of: nat, id: nat, account: nat)
    requires UniqueIds(s)
    ensures Members(Only(s, of, id), account) == Members(s, account)
    ensures account != of ==> Defaults(Only(s, of, id), account) == Defaults(s, account)
    ensures account == of ==> Defaults(Only(s, of, id), account) == if exists x :: x in s && x.id == id && x.account == of then 1 else 0
  {
    if s != [] {
      CountOfOnly(s[1..], of, id, account);
      assert Only(s, of, id)[1..] == Only(s[1..], of, id);
      if s[0].id == id { assert forall y :: y in s[1..] ==> y.id != id; }
      assert forall x :: x in s <==> x == s[0] || x in s[1..];
    }
  }

  lemma PromoteKeepsInv(s: seq<Identity>, id: nat)
    requires Inv(s) && Promote(s, id).Ok?
    ensures Inv(Promote(s, id).value)
    ensures forall x :: x in Promote(s, id).value && x.id == id ==> x.isDefault
  {
    var x := Find(s, id).value;
    MapsKeepIds(s, x.account, id);
    forall account | Members(Promote(s, id).value, account) > 0 ensures Defaults(Promote(s, id).value, account) == 1 {
      CountOfOnly(s, x.account, id, account);
    }
    PromotedIsDefault(s, x.account, id, x);
  }

  lemma {:induction false} PromotedIsDefault(s: seq<Identity>, account: nat, id: nat, x: Identity)
    requires forall y :: y in s && y.id == id ==> y.account == account
    ensures forall y :: y in Only(s, account, id) && y.id == id ==> y.isDefault
  {
    if s != [] { PromotedIsDefault(s[1..], account, id, x); }
  }

  lemma {:induction false} CountOfForget(s: seq<Identity>, forgotten: nat, account: nat)
    ensures Members(Forget(s, forgotten), account) == if account == forgotten then 0 else Members(s, account)
    ensures Defaults(Forget(s, forgotten), account) == if account == forgotten then 0 else Defaults(s, account)
    ensures forall x :: x in Forget(s, forgotten) ==> x in s
  {
    if s != [] {
      CountOfForget(s[1..], forgotten, account);
      if s[0].account != forgotten { assert Forget(s, forgotten)[1..] == Forget(s[1..], forgotten); }
      else { assert Forget(s, forgotten) == Forget(s[1..], forgotten); }
    }
  }

  lemma {:induction false} ForgetKeepsUnique(s: seq<Identity>, account: nat)
    requires UniqueIds(s)
    ensures UniqueIds(Forget(s, account))
  {
    if s != [] {
      ForgetKeepsUnique(s[1..], account);
      CountOfForget(s[1..], account, account);
      var rest := Forget(s[1..], account);
      forall k | 0 <= k < |rest| ensures rest[k].id != s[0].id { assert rest[k] in s[1..]; }
    }
  }

  lemma ForgetKeepsInv(s: seq<Identity>, account: nat)
    requires Inv(s)
    ensures Inv(Forget(s, account)) && Members(Forget(s, account), account) == 0
  {
    ForgetKeepsUnique(s, account);
    forall other ensures Members(Forget(s, account), other) > 0 ==> Defaults(Forget(s, account), other) == 1 {
      CountOfForget(s, account, other);
    }
    CountOfForget(s, account, account);
  }

  // Loading

  /** Later defaults of an account that already has one are withdrawn. */
  function Settled(s: seq<Identity>, claimed: set<nat>): seq<Identity> {
    if s == [] then []
    else if !s[0].isDefault then [s[0]] + Settled(s[1..], claimed)
    else if s[0].account in claimed then [s[0].(isDefault := false)] + Settled(s[1..], claimed)
    else [s[0]] + Settled(s[1..], claimed + {s[0].account})
  }

  function Claimed(s: seq<Identity>): set<nat> {
    if s == [] then {}
    else Claimed(s[..|s| - 1]) + (if s[|s| - 1].isDefault then {s[|s| - 1].account} else {})
  }

  /** The first identity of each account without default becomes its default. */
  function Filled(s: seq<Identity>, claimed: set<nat>): seq<Identity> {
    if s == [] then []
    else if s[0].account in claimed then [s[0]] + Filled(s[1..], claimed)
    else [s[0].(isDefault := true)] + Filled(s[1..], claimed + {s[0].account})
  }

  function Loaded(s: seq<Identity>): seq<Identity> {
    Filled(Settled(s, {}), Claimed(s))
  }

  ghost predicate Settling(s: seq<Identity>, i: nat, demoted: seq<Identity>, claimed: set<nat>) {
    i <= |s| && claimed == Claimed(s[..i]) && Settled(s, {}) == demoted + Settled(s[i..], claimed)
  }

  lemma SettleNext(s: seq<Identity>, i: nat, demoted: seq<Identity>, claimed: set<nat>)
    requires i < |s| && Settling(s, i, demoted, claimed)
    ensures var x := s[i];
            if !x.isDefault then Settling(s, i + 1, demoted + [x], claimed)
            else if x.account in claimed then Settling(s, i + 1, demoted + [x.(isDefault := false)], claimed)
            else Settling(s, i + 1, demoted + [x], claimed + {x.account})
  {
    assert s[i..][1..] == s[i + 1..] && s[..i + 1][..i] == s[..i];
    assert s[i].account in claimed ==> claimed + {s[i].account} == claimed;
    assert claimed + {} == claimed;
  }

  /** The first pass: it withdraws surplus defaults and notes the accounts that have one. */
  method Settle(s: seq<Identity>) returns (demoted: seq<Identity>, claimed: set<nat>)
    ensures demoted == Settled(s, {}) && claimed == Claimed(s)
  {
    claimed, demoted := {}, [];
    var i := 0;
    assert s[0..] == s;
    while i < |s|
      invariant 0 <= i <= |s| && Settling(s, i, demoted, claimed)
    {
      SettleNext(s, i, demoted, claimed);
      if !s[i].isDefault {
        demoted := demoted + [s[i]];
      } else if s[i].account in claimed {
        demoted := demoted + [s[i].(isDefault := false)];
      } else {
        claimed := claimed + {s[i].account};
        demoted := demoted + [s[i]];
      }
      i := i + 1;
    }
    assert s[..|s|] == s;
  }

  ghost predicate Filling(demoted: seq<Identity>, claimed: set<nat>, i: nat, r: seq<Identity>, promoted: set<nat>) {
    i <= |demoted| && Filled(demoted, claimed) == r + Filled(demoted[i..], claimed + promoted)
  }

  lemma FillNext(demoted: seq<Identity>, claimed: set<nat>, i: nat, r: seq<Identity>, promoted: set<nat>)
    requires i < |demoted| && Filling(demoted, claimed, i, r, promoted)
    ensures var x := demoted[i];
            if x.account in claimed || x.account in promoted then Filling(demoted, claimed, i + 1, r + [x], promoted)
            else Filling(demoted, claimed, i + 1, r + [x.(isDefault := true)], promoted + {x.account})
  {
    var x := demoted[i];
    assert demoted[i..][1..] == demoted[i + 1..];
    assert claimed + promoted + {x.account} == claimed + (promoted + {x.account});
  }

  lemma FillEnds(demoted: seq<Identity>, claimed: set<nat>)
    ensures Filling(demoted, claimed, 0, [], {})
  {
    assert demoted[0..] == demoted && claimed + {} == claimed;
  }

  /** The second pass: it promotes the first identity of each account that was not noted. */
  method Fill(demoted: seq<Identity>, claimed: set<nat>) returns (r: seq<Identity>)
    ensures r == Filled(demoted, claimed)
  {
    r := [];
    var promoted: set<nat> := {};
    var i := 0;
    FillEnds(demoted, claimed);
    while i < |demoted|
      invariant 0 <= i <= |demoted| && Filling(demoted, claimed, i, r, promoted)
    {
      FillNext(demoted, claimed, i, r, promoted);
      if demoted[i].account in claimed || demoted[i].account in promoted {
        r := r + [demoted[i]];
      } else {
        promoted := promoted + {demoted[i].account};
        r := r + [demoted[i].(isDefault := true)];
      }
      i := i + 1;
    }
  }

  /** The transform of a state file's identities. */
  method Load(s: seq<Identity>) returns (r: seq<Identity>)
    ensures r == Loaded(s)
  {
    var demoted, claimed := Settle(s);
    r := Fill(demoted, claimed);
  }

  lemma {:induction false} CountOfSettled(s: seq<Identity>, claimed: set<nat>, account: nat)
    ensures Members(Settled(s, claimed), account) == Members(s, account)
    ensures Defaults(Settled(s, claimed), account) == if account !in claimed && Defaults(s, account) > 0 then 1 else 0
  {
    if s != [] {
      var next := if s[0].isDefault && s[0].account !in claimed then claimed + {s[0].account} else claimed;
      CountOfSettled(s[1..], next, account);
      assert Settled(s, claimed)[1..] == Settled(s[1..], next);
    }
  }

  lemma {:induction false} ClaimedMeansDefault(s: seq<Identity>, account: nat)
    ensures account in Claimed(s) <==> Defaults(s, account) > 0
  {
    if s != [] {
      ClaimedMeansDefault(s[..|s| - 1], account);
      CountOfConcat(s[..|s| - 1], [s[|s| - 1]], account);
      CountOfOne(s[|s| - 1], account);
      assert s == s[..|s| - 1] + [s[|s| - 1]];
    }
  }

  lemma {:induction false} CountOfFilled(s: seq<Identity>, claimed: set<nat>, account: nat)
    requires account !in claimed ==> Defaults(s, account) == 0
    ensures Members(Filled(s, claimed), account) == Members(s, account)
    ensures Defaults(Filled(s, claimed), account)
            == if account in claimed then Defaults(s, account) else if Members(s, account) > 0 then 1 else 0
  {
    if s != [] {
      var next := if s[0].account in claimed then claimed else claimed + {s[0].account};
      CountOfFilled(s[1..], next, account);
      assert Filled(s, claimed)[1..] == Filled(s[1..], next);
    }
  }

  /** Whatever the file held, each account with identities has one default after loading. */
  lemma LoadingEstablishesOneDefault(s: seq<Identity>)
    ensures OneDefault(Loaded(s))
  {
    forall account ensures Members(Loaded(s), account) > 0 ==> Defaults(Loaded(s), account) == 1 {
      CountOfSettled(s, {}, account);
      ClaimedMeansDefault(s, account);
      CountOfFilled(Settled(s, {}), Claimed(s), account);
    }
  }

  lemma {:induction false} SettledStays(s: seq<Identity>, claimed: set<nat>)
    requires forall account :: Defaults(s, account) <= if account in claimed then 0 else 1
    ensures Settled(s, claimed) == s
  {
    if s != [] {
      var next := if s[0].isDefault then claimed + {s[0].account} else claimed;
      assert Defaults(s, s[0].account) <= if s[0].account in claimed then 0 else 1;
      forall account ensures Defaults(s[1..], account) <= if account in next then 0 else 1 {
        assert Defaults(s, account) <= if account in claimed then 0 else 1;
      }
      SettledStays(s[1..], next);
    }
  }

  lemma {:induction false} FilledStays(s: seq<Identity>, claimed: set<nat>)
    requires forall x :: x in s ==> x.account in claimed
    ensures Filled(s, claimed) == s
  {
    if s != [] { FilledStays(s[1..], claimed); }
  }

  /** A file that already has one default for each account is loaded as it is. */
  lemma LoadingKeepsGoodLists(s: seq<Identity>)
    requires OneDefault(s)
    ensures Loaded(s) == s
  {
    forall account ensures Defaults(s, account) <= 1 {
      if Members(s, account) == 0 { NoDefaults(s, account); }
    }
    SettledStays(s, {});
    forall x | x in s ensures x.account in Claimed(s) {
      MemberCounts(s, x);
      ClaimedMeansDefault(s, x.account);
    }
    FilledStays(s, Claimed(s));
  }

  // The store

  class IdentityStore {
    var identities: seq<Identity>

    ghost predicate Valid()
      reads this
    {
      Inv(identities)
    }

    /** Starts from a state file with distinct ids. */
    constructor (file: seq<Identity>)
      requires UniqueIds(file)
      ensures Valid() && identities == Loaded(file)
    {
      LoadingEstablishesOneDefault(file);
      LoadingKeepsIds(file);
      var loaded := Load(file);
      identities := loaded;
    }

    method Save(input: Input, newId: nat) returns (r: Result<seq<Identity>, IdentityError>)
      requires Valid() && forall x :: x in identities ==> x.id != newId
      modifies this
      ensures r == Build(old(identities), input, newId)
      ensures identities == if r.Ok? then r.value else old(identities)
      ensures !MovesDefaultAway(old(identities), input) ==> Valid()
    {
      r := Build(identities, input, newId);
      if r.Ok? {
        SaveKeepsOneDefaultIff(identities, input, newId);
        identities := r.value;
      }
    }

    method Delete(id: nat) returns (r: Result<seq<Identity>, IdentityError>)
      requires Valid()
      modifies this
      ensures Valid() && r == Remove(old(identities), id)
      ensures identities == if r.Ok? then r.value else old(identities)
      ensures forall account :: Members(old(identities), account) > 0 ==> Members(identities, account) > 0
    {
      r := Remove(identities, id);
      if r.Ok? {
        RemoveKeepsInv(identities, id);
        identities := r.value;
      }
    }

    method MakeDefault(id: nat) returns (r: Result<seq<Identity>, IdentityError>)
      requires Valid()
      modifies this
      ensures Valid() && r == Promote(old(identities), id)
      ensures identities == if r.Ok? then r.value else old(identities)
    {
      r := Promote(identities, id);
      if r.Ok? {
        PromoteKeepsInv(identities, id);
        identities := r.value;
      }
    }

    /** A new account gets its first identity; an account that has one is left alone. */
    method Seed(account: nat, name: nat, details: string, newId: nat)
      requires Valid() && forall x :: x in identities ==> x.id != newId
      modifies this
      ensures Valid() && Members(identities, account) > 0
      ensures Members(old(identities), account) > 0 ==> identities == old(identities)
    {
      if |Of(identities, account)| > 0 {
        return;
      }
      var input := Input(None, account, Some(true), name, details, true);
      var r := Build(identities, input, newId);
      SaveKeepsOneDefaultIff(identities, input, newId);
      CountOfPlaced(identities, Written(identities, input, None, newId), account);
      identities := r.value;
    }

    method ForgetAccount(account: nat)
      requires Valid()
      modifies this
      ensures Valid() && identities == Forget(old(identities), account) && Members(identities, account) == 0
    {
      ForgetKeepsInv(identities, account);
      identities := Forget(identities, account);
    }
  }

  lemma {:induction false} SettledKeepsIds(s: seq<Identity>, claimed: set<nat>)
    ensures SameIds(Settled(s, claimed), s)
  {
    if s != [] { SettledKeepsIds(s[1..], if s[0].isDefault && s[0].account !in claimed then claimed + {s[0].account} else claimed); }
  }

  lemma {:induction false} FilledKeepsIds(s: seq<Identity>, claimed: set<nat>)
    ensures SameIds(Filled(s, claimed), s)
  {
    if s != [] { FilledKeepsIds(s[1..], if s[0].account in claimed then claimed else claimed + {s[0].account}); }
  }

  lemma LoadingKeepsIds(s: seq<Identity>)
    ensures SameIds(Loaded(s), s)
  {
    SettledKeepsIds(s, {});
    FilledKeepsIds(Settled(s, {}), Claimed(s));
  }

  // Sending

  /** The identity a draft is sent from: the one it names if that is of the account, else the account's first. */
  function Resolve(s: seq<Identity>, account: nat, wanted: Option<nat>): (r: Option<Identity>)
    ensures r.Some? ==> r.value in s && r.value.account == account
    ensures r.None? <==> Members(s, account) == 0
  {
    if Members(s, account) == 0 then None
    else
      var named := if wanted.Some? then Find(Of(s, account), wanted.value) else None;
      if named.Some? then named else Some(FirstOf(s, account))
  }

  lemma PrecedesIsOrder()
    ensures IsOrder(Precedes)
  {
  }

  lemma FirstIsDefault(s: seq<Identity>, account: nat)
    requires Members(s, account) > 0 && Defaults(s, account) > 0
    ensures FirstOf(s, account).isDefault
  {
    var all := Of(s, account);
    var sorted := Sort(all, Precedes);
    assert Sorted(sorted, Precedes) by {
      PrecedesIsOrder();
      SortSorts(all, Precedes);
    }
    var d := DefaultOf(s, account);
    SameMembers(all, sorted, d);
    var k :| 0 <= k < |sorted| && sorted[k] == d;
    assert k > 0 ==> !Precedes(sorted[k], sorted[0]);
  }

  /** Without a usable request it is the account's default. */
  lemma UnnamedDraftsUseTheDefault(s: seq<Identity>, account: nat, wanted: Option<nat>)
    requires Inv(s) && Members(s, account) > 0
    requires wanted.Some? ==> forall x :: x in s && x.account == account ==> x.id != wanted.value
    ensures Resolve(s, account, wanted).Some? && Resolve(s, account, wanted).value.isDefault
  {
    FirstIsDefault(s, account);
  }

  lemma {:induction false} DefaultOf(s: seq<Identity>, account: nat) returns (x: Identity)
    requires Defaults(s, account) > 0
    ensures x in s && x.account == account && x.isDefault
  {
    if s[0].account == account && s[0].isDefault { x := s[0]; } else { x := DefaultOf(s[1..], account); }
  }
}
