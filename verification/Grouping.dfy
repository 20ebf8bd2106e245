/** From linked messages to the list of conversations. */
module Grouping {
  import opened Basics
  import opened Conversations
  import opened Lists
  import opened Sorting
  import opened UnionFind

  const MESSAGE_LIMIT := 2000

  datatype ThreadId = OfMessage(id: nat) | OfConversation(id: nat)

  /** The newest message gives a conversation its subject and its place in the list. */
  datatype Conversation = Conversation(id: ThreadId, newest: Message, messages: seq<Message>, unread: nat, accounts: seq<nat>)

  datatype Grouping = Grouping(conversations: seq<Conversation>, limited: bool)

  predicate Later(d: Option<int>, e: Option<int>) {
    d.Some? && (e.None? || d.value > e.value)
  }

  /** Newest first; messages of one date in the order of their ids. */
  predicate Newer(m: Message, n: Message) {
    Later(m.date, n.date) || (m.date == n.date && m.id < n.id)
  }

  predicate Ahead(c: Conversation, d: Conversation) {
    Newer(c.newest, d.newest) || (!Newer(d.newest, c.newest) && c.id.id < d.id.id)
  }

  lemma OrdersAreOrders()
    ensures IsOrder(Newer) && IsOrder(Ahead)
  {
  }

  function CountUnread(ms: seq<Message>): nat {
    if ms == [] then 0 else (if ms[0].unread then 1 else 0) + CountUnread(ms[1..])
  }

  function LeastId(ms: seq<Message>): (least: nat)
    requires |ms| > 0
    ensures exists m :: m in ms && m.id == least
    ensures forall m :: m in ms ==> least <= m.id
  {
    if |ms| == 1 then
      assert ms[0] in ms;
      ms[0].id
    else
      var rest := LeastId(ms[1..]);
      assert ms[0] in ms && forall m :: m in ms ==> m == ms[0] || m in ms[1..];
      if ms[0].id <= rest then ms[0].id else rest
  }

  function AccountsOf(ms: seq<Message>): (r: seq<nat>)
    ensures forall a :: a in r <==> exists m :: m in ms && m.account == a
    ensures forall i, j :: 0 <= i < j < |r| ==> r[i] < r[j]
  {
    if ms == [] then [] else
      assert ms[0] in ms && forall m :: m in ms <==> m == ms[0] || m in ms[1..];
      WithAccount(ms[0].account, AccountsOf(ms[1..]))
  }

  lemma LeastComesFirst(s: seq<nat>, a: nat, rest: seq<nat>)
    requires s != [] && s[0] < a && forall i, j :: 0 <= i < j < |s| ==> s[i] < s[j]
    requires forall b :: b in rest <==> b == a || b in s[1..]
    ensures forall k :: 0 <= k < |rest| ==> s[0] < rest[k]
  {
    forall k | 0 <= k < |rest| ensures s[0] < rest[k] {
      assert rest[k] in rest;
      assert forall i :: 0 <= i < |s[1..]| ==> s[1..][i] == s[i + 1];
    }
  }

  function WithAccount(a: nat, s: seq<nat>): (r: seq<nat>)
    requires forall i, j :: 0 <= i < j < |s| ==> s[i] < s[j]
    ensures forall b :: b in r <==> b == a || b in s
    ensures forall i, j :: 0 <= i < j < |r| ==> r[i] < r[j]
  {
    if s == [] || a < s[0] then [a] + s
    else if a == s[0] then s
    else
      var rest := WithAccount(a, s[1..]);
      LeastComesFirst(s, a, rest);
      [s[0]] + rest
  }

  function Singleton(m: Message): Conversation {
    Conversation(OfMessage(m.id), m, [m], if m.unread then 1 else 0, [m.account])
  }

  /** A conversation of messages that are already in order. */
  function Summary(sorted: seq<Message>): Conversation
    requires |sorted| > 0
  {
    Conversation(OfConversation(LeastId(sorted)), sorted[0], sorted, CountUnread(sorted), AccountsOf(sorted))
  }

  function Threads(conversations: seq<Conversation>): seq<seq<Message>> {
    seq(|conversations|, c requires 0 <= c < |conversations| => conversations[c].messages)
  }

  function AllMessages(conversations: seq<Conversation>): seq<Message> {
    Flatten(Threads(conversations))
  }

  // Collecting the components

  /** The places of component c are the indices below n whose root has slot c, in increasing order. */
  ghost predicate Split(roots: seq<nat>, slot: map<nat, nat>, places: seq<seq<nat>>, n: nat) {
    && n <= |roots|
    && SlotsOf(slot, |places|)
    && (forall i :: 0 <= i < n ==> roots[i] in slot && i in places[slot[roots[i]]])
    && (forall c :: 0 <= c < |places| ==> IsSlot(roots, slot, places[c], c, n))
  }

  ghost predicate SlotsOf(slot: map<nat, nat>, count: nat) {
    && (forall r :: r in slot ==> slot[r] < count)
    && (forall r, q :: r in slot && q in slot && slot[r] == slot[q] ==> r == q)
  }

  ghost predicate IsSlot(roots: seq<nat>, slot: map<nat, nat>, at: seq<nat>, c: nat, n: nat)
    requires n <= |roots|
  {
    && |at| > 0
    && (forall k :: 0 <= k < |at| ==> at[k] < n && roots[at[k]] in slot && slot[roots[at[k]]] == c)
    && (forall k, l :: 0 <= k < l < |at| ==> at[k] < at[l])
  }

  /** The components hold the messages at these places. */
  ghost predicate Picked(ms: seq<Message>, components: seq<seq<Message>>, places: seq<seq<nat>>) {
    && |places| == |components|
    && forall c :: 0 <= c < |places| ==> IsPick(ms, components[c], places[c])
  }

  ghost predicate IsPick(ms: seq<Message>, component: seq<Message>, at: seq<nat>) {
    && |at| == |component|
    && (forall k :: 0 <= k < |at| ==> at[k] < |ms| && component[k] == ms[at[k]])
  }

  lemma NewSlot(roots: seq<nat>, slot: map<nat, nat>, places: seq<seq<nat>>, n: nat)
    requires n < |roots| && Split(roots, slot, places, n) && roots[n] !in slot
    ensures Split(roots, slot[roots[n] := |places|], places + [[n]], n + 1)
  {
    var slot', places' := slot[roots[n] := |places|], places + [[n]];
    forall c | 0 <= c < |places'| ensures IsSlot(roots, slot', places'[c], c, n + 1) {
      if c < |places| { assert IsSlot(roots, slot, places[c], c, n); }
    }
    forall i | 0 <= i < n + 1 ensures i in places'[slot'[roots[i]]] {
      if i < n { assert i in places[slot[roots[i]]]; }
    }
  }

  lemma KnownSlot(roots: seq<nat>, slot: map<nat, nat>, places: seq<seq<nat>>, n: nat)
    requires n < |roots| && Split(roots, slot, places, n) && roots[n] in slot
    ensures var c := slot[roots[n]];
            Split(roots, slot, places[c := places[c] + [n]], n + 1)
  {
    var c := slot[roots[n]];
    var places' := places[c := places[c] + [n]];
    forall d | 0 <= d < |places'| ensures IsSlot(roots, slot, places'[d], d, n + 1) {
      assert IsSlot(roots, slot, places[d], d, n);
    }
    forall i | 0 <= i < n + 1 ensures i in places'[slot[roots[i]]] {
      if i < n { assert i in places[slot[roots[i]]]; }
      assert places'[c][|places[c]|] == n;
    }
  }

  lemma {:induction false} PushCounts(components: seq<seq<Message>>, c: nat, m: Message)
    requires c < |components|
    ensures multiset(Flatten(components[c := components[c] + [m]])) == multiset(Flatten(components)) + multiset{m}
  {
    var pushed := components[c := components[c] + [m]];
    if c == 0 {
      assert pushed[1..] == components[1..];
    } else {
      PushCounts(components[1..], c - 1, m);
      assert pushed[1..] == components[1..][c - 1 := components[c] + [m]];
    }
  }

  lemma {:induction false} AddCounts(components: seq<seq<Message>>, m: Message)
    ensures multiset(Flatten(components + [[m]])) == multiset(Flatten(components)) + multiset{m}
  {
    if components != [] {
      AddCounts(components[1..], m);
      assert (components + [[m]])[1..] == components[1..] + [[m]];
    } else {
      assert (components + [[m]])[1..] == [];
    }
  }

  /** The first n messages have been put into the components of their roots. */
  ghost predicate Collected(ms: seq<Message>, roots: seq<nat>, slot: map<nat, nat>, components: seq<seq<Message>>, places: seq<seq<nat>>, n: nat) {
    && n <= |ms| == |roots|
    && Split(roots, slot, places, n) && Picked(ms, components, places)
    && multiset(Flatten(components)) == multiset(ms[..n])
  }

  lemma PickIntoNew(ms: seq<Message>, components: seq<seq<Message>>, places: seq<seq<nat>>, n: nat)
    requires n < |ms| && Picked(ms, components, places)
    ensures Picked(ms, components + [[ms[n]]], places + [[n]])
  {
    assert IsPick(ms, [ms[n]], [n]);
  }

  lemma PickIntoKnown(ms: seq<Message>, components: seq<seq<Message>>, places: seq<seq<nat>>, n: nat, c: nat)
    requires n < |ms| && Picked(ms, components, places) && c < |components|
    ensures Picked(ms, components[c := components[c] + [ms[n]]], places[c := places[c] + [n]])
  {
    assert IsPick(ms, components[c], places[c]);
    assert IsPick(ms, components[c] + [ms[n]], places[c] + [n]);
  }

  lemma CountOneMore(ms: seq<Message>, n: nat)
    requires n < |ms|
    ensures multiset(ms[..n + 1]) == multiset(ms[..n]) + multiset{ms[n]}
  {
    assert ms[..n + 1] == ms[..n] + [ms[n]];
  }

  lemma IntoNewComponent(ms: seq<Message>, roots: seq<nat>, slot: map<nat, nat>, components: seq<seq<Message>>, places: seq<seq<nat>>, n: nat)
    requires n < |ms| && Collected(ms, roots, slot, components, places, n) && roots[n] !in slot
    ensures Collected(ms, roots, slot[roots[n] := |components|], components + [[ms[n]]], places + [[n]], n + 1)
  {
    assert Split(roots, slot[roots[n] := |components|], places + [[n]], n + 1) by { NewSlot(roots, slot, places, n); }
    PickIntoNew(ms, components, places, n);
    assert multiset(Flatten(components + [[ms[n]]])) == multiset(ms[..n + 1]) by {
      AddCounts(components, ms[n]);
      CountOneMore(ms, n);
    }
  }

  lemma IntoKnownComponent(ms: seq<Message>, roots: seq<nat>, slot: map<nat, nat>, components: seq<seq<Message>>, places: seq<seq<nat>>, n: nat)
    requires n < |ms| && Collected(ms, roots, slot, components, places, n) && roots[n] in slot
    ensures var c := slot[roots[n]];
            Collected(ms, roots, slot, components[c := components[c] + [ms[n]]], places[c := places[c] + [n]], n + 1)
  {
    var c := slot[roots[n]];
    assert Split(roots, slot, places[c := places[c] + [n]], n + 1) by { KnownSlot(roots, slot, places, n); }
    PickIntoKnown(ms, components, places, n, c);
    assert multiset(Flatten(components[c := components[c] + [ms[n]]])) == multiset(ms[..n + 1]) by {
      PushCounts(components, c, ms[n]);
      CountOneMore(ms, n);
    }
  }

  lemma NothingCollected(ms: seq<Message>, roots: seq<nat>)
    requires |ms| == |roots|
    ensures Collected(ms, roots, map[], [], [], 0)
  {
  }

  lemma SameRootsSameList(f: Forest, g: Forest)
    requires SameRoots(f, g)
    ensures f.Roots() == g.Roots()
    ensures forall i :: 0 <= i < |f.links| ==> f.Roots()[i] == f.Root(i)
  {
  }

  /** Message n joins the component of its root, or begins one. */
  method AddMember(ms: seq<Message>, root: nat, ghost roots: seq<nat>, slots: map<nat, nat>,
        components: seq<seq<Message>>, ghost places: seq<seq<nat>>, n: nat)
      returns (slots': map<nat, nat>, components': seq<seq<Message>>, ghost places': seq<seq<nat>>)
    requires n < |ms| && Collected(ms, roots, slots, components, places, n) && root == roots[n]
    ensures Collected(ms, roots, slots', components', places', n + 1)
  {
    if root in slots {
      var c := slots[root];
      IntoKnownComponent(ms, roots, slots, components, places, n);
      return slots, components[c := components[c] + [ms[n]]], places[c := places[c] + [n]];
    } else {
      IntoNewComponent(ms, roots, slots, components, places, n);
      return slots[root := |components|], components + [[ms[n]]], places + [[n]];
    }
  }

  /** Collects each tree in the order of the messages. */
  method Collect(ms: seq<Message>, parents: Parents)
      returns (components: seq<seq<Message>>, ghost slot: map<nat, nat>, ghost places: seq<seq<nat>>)
    requires parents.Valid() && parents.links.Length == |ms|
    modifies parents, parents.links
    ensures Collected(ms, old(parents.forest.Roots()), slot, components, places, |ms|)
  {
    ghost var roots := parents.forest.Roots();
    components, places := [], [];
    var slots: map<nat, nat> := map[];
    var index: nat := 0;
    NothingCollected(ms, roots);
    while index < |ms|
      invariant index <= |ms| && parents.Valid() && parents.forest.Roots() == roots
      invariant Collected(ms, roots, slots, components, places, index)
    {
      ghost var before := parents.forest;
      var root: nat := parents.Find(index);
      SameRootsSameList(before, parents.forest);
      slots, components, places := AddMember(ms, root, roots, slots, components, places, index);
      index := index + 1;
    }
    slot := slots;
  }

  // What a grouping is, without indices, trees or an order of the messages

  function Members(ms: seq<Message>): set<Message> {
    set m | m in ms
  }

  ghost predicate IsTrail(all: set<Message>, path: seq<Message>) {
    && |path| > 0
    && (forall k :: 0 <= k < |path| ==> path[k] in all)
    && (forall k :: 0 <= k < |path| - 1 ==> Share(path[k], path[k + 1]))
  }

  ghost predicate Connects(all: set<Message>, path: seq<Message>, x: Message, y: Message) {
    IsTrail(all, path) && path[0] == x && path[|path| - 1] == y
  }

  /** Shared subjects and references lead from x to y within this set of messages. */
  ghost predicate Related(all: set<Message>, x: Message, y: Message) {
    exists path :: Connects(all, path, x, y)
  }

  lemma ChainsRelate(ms: seq<Message>, i: nat, j: nat)
    requires Chained(ms, i, j)
    ensures i < |ms| && j < |ms| && Related(Members(ms), ms[i], ms[j])
  {
    var path :| Joins(ms, path, i, j);
    var trail := seq(|path|, k requires 0 <= k < |path| => ms[path[k]]);
    assert Connects(Members(ms), trail, ms[i], ms[j]);
  }

  lemma {:induction false} TrailsChain(ms: seq<Message>, trail: seq<Message>, i: nat) returns (j: nat)
    requires IsTrail(Members(ms), trail) && i < |ms| && ms[i] == trail[0]
    ensures j < |ms| && ms[j] == trail[|trail| - 1] && Chained(ms, i, j)
  {
    if |trail| == 1 {
      ChainOfOne(ms, i);
      j := i;
    } else {
      var next: nat :| next < |ms| && ms[next] == trail[1];
      assert Share(trail[0], trail[0 + 1]);
      ChainOfTwo(ms, i, next);
      j := TrailsChain(ms, trail[1..], next);
      ChainsJoin(ms, i, next, j);
    }
  }

  ghost predicate IsClass(all: set<Message>, group: seq<Message>) {
    |group| > 0 && forall x, y :: x in group ==> (y in group <==> Related(all, x, y))
  }

  /** Each conversation sums up all messages related to any one of its messages, and every message is in one place. */
  ghost predicate IsGrouping(ms: seq<Message>, conversations: seq<Conversation>) {
    && multiset(AllMessages(conversations)) == multiset(ms)
    && (forall c :: 0 <= c < |conversations| ==> IsConversation(Members(ms), conversations[c]))
    && Sorted(conversations, Ahead)
  }

  ghost predicate IsConversation(all: set<Message>, c: Conversation) {
    && IsClass(all, c.messages)
    && c == Summary(c.messages)
    && Sorted(c.messages, Newer)
  }

  lemma ComponentsAreClasses(ms: seq<Message>, f: Forest, slot: map<nat, nat>, components: seq<seq<Message>>, places: seq<seq<nat>>, c: nat)
    requires TreesAreChains(ms, f) && Collected(ms, f.Roots(), slot, components, places, |ms|) && c < |components|
    ensures IsClass(Members(ms), components[c])
  {
    var roots, at, group := f.Roots(), places[c], components[c];
    assert IsSlot(roots, slot, at, c, |ms|) && IsPick(ms, group, at);
    forall x, y | x in group ensures y in group <==> Related(Members(ms), x, y) {
      var k :| 0 <= k < |group| && group[k] == x;
      if y in group {
        var l :| 0 <= l < |group| && group[l] == y;
        assert roots[at[k]] == roots[at[l]];
        ChainsRelate(ms, at[k], at[l]);
      }
      if Related(Members(ms), x, y) {
        var trail :| Connects(Members(ms), trail, x, y);
        var j := TrailsChain(ms, trail, at[k]);
        assert roots[j] == roots[at[k]];
        assert j in places[slot[roots[j]]];
        var l :| 0 <= l < |at| && at[l] == j;
        assert group[l] == y;
      }
    }
  }

  function Summaries(components: seq<seq<Message>>): (r: seq<Conversation>)
    requires forall c :: 0 <= c < |components| ==> |components[c]| > 0
  {
    seq(|components|, c requires 0 <= c < |components| => Summary(Sort(components[c], Newer)))
  }

  lemma {:induction false} PartwiseCounts(a: seq<seq<Message>>, b: seq<seq<Message>>)
    requires |a| == |b| && forall k :: 0 <= k < |a| ==> multiset(a[k]) == multiset(b[k])
    ensures multiset(Flatten(a)) == multiset(Flatten(b))
  {
    if a != [] {
      PartwiseCounts(a[1..], b[1..]);
      CountFirst(a);
      CountFirst(b);
    }
  }

  lemma CountFirst(parts: seq<seq<Message>>)
    requires parts != []
    ensures multiset(Flatten(parts)) == multiset(parts[0]) + multiset(Flatten(parts[1..]))
  {
  }

  lemma SummariesKeepMessages(components: seq<seq<Message>>)
    requires forall c :: 0 <= c < |components| ==> |components[c]| > 0
    ensures multiset(AllMessages(Summaries(components))) == multiset(Flatten(components))
  {
    var threads := Threads(Summaries(components));
    forall k | 0 <= k < |components| ensures multiset(threads[k]) == multiset(components[k]) {
      assert threads[k] == Sort(components[k], Newer);
    }
    PartwiseCounts(threads, components);
  }

  lemma AllMessagesIgnoresOrder(a: seq<Conversation>, b: seq<Conversation>)
    requires multiset(a) == multiset(b)
    ensures multiset(AllMessages(a)) == multiset(AllMessages(b))
  {
    var messages := (c: Conversation) => c.messages;
    MapIgnoresOrder(messages, a, b);
    FlattenIgnoresOrder(Map(messages, a), Map(messages, b));
    assert Map(messages, a) == Threads(a) && Map(messages, b) == Threads(b);
  }

  lemma SummaryIsConversation(all: set<Message>, group: seq<Message>)
    requires IsClass(all, group)
    ensures IsConversation(all, Summary(Sort(group, Newer)))
  {
    OrdersAreOrders();
    SortSorts(group, Newer);
    forall x ensures x in group <==> x in Sort(group, Newer) {
      SameMembers(group, Sort(group, Newer), x);
    }
  }

  lemma SummariesAreConversations(all: set<Message>, components: seq<seq<Message>>, c: Conversation)
    requires forall k :: 0 <= k < |components| ==> |components[k]| > 0 && IsClass(all, components[k])
    requires c in Summaries(components)
    ensures IsConversation(all, c)
  {
    var k :| 0 <= k < |components| && Summaries(components)[k] == c;
    SummaryIsConversation(all, components[k]);
  }

  lemma SortedSummariesAreAGrouping(ms: seq<Message>, components: seq<seq<Message>>)
    requires multiset(Flatten(components)) == multiset(ms)
    requires forall c :: 0 <= c < |components| ==> |components[c]| > 0 && IsClass(Members(ms), components[c])
    ensures IsGrouping(ms, Sort(Summaries(components), Ahead))
  {
    var summaries := Summaries(components);
    var conversations := Sort(summaries, Ahead);
    assert multiset(AllMessages(conversations)) == multiset(ms) by {
      SummariesKeepMessages(components);
      AllMessagesIgnoresOrder(summaries, conversations);
    }
    assert Sorted(conversations, Ahead) by {
      OrdersAreOrders();
      SortSorts(summaries, Ahead);
    }
    forall c | 0 <= c < |conversations| ensures IsConversation(Members(ms), conversations[c]) {
      SameMembers(conversations, summaries, conversations[c]);
      SummariesAreConversations(Members(ms), components, conversations[c]);
    }
  }

  lemma ComponentsMakeAGrouping(ms: seq<Message>, f: Forest, slot: map<nat, nat>, components: seq<seq<Message>>, places: seq<seq<nat>>)
    requires TreesAreChains(ms, f) && Collected(ms, f.Roots(), slot, components, places, |ms|)
    ensures forall c :: 0 <= c < |components| ==> |components[c]| > 0
    ensures IsGrouping(ms, Sort(Summaries(components), Ahead))
  {
    assert ms[..|ms|] == ms;
    forall c | 0 <= c < |components| ensures |components[c]| > 0 && IsClass(Members(ms), components[c]) {
      ComponentsAreClasses(ms, f, slot, components, places, c);
    }
    SortedSummariesAreAGrouping(ms, components);
  }

  /** Up to the limit, the conversations are the classes of related messages; beyond it, every message stands alone. */
  method Group(ms: seq<Message>) returns (grouping: Grouping)
    ensures grouping.limited <==> |ms| > MESSAGE_LIMIT
    ensures grouping.limited ==>
              |grouping.conversations| == |ms| && forall i :: 0 <= i < |ms| ==> grouping.conversations[i] == Singleton(ms[i])
    ensures !grouping.limited ==> IsGrouping(ms, grouping.conversations)
  {
    if |ms| > MESSAGE_LIMIT {
      return Grouping(seq(|ms|, i requires 0 <= i < |ms| => Singleton(ms[i])), true);
    }
    var parents := LinkMessages(ms);
    ghost var f := parents.forest;
    var components;
    ghost var slot, places;
    components, slot, places := Collect(ms, parents);
    ComponentsMakeAGrouping(ms, f, slot, components, places);
    return Grouping(Sort(Summaries(components), Ahead), false);
  }

  // The grouping does not depend on the order of the messages

  ghost predicate DistinctIds(ms: seq<Message>) {
    forall i, j :: 0 <= i < j < |ms| ==> ms[i].id != ms[j].id
  }

  lemma PermutationKeepsDistinct(ms: seq<Message>, s: seq<Message>)
    requires DistinctIds(ms) && multiset(s) == multiset(ms)
    ensures DistinctIds(s) && Unique(s)
  {
    PermutationKeepsUnique(ms, s);
    forall i, j | 0 <= i < j < |s| ensures s[i].id != s[j].id {
      SameMembers(s, ms, s[i]);
      SameMembers(s, ms, s[j]);
    }
  }

  lemma IdsTellApart(conversations: seq<Conversation>, c: nat, d: nat, x: Message, y: Message)
    requires DistinctIds(AllMessages(conversations)) && c < |conversations| && d < |conversations|
    requires x in conversations[c].messages && y in conversations[d].messages && x != y
    ensures x.id != y.id
  {
    InFlatten(Threads(conversations), c, x);
    InFlatten(Threads(conversations), d, y);
  }

  /** With distinct ids no two messages tie. */
  lemma MessagesDoNotTie(conversations: seq<Conversation>, c: nat)
    requires DistinctIds(AllMessages(conversations)) && Unique(AllMessages(conversations))
    requires c < |conversations| && Sorted(conversations[c].messages, Newer)
    ensures StrictlySorted(conversations[c].messages, Newer)
  {
    var group := conversations[c].messages;
    PartsAreUnique(Threads(conversations), c);
    forall i, j | 0 <= i < j < |group| ensures Newer(group[i], group[j]) {
      IdsTellApart(conversations, c, c, group[i], group[j]);
    }
  }

  /** With distinct ids no two conversations tie. */
  lemma ConversationsDoNotTie(conversations: seq<Conversation>)
    requires DistinctIds(AllMessages(conversations)) && Unique(AllMessages(conversations))
    requires Sorted(conversations, Ahead)
    requires forall c :: 0 <= c < |conversations| ==> conversations[c].newest in conversations[c].messages
    ensures StrictlySorted(conversations, Ahead)
  {
    forall c, d | 0 <= c < d < |conversations| ensures Ahead(conversations[c], conversations[d]) {
      PartsAreDisjoint(Threads(conversations), c, d);
      assert conversations[d].newest in Threads(conversations)[d] && conversations[c].newest in Threads(conversations)[c];
      IdsTellApart(conversations, c, d, conversations[c].newest, conversations[d].newest);
    }
  }

  /** A grouping of messages with distinct ids leaves nothing to chance. */
  lemma NothingTies(ms: seq<Message>, conversations: seq<Conversation>)
    requires DistinctIds(ms) && IsGrouping(ms, conversations)
    ensures StrictlySorted(conversations, Ahead)
    ensures forall c :: 0 <= c < |conversations| ==> StrictlySorted(conversations[c].messages, Newer)
  {
    PermutationKeepsDistinct(ms, AllMessages(conversations));
    forall c | 0 <= c < |conversations|
      ensures conversations[c].newest in conversations[c].messages
      ensures StrictlySorted(conversations[c].messages, Newer)
    {
      assert IsConversation(Members(ms), conversations[c]);
      MessagesDoNotTie(conversations, c);
    }
    ConversationsDoNotTie(conversations);
  }

  lemma ClassesMeet(all: set<Message>, g: seq<Message>, h: seq<Message>, x: Message)
    requires IsClass(all, g) && IsClass(all, h) && x in g && x in h
    ensures forall y :: y in g <==> y in h
  {
  }

  lemma ConversationsRecur(ms: seq<Message>, a: seq<Conversation>, ms': seq<Message>, b: seq<Conversation>, c: nat)
    requires DistinctIds(ms) && multiset(ms) == multiset(ms') && Members(ms) == Members(ms')
    requires IsGrouping(ms, a) && IsGrouping(ms', b) && c < |a|
    ensures a[c] in b
  {
    PermutationKeepsDistinct(ms, ms');
    assert IsConversation(Members(ms), a[c]);
    var x := a[c].messages[0];
    InFlatten(Threads(a), c, x);
    SameMembers(AllMessages(a), AllMessages(b), x);
    var d := HolderOf(Threads(b), x);
    assert IsConversation(Members(ms), b[d]);
    NothingTies(ms, a);
    NothingTies(ms', b);
    OrdersAreOrders();
    ClassesMeet(Members(ms), a[c].messages, b[d].messages, x);
    StrictlySortedIsUnique(a[c].messages, b[d].messages, Newer);
  }

  /** However the messages are ordered, there is one grouping of them. */
  lemma GroupingIgnoresOrder(ms: seq<Message>, a: seq<Conversation>, ms': seq<Message>, b: seq<Conversation>)
    requires DistinctIds(ms) && multiset(ms) == multiset(ms')
    requires IsGrouping(ms, a) && IsGrouping(ms', b)
    ensures a == b
  {
    forall m ensures m in ms <==> m in ms' { SameMembers(ms, ms', m); }
    assert Members(ms) == Members(ms');
    PermutationKeepsDistinct(ms, ms');
    forall k ensures k in a <==> k in b {
      if k in a {
        var c :| 0 <= c < |a| && a[c] == k;
        ConversationsRecur(ms, a, ms', b, c);
      }
      if k in b {
        var c :| 0 <= c < |b| && b[c] == k;
        ConversationsRecur(ms', b, ms, a, c);
      }
    }
    NothingTies(ms, a);
    NothingTies(ms', b);
    OrdersAreOrders();
    StrictlySortedIsUnique(a, b, Ahead);
  }

  // Unread messages are counted once

  function UnreadTotal(conversations: seq<Conversation>): nat {
    if conversations == [] then 0 else conversations[0].unread + UnreadTotal(conversations[1..])
  }

  lemma {:induction false} CountOfConcat(a: seq<Message>, b: seq<Message>)
    ensures CountUnread(a + b) == CountUnread(a) + CountUnread(b)
  {
    if a == [] {
      assert a + b == b;
    } else {
      CountOfConcat(a[1..], b);
      assert (a + b)[1..] == a[1..] + b;
    }
  }

  lemma {:induction false} CountIgnoresOrder(a: seq<Message>, b: seq<Message>)
    requires multiset(a) == multiset(b)
    ensures CountUnread(a) == CountUnread(b)
  {
    if a == [] {
      assert |multiset(b)| == 0;
    } else {
      var k := RemoveOne(a, b);
      CountIgnoresOrder(a[1..], b[..k] + b[k + 1..]);
      CountOfConcat(b[..k], b[k + 1..]);
      CountOfConcat(b[..k], [a[0]] + b[k + 1..]);
      assert ([a[0]] + b[k + 1..])[1..] == b[k + 1..];
    }
  }

  lemma {:induction false} TotalsAdd(conversations: seq<Conversation>)
    requires forall c :: 0 <= c < |conversations| ==> conversations[c].unread == CountUnread(conversations[c].messages)
    ensures UnreadTotal(conversations) == CountUnread(AllMessages(conversations))
  {
    if conversations != [] {
      var rest := conversations[1..];
      TotalsAdd(rest);
      assert Threads(conversations)[1..] == Threads(rest);
      CountOfConcat(conversations[0].messages, AllMessages(rest));
      assert AllMessages(conversations) == conversations[0].messages + AllMessages(rest);
    }
  }

  /** The unread counts of the conversations add up to the unread messages of the input. */
  lemma UnreadIsConserved(ms: seq<Message>, conversations: seq<Conversation>)
    requires IsGrouping(ms, conversations)
    ensures UnreadTotal(conversations) == CountUnread(ms)
  {
    forall c | 0 <= c < |conversations| ensures conversations[c].unread == CountUnread(conversations[c].messages) {
      assert IsConversation(Members(ms), conversations[c]);
    }
    TotalsAdd(conversations);
    CountIgnoresOrder(AllMessages(conversations), ms);
  }
}
