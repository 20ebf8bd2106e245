/** Which messages belong together: keys, chains of shared keys, and the union-find that follows them. */
module Conversations {
  import opened Basics
  import opened UnionFind

  const REFERENCE_LIMIT := 100

  /** A message whose subject and references have been normalized; None is a reference that is absent or refused.
      Ids stand for their place in the order of message ids; a date is None when it cannot be read. */
  datatype Message = Message(id: nat, account: nat, subject: string,
                             messageId: Option<string>, inReplyTo: Option<string>, references: seq<Option<string>>,
                             date: Option<int>, unread: bool)

  datatype Key = Subject(text: string) | Reference(token: string)

  function Present(values: seq<Option<string>>): (tokens: seq<string>) {
    if values == [] then []
    else (if values[0].Some? && values[0].value != "" then [values[0].value] else []) + Present(values[1..])
  }

  /** The tokens without repetition, first occurrences first. */
  function Distinct(tokens: seq<string>): (r: seq<string>)
    ensures forall t :: t in r <==> t in tokens
  {
    if tokens == [] then []
    else
      var last := tokens[|tokens| - 1];
      var r := Distinct(tokens[..|tokens| - 1]);
      if last in r then r else r + [last]
  }

  function Tokens(m: Message): seq<string> {
    var cited := if |m.references| > REFERENCE_LIMIT then m.references[..REFERENCE_LIMIT] else m.references;
    Distinct(Present([m.messageId, m.inReplyTo] + cited))
  }

  function Keys(m: Message): seq<Key> {
    var tokens := Tokens(m);
    (if m.subject != "" && m.subject != "(no subject)" then [Subject(m.subject)] else [])
      + seq(|tokens|, i requires 0 <= i < |tokens| => Reference(tokens[i]))
  }

  // Chains of shared keys

  ghost predicate Share(m: Message, n: Message) {
    exists key :: key in Keys(m) && key in Keys(n)
  }

  ghost predicate IsChain(ms: seq<Message>, path: seq<nat>) {
    && |path| > 0
    && (forall k :: 0 <= k < |path| ==> path[k] < |ms|)
    && (forall k :: 0 <= k < |path| - 1 ==> Share(ms[path[k]], ms[path[k + 1]]))
  }

  ghost predicate Joins(ms: seq<Message>, path: seq<nat>, i: nat, j: nat) {
    IsChain(ms, path) && path[0] == i && path[|path| - 1] == j
  }

  /** A chain of shared subjects or reference tokens leads from message i to message j. */
  ghost predicate Chained(ms: seq<Message>, i: nat, j: nat) {
    exists path :: Joins(ms, path, i, j)
  }

  lemma ChainOfOne(ms: seq<Message>, i: nat)
    requires i < |ms|
    ensures Chained(ms, i, i)
  {
    assert Joins(ms, [i], i, i);
  }

  lemma ChainOfTwo(ms: seq<Message>, i: nat, j: nat)
    requires i < |ms| && j < |ms| && Share(ms[i], ms[j])
    ensures Chained(ms, i, j) && Chained(ms, j, i)
  {
    assert Joins(ms, [i, j], i, j);
    assert Joins(ms, [j, i], j, i);
  }

  lemma ChainsJoin(ms: seq<Message>, i: nat, j: nat, k: nat)
    requires Chained(ms, i, j) && Chained(ms, j, k)
    ensures Chained(ms, i, k)
  {
    var p :| Joins(ms, p, i, j);
    var q :| Joins(ms, q, j, k);
    var path := p + q[1..];
    forall n | 0 <= n < |path| - 1 ensures Share(ms[path[n]], ms[path[n + 1]]) {
      if n >= |p| - 1 {
        assert path[n] == q[n - (|p| - 1)];
        assert path[n + 1] == q[n - (|p| - 1) + 1];
      }
    }
    assert Joins(ms, path, i, k);
  }

  // What the pass over the messages has established

  /** Key number k' of message j has been looked at once keys 0..k of message index, and all of the earlier messages, have. */
  ghost predicate Seen(ms: seq<Message>, index: nat, k: nat, j: nat, key: Key) {
    && j < |ms|
    && (|| (j < index && key in Keys(ms[j]))
        || (j == index && k <= |Keys(ms[j])| && key in Keys(ms[j])[..k]))
  }

  ghost predicate FirstHolders(ms: seq<Message>, first: map<Key, nat>) {
    forall key :: key in first ==> first[key] < |ms| && key in Keys(ms[first[key]])
  }

  /** Whoever has shown a key is in the tree of the first message that has shown it. */
  ghost predicate Complete(ms: seq<Message>, f: Forest, first: map<Key, nat>, index: nat, k: nat) {
    && f.Valid() && |f.links| == |ms| && FirstHolders(ms, first)
    && forall j, key :: Seen(ms, index, k, j, key) ==> key in first && f.Root(j) == f.Root(first[key])
  }

  /** Only chained messages share a tree. */
  ghost predicate Sound(ms: seq<Message>, f: Forest) {
    && f.Valid() && |f.links| == |ms|
    && forall i, j :: 0 <= i < |ms| && 0 <= j < |ms| && f.Root(i) == f.Root(j) ==> Chained(ms, i, j)
  }

  lemma NextKeySeen(ms: seq<Message>, index: nat, k: nat, j: nat, key: Key)
    requires index < |ms| && k < |Keys(ms[index])| && Seen(ms, index, k + 1, j, key)
    ensures Seen(ms, index, k, j, key) || (j == index && key == Keys(ms[index])[k])
  {
    var keys := Keys(ms[index]);
    assert keys[..k + 1] == keys[..k] + [keys[k]];
  }

  lemma NextMessageSeen(ms: seq<Message>, index: nat, j: nat, key: Key)
    requires index < |ms| && Seen(ms, index + 1, 0, j, key)
    ensures Seen(ms, index, |Keys(ms[index])|, j, key)
  {
    assert Keys(ms[index])[..|Keys(ms[index])|] == Keys(ms[index]);
  }

  lemma FirstShowing(ms: seq<Message>, f: Forest, first: map<Key, nat>, index: nat, k: nat)
    requires index < |ms| && k < |Keys(ms[index])| && Complete(ms, f, first, index, k)
    requires Keys(ms[index])[k] !in first
    ensures Complete(ms, f, first[Keys(ms[index])[k] := index], index, k + 1)
  {
    var first', next := first[Keys(ms[index])[k] := index], k + 1;
    forall j, key | Seen(ms, index, next, j, key) ensures key in first' && f.Root(j) == f.Root(first'[key]) {
      NextKeySeen(ms, index, k, j, key);
    }
  }

  lemma LaterShowing(ms: seq<Message>, f: Forest, g: Forest, first: map<Key, nat>, index: nat, k: nat)
    requires index < |ms| && k < |Keys(ms[index])| && Complete(ms, f, first, index, k)
    requires Keys(ms[index])[k] in first && Joined(f, g, first[Keys(ms[index])[k]], index)
    ensures Complete(ms, g, first, index, k + 1)
  {
    var next := k + 1;
    forall j, key | Seen(ms, index, next, j, key) ensures key in first && g.Root(j) == g.Root(first[key]) {
      NextKeySeen(ms, index, k, j, key);
    }
  }

  /** Joining two messages that share a key puts only chained messages together. */
  lemma JoiningIsSound(ms: seq<Message>, f: Forest, g: Forest, left: nat, right: nat)
    requires Sound(ms, f) && Joined(f, g, left, right) && Share(ms[left], ms[right])
    ensures Sound(ms, g)
  {
    ChainOfTwo(ms, left, right);
    forall i, j | 0 <= i < |ms| && 0 <= j < |ms| && g.Root(i) == g.Root(j) ensures Chained(ms, i, j) {
      if f.Root(i) != f.Root(j) {
        if f.Root(i) == f.Root(right) {
          ChainsJoin(ms, i, right, left);
          ChainsJoin(ms, i, left, j);
        } else {
          ChainsJoin(ms, i, left, right);
          ChainsJoin(ms, i, right, j);
        }
      }
    }
  }

  lemma {:induction false} ChainsShareATree(ms: seq<Message>, f: Forest, first: map<Key, nat>, path: seq<nat>)
    requires Complete(ms, f, first, |ms|, 0) && IsChain(ms, path)
    ensures f.Root(path[0]) == f.Root(path[|path| - 1])
  {
    if |path| > 1 {
      ChainsShareATree(ms, f, first, path[1..]);
      assert Share(ms[path[0]], ms[path[0 + 1]]);
      var key :| key in Keys(ms[path[0]]) && key in Keys(ms[path[1]]);
      assert Seen(ms, |ms|, 0, path[0], key) && Seen(ms, |ms|, 0, path[1], key);
    }
  }

  lemma SameTreeIffChained(ms: seq<Message>, f: Forest, first: map<Key, nat>, i: nat, j: nat)
    requires Sound(ms, f) && Complete(ms, f, first, |ms|, 0) && i < |ms| && j < |ms|
    ensures f.Root(i) == f.Root(j) <==> Chained(ms, i, j)
  {
    if Chained(ms, i, j) {
      var path :| Joins(ms, path, i, j);
      ChainsShareATree(ms, f, first, path);
    }
  }

  lemma NextMessage(ms: seq<Message>, f: Forest, first: map<Key, nat>, index: nat)
    requires index < |ms| && Complete(ms, f, first, index, |Keys(ms[index])|)
    ensures Complete(ms, f, first, index + 1, 0)
  {
    var next := index + 1;
    forall j, key | Seen(ms, next, 0, j, key) ensures key in first && f.Root(j) == f.Root(first[key]) {
      NextMessageSeen(ms, index, j, key);
    }
  }

  ghost predicate Linked(ms: seq<Message>, f: Forest, first: map<Key, nat>, index: nat, k: nat) {
    Complete(ms, f, first, index, k) && Sound(ms, f)
  }

  lemma LaterKey(ms: seq<Message>, f: Forest, g: Forest, first: map<Key, nat>, index: nat, k: nat)
    requires index < |ms| && k < |Keys(ms[index])| && Linked(ms, f, first, index, k)
    requires Keys(ms[index])[k] in first && Joined(f, g, first[Keys(ms[index])[k]], index)
    ensures Linked(ms, g, first, index, k + 1)
  {
    LaterShowing(ms, f, g, first, index, k);
    assert Share(ms[first[Keys(ms[index])[k]]], ms[index]);
    JoiningIsSound(ms, f, g, first[Keys(ms[index])[k]], index);
  }

  /** One message: each of its keys is noted, or joins it to the first message that showed the key. */
  method LinkMessage(ms: seq<Message>, parents: Parents, seen: map<Key, nat>, index: nat) returns (first: map<Key, nat>)
    requires index < |ms| && parents.Valid() && Linked(ms, parents.forest, seen, index, 0)
    modifies parents, parents.links
    ensures parents.Valid() && Linked(ms, parents.forest, first, index + 1, 0)
  {
    first := seen;
    var keys := Keys(ms[index]);
    var k: nat := 0;
    while k < |keys|
      invariant k <= |keys| && parents.Valid() && Linked(ms, parents.forest, first, index, k)
    {
      if keys[k] in first {
        assert first[keys[k]] < parents.links.Length;
        ghost var f := parents.forest;
        parents.Union(first[keys[k]], index);
        LaterKey(ms, f, parents.forest, first, index, k);
      } else {
        FirstShowing(ms, parents.forest, first, index, k);
        first := first[keys[k] := index];
      }
      k := k + 1;
    }
    NextMessage(ms, parents.forest, first, index);
  }

  lemma UntouchedIsSound(ms: seq<Message>, f: Forest)
    requires f.Valid() && |f.links| == |ms| && forall i :: 0 <= i < |ms| ==> f.Root(i) == i
    ensures Linked(ms, f, map[], 0, 0)
  {
    forall i | 0 <= i < |ms| ensures Chained(ms, i, i) { ChainOfOne(ms, i); }
  }

  /** Two messages share a tree exactly when they are chained. */
  ghost predicate TreesAreChains(ms: seq<Message>, f: Forest) {
    && f.Valid() && |f.links| == |ms|
    && forall i, j :: 0 <= i < |ms| && 0 <= j < |ms| ==> (f.Root(i) == f.Root(j) <==> Chained(ms, i, j))
  }

  lemma LinkedToTheEnd(ms: seq<Message>, f: Forest, first: map<Key, nat>)
    requires Linked(ms, f, first, |ms|, 0)
    ensures TreesAreChains(ms, f)
  {
    forall i, j | 0 <= i < |ms| && 0 <= j < |ms| ensures f.Root(i) == f.Root(j) <==> Chained(ms, i, j) {
      SameTreeIffChained(ms, f, first, i, j);
    }
  }

  /** The pass over all keys: in the end two messages share a tree exactly when they are chained. */
  method LinkMessages(ms: seq<Message>) returns (parents: Parents)
    ensures fresh(parents) && fresh(parents.links) && parents.Valid() && TreesAreChains(ms, parents.forest)
  {
    parents := new Parents(|ms|);
    var first: map<Key, nat> := map[];
    UntouchedIsSound(ms, parents.forest);
    var index: nat := 0;
    while index < |ms|
      invariant index <= |ms| && parents.Valid() && Linked(ms, parents.forest, first, index, 0)
    {
      first := LinkMessage(ms, parents, first, index);
      index := index + 1;
    }
    LinkedToTheEnd(ms, parents.forest, first);
  }
}
