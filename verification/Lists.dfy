/** Facts about lists, permutations and concatenations that several modules need. */
module Lists {
  ghost predicate Unique<T>(s: seq<T>) {
    forall i, j :: 0 <= i < j < |s| ==> s[i] != s[j]
  }

  function Flatten<T>(parts: seq<seq<T>>): seq<T> {
    if parts == [] then [] else parts[0] + Flatten(parts[1..])
  }

  lemma Assoc<T>(a: seq<T>, b: seq<T>, c: seq<T>)
    ensures (a + b) + c == a + (b + c)
  {
  }

  lemma SameMembers<T>(a: seq<T>, b: seq<T>, x: T)
    requires multiset(a) == multiset(b)
    ensures x in a <==> x in b
  {
    assert x in a <==> x in multiset(a);
    assert x in b <==> x in multiset(b);
  }

  /** The first element of a list sits somewhere in each of its permutations, and without it the rest is permuted. */
  lemma RemoveOne<T>(a: seq<T>, b: seq<T>) returns (k: nat)
    requires |a| > 0 && multiset(a) == multiset(b)
    ensures k < |b| && b == b[..k] + ([a[0]] + b[k + 1..])
    ensures multiset(a[1..]) == multiset(b[..k] + b[k + 1..])
  {
    assert a[0] in multiset(a);
    k :| 0 <= k < |b| && b[k] == a[0];
    assert a == [a[0]] + a[1..];
    assert b == b[..k] + ([a[0]] + b[k + 1..]);
    assert multiset(b) == multiset(b[..k]) + (multiset{a[0]} + multiset(b[k + 1..]));
    assert multiset(b[..k] + b[k + 1..]) == multiset(b[..k]) + multiset(b[k + 1..]);
    assert multiset(a) == multiset{a[0]} + multiset(a[1..]);
    assert multiset(a[1..]) == multiset(a) - multiset{a[0]} == multiset(b) - multiset{a[0]};
  }

  lemma {:induction false} OccursOnce<T>(s: seq<T>, k: nat)
    requires Unique(s) && k < |s|
    ensures multiset(s)[s[k]] == 1
  {
    assert s == s[..k] + [s[k]] + s[k + 1..];
    assert s[k] !in s[..k] && s[k] !in s[k + 1..];
    assert s[k] !in multiset(s[..k]) && s[k] !in multiset(s[k + 1..]);
  }

  lemma OccursTwice<T>(s: seq<T>, i: nat, j: nat)
    requires i < j < |s| && s[i] == s[j]
    ensures multiset(s)[s[i]] >= 2
  {
    assert s == s[..j] + [s[j]] + s[j + 1..];
    assert s[i] in s[..j];
    assert s[i] in multiset(s[..j]);
  }

  lemma PermutationKeepsUnique<T>(a: seq<T>, b: seq<T>)
    requires Unique(a) && multiset(a) == multiset(b)
    ensures Unique(b)
  {
    forall i, j | 0 <= i < j < |b| ensures b[i] != b[j] {
      SameMembers(a, b, b[i]);
      var k :| 0 <= k < |a| && a[k] == b[i];
      OccursOnce(a, k);
      if b[i] == b[j] { OccursTwice(b, i, j); }
    }
  }

  lemma {:induction false} FlattenConcat<T>(a: seq<seq<T>>, b: seq<seq<T>>)
    ensures Flatten(a + b) == Flatten(a) + Flatten(b)
  {
    if a == [] {
      assert a + b == b;
    } else {
      FlattenConcat(a[1..], b);
      assert (a + b)[1..] == a[1..] + b;
      Assoc(a[0], Flatten(a[1..]), Flatten(b));
    }
  }

  lemma FlattenAround<T>(parts: seq<seq<T>>, c: nat)
    requires c < |parts|
    ensures Flatten(parts) == Flatten(parts[..c]) + (parts[c] + Flatten(parts[c + 1..]))
  {
    assert parts == parts[..c] + parts[c..];
    FlattenConcat(parts[..c], parts[c..]);
    assert parts[c..][1..] == parts[c + 1..];
  }

  lemma InFlatten<T>(parts: seq<seq<T>>, c: nat, x: T)
    requires c < |parts| && x in parts[c]
    ensures x in Flatten(parts)
  {
    FlattenAround(parts, c);
  }

  lemma {:induction false} HolderOf<T>(parts: seq<seq<T>>, x: T) returns (c: nat)
    requires x in Flatten(parts)
    ensures c < |parts| && x in parts[c]
  {
    if x in parts[0] {
      c := 0;
    } else {
      var rest := HolderOf(parts[1..], x);
      c := rest + 1;
    }
  }

  lemma UniqueConcat<T>(a: seq<T>, b: seq<T>)
    requires Unique(a + b)
    ensures Unique(a) && Unique(b)
    ensures forall x :: x in a ==> x !in b
  {
    forall i, j | 0 <= i < j < |a| ensures a[i] != a[j] {
      assert (a + b)[i] == a[i] && (a + b)[j] == a[j];
    }
    forall i, j | 0 <= i < j < |b| ensures b[i] != b[j] {
      assert (a + b)[|a| + i] == b[i] && (a + b)[|a| + j] == b[j];
    }
    forall i, j | 0 <= i < |a| && 0 <= j < |b| ensures a[i] != b[j] {
      assert (a + b)[i] == a[i] && (a + b)[|a| + j] == b[j];
    }
  }

  lemma InLaterPart<T>(parts: seq<seq<T>>, c: nat, d: nat, x: T)
    requires c < d < |parts| && x in parts[d]
    ensures x in Flatten(parts[c + 1..])
  {
    assert parts[c + 1..][d - c - 1] == parts[d];
    InFlatten(parts[c + 1..], d - c - 1, x);
  }

  /** No element is twice in a part, or in two parts, of a list without repetition. */
  lemma PartsAreDisjoint<T>(parts: seq<seq<T>>, c: nat, d: nat)
    requires Unique(Flatten(parts)) && c < d < |parts|
    ensures forall x :: x in parts[c] ==> x !in parts[d]
  {
    FlattenAround(parts, c);
    UniqueConcat(Flatten(parts[..c]), parts[c] + Flatten(parts[c + 1..]));
    UniqueConcat(parts[c], Flatten(parts[c + 1..]));
    forall x | x in parts[d] ensures x !in parts[c] {
      InLaterPart(parts, c, d, x);
    }
  }

  lemma PartsAreUnique<T>(parts: seq<seq<T>>, c: nat)
    requires Unique(Flatten(parts)) && c < |parts|
    ensures Unique(parts[c])
  {
    FlattenAround(parts, c);
    UniqueConcat(Flatten(parts[..c]), parts[c] + Flatten(parts[c + 1..]));
    UniqueConcat(parts[c], Flatten(parts[c + 1..]));
  }

  lemma {:induction false} FlattenIgnoresOrder<T>(a: seq<seq<T>>, b: seq<seq<T>>)
    requires multiset(a) == multiset(b)
    ensures multiset(Flatten(a)) == multiset(Flatten(b))
  {
    if a == [] {
      assert |multiset(b)| == 0;
    } else {
      var k := RemoveOne(a, b);
      FlattenIgnoresOrder(a[1..], b[..k] + b[k + 1..]);
      FlattenConcat(b[..k], b[k + 1..]);
      FlattenAround(b, k);
    }
  }

  function Map<T, U>(f: T -> U, s: seq<T>): (r: seq<U>)
    ensures |r| == |s| && forall i :: 0 <= i < |s| ==> r[i] == f(s[i])
  {
    seq(|s|, i requires 0 <= i < |s| => f(s[i]))
  }

  lemma {:induction false} MapIgnoresOrder<T, U>(f: T -> U, a: seq<T>, b: seq<T>)
    requires multiset(a) == multiset(b)
    ensures multiset(Map(f, a)) == multiset(Map(f, b))
  {
    if a == [] {
      assert |multiset(b)| == 0;
    } else {
      var k := RemoveOne(a, b);
      MapIgnoresOrder(f, a[1..], b[..k] + b[k + 1..]);
      assert Map(f, b) == Map(f, b[..k]) + ([f(a[0])] + Map(f, b[k + 1..]));
      assert Map(f, b[..k] + b[k + 1..]) == Map(f, b[..k]) + Map(f, b[k + 1..]);
      assert Map(f, a) == [f(a[0])] + Map(f, a[1..]);
    }
  }
}
