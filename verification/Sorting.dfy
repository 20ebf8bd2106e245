/** The stable sort of lists, as a function, and the two facts that pin its result down. */
module Sorting {
  import opened Lists

  ghost predicate IsOrder<T(!new)>(ahead: (T, T) -> bool) {
    && (forall x, y :: ahead(x, y) ==> !ahead(y, x))
    && (forall x, y, z :: !ahead(y, x) && !ahead(z, y) ==> !ahead(z, x))
  }

  ghost predicate Sorted<T>(s: seq<T>, ahead: (T, T) -> bool) {
    forall i, j :: 0 <= i < j < |s| ==> !ahead(s[j], s[i])
  }

  ghost predicate StrictlySorted<T>(s: seq<T>, ahead: (T, T) -> bool) {
    forall i, j :: 0 <= i < j < |s| ==> ahead(s[i], s[j])
  }

  function Insert<T>(x: T, s: seq<T>, ahead: (T, T) -> bool): (r: seq<T>)
    ensures multiset(r) == multiset([x]) + multiset(s)
    ensures |r| == |s| + 1
  {
    if s == [] then [x]
    else if ahead(s[0], x) then
      var rest := Insert(x, s[1..], ahead);
      assert s == [s[0]] + s[1..];
      [s[0]] + rest
    else [x] + s
  }

  function Sort<T>(s: seq<T>, ahead: (T, T) -> bool): (r: seq<T>)
    ensures multiset(r) == multiset(s) && |r| == |s|
  {
    if s == [] then [] else
      assert s == [s[0]] + s[1..];
      Insert(s[0], Sort(s[1..], ahead), ahead)
  }

  lemma {:induction false} InsertKeepsSorted<T(!new)>(x: T, s: seq<T>, ahead: (T, T) -> bool)
    requires IsOrder(ahead) && Sorted(s, ahead)
    ensures Sorted(Insert(x, s, ahead), ahead)
  {
    if s != [] && ahead(s[0], x) {
      InsertKeepsSorted(x, s[1..], ahead);
      var rest := Insert(x, s[1..], ahead);
      forall j | 0 <= j < |rest| ensures !ahead(rest[j], s[0]) {
        assert rest[j] in multiset(rest);
      }
    }
  }

  lemma {:induction false} SortSorts<T(!new)>(s: seq<T>, ahead: (T, T) -> bool)
    requires IsOrder(ahead)
    ensures Sorted(Sort(s, ahead), ahead)
  {
    if s != [] {
      SortSorts(s[1..], ahead);
      InsertKeepsSorted(s[0], Sort(s[1..], ahead), ahead);
    }
  }

  /** A strictly sorted list is determined by its members. */
  lemma {:induction false} StrictlySortedIsUnique<T(!new)>(a: seq<T>, b: seq<T>, ahead: (T, T) -> bool)
    requires IsOrder(ahead) && StrictlySorted(a, ahead) && StrictlySorted(b, ahead)
    requires forall x :: x in a <==> x in b
    ensures a == b
  {
    assert |a| > 0 ==> a[0] in b;
    assert |b| > 0 ==> b[0] in a;
    if a != [] {
      assert a[0] == b[0];
      forall x ensures x in a[1..] <==> x in b[1..] {
        if x in a[1..] { assert x in b; assert x != b[0]; }
        if x in b[1..] { assert x in a; assert x != a[0]; }
      }
      StrictlySortedIsUnique(a[1..], b[1..], ahead);
      assert a == [a[0]] + a[1..] && b == [b[0]] + b[1..];
    }
  }
}
