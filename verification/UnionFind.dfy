/** The parents array of the conversation grouping: find with path compression, and union. */
module UnionFind {
  /** The links, with the heights that show that every walk ends. */
  datatype Forest = Forest(links: seq<nat>, height: seq<nat>, limit: nat) {
    /** Every link leads to a strictly higher element. */
    ghost predicate Valid() {
      && |height| == |links|
      && (forall i :: 0 <= i < |links| ==> links[i] < |links| && height[i] <= limit)
      && (forall i :: 0 <= i < |links| && links[i] != i ==> height[i] < height[links[i]])
    }

    /** The end of the walk from i. */
    ghost function Root(i: nat): (r: nat)
      requires Valid() && i < |links|
      ensures r < |links| && links[r] == r
      ensures r != i ==> height[i] < height[r]
      decreases limit - height[i]
    {
      if links[i] == i then i else Root(links[i])
    }

    ghost function Roots(): seq<nat>
      requires Valid()
    {
      seq(|links|, i requires 0 <= i < |links| => Root(i))
    }

    ghost function Compressed(c: nat): Forest
      requires Valid() && c < |links|
    {
      Forest(links[c := Root(c)], height, limit)
    }

    ghost function Linked(top: nat, below: nat): Forest
      requires Valid() && top < |links| && below < |links|
    {
      Forest(links[below := top],
             height[top := if height[top] > height[below] then height[top] else height[below] + 1],
             limit + 1)
    }
  }

  /** Pointing an element straight at its root changes nobody's root. */
  lemma {:induction false} CompressionKeepsRoots(f: Forest, c: nat, i: nat)
    requires f.Valid() && c < |f.links| && i < |f.links|
    ensures f.Compressed(c).Valid() && f.Compressed(c).Root(i) == f.Root(i)
    decreases f.limit - f.height[i]
  {
    var g := f.Compressed(c);
    assert g.Valid();
    if i == c {
      assert g.Root(f.Root(c)) == f.Root(c);
    } else if f.links[i] != i {
      CompressionKeepsRoots(f, c, f.links[i]);
    }
  }

  /** Linking one root under another merges exactly their two trees. */
  lemma {:induction false} LinkingMerges(f: Forest, top: nat, below: nat, i: nat)
    requires f.Valid() && top < |f.links| && below < |f.links| && i < |f.links|
    requires top != below && f.links[top] == top && f.links[below] == below
    ensures f.Linked(top, below).Valid()
    ensures f.Linked(top, below).Root(i) == if f.Root(i) == below then top else f.Root(i)
    decreases f.limit - f.height[i]
  {
    var g := f.Linked(top, below);
    assert g.Valid();
    if f.links[i] != i {
      LinkingMerges(f, top, below, f.links[i]);
    } else if i == below {
      assert g.Root(i) == g.Root(top);
    }
  }

  /** Both forests send every element to the same root. */
  ghost predicate SameRoots(f: Forest, g: Forest) {
    && f.Valid() && g.Valid() && |f.links| == |g.links|
    && forall i :: 0 <= i < |f.links| ==> f.Root(i) == g.Root(i)
  }

  lemma CompressionKeepsAllRoots(before: Forest, f: Forest, c: nat)
    requires SameRoots(before, f) && c < |f.links|
    ensures SameRoots(before, f.Compressed(c))
  {
    CompressionKeepsRoots(f, c, c);
    forall i | 0 <= i < |f.links| ensures f.Compressed(c).Root(i) == f.Root(i) {
      CompressionKeepsRoots(f, c, i);
    }
  }

  /** In g the trees of left and right have become one tree, and no other element has moved. */
  ghost predicate Joined(f: Forest, g: Forest, left: nat, right: nat) {
    && f.Valid() && g.Valid() && |f.links| == |g.links| && left < |f.links| && right < |f.links|
    && forall i :: 0 <= i < |f.links| ==> g.Root(i) == if f.Root(i) == f.Root(right) then f.Root(left) else f.Root(i)
  }

  /** Two lookups followed by a link, or by nothing when both lookups met the same root. */
  lemma LookupsThenLink(before: Forest, f: Forest, g: Forest, left: nat, right: nat, leftRoot: nat, rightRoot: nat)
    requires SameRoots(before, f) && SameRoots(f, g) && left < |f.links| && right < |f.links|
    requires leftRoot == before.Root(left) && rightRoot == f.Root(right)
    ensures leftRoot == rightRoot ==> Joined(before, g, left, right)
    ensures leftRoot != rightRoot ==> Joined(before, g.Linked(leftRoot, rightRoot), left, right)
  {
    assert before.Root(leftRoot) == leftRoot;
    assert g.Root(leftRoot) == leftRoot;
    if leftRoot != rightRoot {
      forall i | 0 <= i < |g.links|
        ensures g.Linked(leftRoot, rightRoot).Valid()
        ensures g.Linked(leftRoot, rightRoot).Root(i) == if g.Root(i) == rightRoot then leftRoot else g.Root(i)
      {
        LinkingMerges(g, leftRoot, rightRoot, i);
      }
      assert g.Linked(leftRoot, rightRoot).Valid() by { LinkingMerges(g, leftRoot, rightRoot, leftRoot); }
    }
  }

  class Parents {
    const links: array<nat>
    ghost var forest: Forest

    ghost predicate Valid()
      reads this, links
    {
      forest.links == links[..] && forest.Valid()
    }

    /** Every element starts as its own root. */
    constructor (n: nat)
      ensures Valid() && links.Length == n && fresh(links)
      ensures forall i :: 0 <= i < n ==> forest.Root(i) == i
    {
      links := new nat[n](i => i);
      forest := Forest(seq(n, i => i), seq(n, i => 0), 0);
    }

    /** Path compression rewrites links on the way but moves no element to another tree. */
    method Find(start: nat) returns (root: nat)
      requires Valid() && start < links.Length
      modifies `forest, links
      ensures Valid() && SameRoots(old(forest), forest)
      ensures root == old(forest).Root(start) < links.Length
    {
      root := start;
      while links[root] != root
        invariant root < links.Length && forest.Root(root) == forest.Root(start)
        decreases forest.limit - forest.height[root]
      {
        root := links[root];
      }
      var current: nat := start;
      while links[current] != current
        invariant Valid() && current < links.Length && forest.Root(current) == root
        invariant SameRoots(old(forest), forest) && forest.limit == old(forest.limit) && forest.height == old(forest.height)
        decreases forest.limit - forest.height[current]
      {
        var next := links[current];
        CompressionKeepsAllRoots(old(forest), forest, current);
        assert forest.Root(next) == root;
        assert forest.Compressed(current).Root(next) == root by { CompressionKeepsRoots(forest, current, next); }
        links[current] := root;
        forest := forest.Compressed(current);
        current := next;
      }
    }

    /** Joins the trees of the two elements under the root of the left one. */
    method Union(left: nat, right: nat)
      requires Valid() && left < links.Length && right < links.Length
      modifies this, links
      ensures Valid() && Joined(old(forest), forest, left, right)
    {
      var leftRoot: nat := Find(left);
      ghost var f := forest;
      var rightRoot: nat := Find(right);
      LookupsThenLink(old(forest), f, forest, left, right, leftRoot, rightRoot);
      if leftRoot != rightRoot {
        links[rightRoot] := leftRoot;
        forest := forest.Linked(leftRoot, rightRoot);
      }
    }
  }
}
