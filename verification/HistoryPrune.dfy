/** Local history as a chain of commits, and pruning it by rewriting the chain. */
module HistoryPrune {
  import opened Basics

  const REVISION_LIMIT := 2000

  /** Who made a commit and when; own says that the application made it. A date is None when it cannot be read. */
  datatype Stamp = Stamp(own: bool, created: Option<int>, identity: string)

  /** A commit is what its hash is computed from, so equal commits have equal hashes. */
  datatype Commit = Commit(tree: string, message: string, stamp: Stamp, parent: Option<Commit>)

  datatype Repository = Repository(head: Option<Commit>, labels: map<Commit, string>)

  /** The chain that ends in the commit, oldest first. */
  function Chain(c: Commit): (s: seq<Commit>)
    ensures |s| > 0 && s[|s| - 1] == c
  {
    (if c.parent.None? then [] else Chain(c.parent.value)) + [c]
  }

  function History(r: Repository): seq<Commit> {
    if r.head.None? then [] else Chain(r.head.value)
  }

  /** The parts that a preview counts, and the part that pruning keeps. */
  datatype Part = Eligible | Labeled | Recent | Foreign | Kept

  predicate Old(c: Commit, cutoff: int) {
    c.stamp.created.Some? && c.stamp.created.value < cutoff
  }

  predicate In(part: Part, r: Repository, c: Commit, cutoff: int) {
    var managed := r.head != Some(c) && c.stamp.own;
    match part
    case Eligible => managed && c !in r.labels && Old(c, cutoff)
    case Labeled => managed && c in r.labels
    case Recent => managed && c !in r.labels && !Old(c, cutoff)
    case Foreign => !c.stamp.own
    case Kept => !(managed && c !in r.labels && Old(c, cutoff))
  }

  function Select(part: Part, r: Repository, s: seq<Commit>, cutoff: int): (t: seq<Commit>)
    ensures forall c :: c in t <==> c in s && In(part, r, c, cutoff)
  {
    if s == [] then []
    else Select(part, r, s[..|s| - 1], cutoff) + (if In(part, r, s[|s| - 1], cutoff) then [s[|s| - 1]] else [])
  }

  datatype Preview = Preview(head: Option<Commit>, total: nat, eligible: seq<Commit>, current: nat, labeled: nat, recent: nat, blocked: nat)

  function PreviewAt(r: Repository, cutoff: int): Preview {
    var entries := History(r);
    Preview(r.head, |entries|, Select(Eligible, r, entries, cutoff), if r.head.Some? then 1 else 0,
            |Select(Labeled, r, entries, cutoff)|, |Select(Recent, r, entries, cutoff)|, |Select(Foreign, r, entries, cutoff)|)
  }

  function Retained(r: Repository, cutoff: int): seq<Commit> {
    Select(Kept, r, History(r), cutoff)
  }

  // The preview's numbers

  lemma {:induction false} DepthAt(c: Commit, k: nat)
    requires k < |Chain(c)|
    ensures |Chain(Chain(c)[k])| == k + 1
  {
    if k < |Chain(c)| - 1 {
      assert Chain(c)[k] == Chain(c.parent.value)[k];
      DepthAt(c.parent.value, k);
    }
  }

  lemma HeadIsOnce(c: Commit)
    ensures forall k :: 0 <= k < |Chain(c)| - 1 ==> Chain(c)[k] != c
  {
    forall k | 0 <= k < |Chain(c)| - 1 ensures Chain(c)[k] != c {
      DepthAt(c, k);
    }
  }

  lemma {:induction false} CountsOf(r: Repository, s: seq<Commit>, cutoff: int)
    requires forall c :: c in s ==> r.head != Some(c)
    ensures |Select(Eligible, r, s, cutoff)| + |Select(Labeled, r, s, cutoff)| + |Select(Recent, r, s, cutoff)|
            + |Select(Foreign, r, s, cutoff)| == |s|
  {
    if s != [] {
      assert forall c :: c in s[..|s| - 1] ==> c in s;
      assert s[|s| - 1] in s;
      CountsOf(r, s[..|s| - 1], cutoff);
    }
  }

  lemma HeadAddsTo(part: Part, r: Repository, cutoff: int)
    requires r.head.Some?
    ensures var entries := Chain(r.head.value);
            |Select(part, r, entries, cutoff)| == |Select(part, r, entries[..|entries| - 1], cutoff)|
              + (if part.Kept? || (part.Foreign? && !r.head.value.stamp.own) then 1 else 0)
  {
    var entries := Chain(r.head.value);
    LastAddsTo(part, r, entries, cutoff);
    assert entries[|entries| - 1] == r.head.value;
  }

  lemma LastAddsTo(part: Part, r: Repository, entries: seq<Commit>, cutoff: int)
    requires entries != []
    ensures |Select(part, r, entries, cutoff)| == |Select(part, r, entries[..|entries| - 1], cutoff)|
              + (if In(part, r, entries[|entries| - 1], cutoff) then 1 else 0)
  {
  }

  lemma OlderAddUp(r: Repository, cutoff: int)
    requires r.head.Some?
    ensures var older := Chain(r.head.value)[..|Chain(r.head.value)| - 1];
            |Select(Eligible, r, older, cutoff)| + |Select(Labeled, r, older, cutoff)| + |Select(Recent, r, older, cutoff)|
            + |Select(Foreign, r, older, cutoff)| == |older|
  {
    var entries := Chain(r.head.value);
    HeadIsOnce(r.head.value);
    forall c | c in entries[..|entries| - 1] ensures r.head != Some(c) {}
    CountsOf(r, entries[..|entries| - 1], cutoff);
  }

  /** The parts of a preview add up to the total; a head that the application did not make is counted twice. */
  lemma PreviewAddsUp(r: Repository, cutoff: int)
    ensures var p := PreviewAt(r, cutoff);
            |p.eligible| + p.current + p.labeled + p.recent + p.blocked
            == p.total + (if r.head.Some? && !r.head.value.stamp.own then 1 else 0)
  {
    if r.head.Some? {
      OlderAddUp(r, cutoff);
      HeadAddsTo(Eligible, r, cutoff);
      HeadAddsTo(Labeled, r, cutoff);
      HeadAddsTo(Recent, r, cutoff);
      HeadAddsTo(Foreign, r, cutoff);
    }
  }

  // Pruning

  /** Rewrites the retained commits, oldest first, onto each other; labels follow. */
  function Rewritten(retained: seq<Commit>, k: nat): Commit
    requires k < |retained|
  {
    retained[k].(parent := if k == 0 then None else Some(Rewritten(retained, k - 1)))
  }

  function Relabeled(labels: map<Commit, string>, original: map<Commit, string>, retained: seq<Commit>, n: nat): map<Commit, string>
    requires n <= |retained|
  {
    if n == 0 then labels
    else
      var before := Relabeled(labels, original, retained, n - 1);
      if retained[n - 1] in original then before[Rewritten(retained, n - 1) := original[retained[n - 1]]] else before
  }

  datatype PruneError = CutoffTooNew | TooManyRevisions | HistoryChanged | EligibleChanged | Blocked | NothingEligible | Uncommitted | TreeChanged
    | NotOnMain

  datatype PruneResult = Pruned(repository: Repository, removed: nat, kept: nat) | Refused(error: PruneError)

  /** What the caller has confirmed: the head and the eligible commits of the preview. */
  datatype Request = Request(cutoff: int, head: Option<Commit>, eligible: seq<Commit>)

  /** A cutoff may be newer than the retention policy allows by a second, in milliseconds. */
  const CUTOFF_SLACK := 1000

  predicate Accepted(r: Repository, request: Request, newest: int, clean: bool) {
    var p := PreviewAt(r, request.cutoff);
    && request.cutoff <= newest + CUTOFF_SLACK
    && p.total <= REVISION_LIMIT && p.head.Some? && p.head == request.head && p.eligible == request.eligible
    && p.blocked == 0 && p.eligible != [] && clean
  }

  /** What is found once the new commits are there: the head, whether it is the main branch, and whether
      replacing the expected head by the new one is granted. */
  datatype Later = Later(head: Option<Commit>, onMain: bool, swaps: bool)

  function LateRefusal(head: Commit, later: Later): (r: Option<PruneError>)
    ensures r.None? <==> later.head == Some(head) && later.onMain && later.swaps
    ensures r != Some(TreeChanged)
  {
    if later.head != Some(head) then Some(HistoryChanged)
    else if !later.onMain then Some(NotOnMain)
    else if !later.swaps then Some(HistoryChanged)
    else None
  }

  /** The checks before anything is written, in their order. */
  method Check(r: Repository, request: Request, newest: int, clean: bool) returns (refusal: Option<PruneError>)
    ensures refusal.None? <==> Accepted(r, request, newest, clean)
    ensures refusal != Some(TreeChanged)
  {
    if request.cutoff > newest + CUTOFF_SLACK {
      return Some(CutoffTooNew);
    }
    var preview := PreviewAt(r, request.cutoff);
    if preview.total > REVISION_LIMIT {
      return Some(TooManyRevisions);
    }
    if preview.head.None? || preview.head != request.head {
      return Some(HistoryChanged);
    }
    if preview.eligible != request.eligible {
      return Some(EligibleChanged);
    }
    if preview.blocked > 0 {
      return Some(Blocked);
    }
    if |preview.eligible| == 0 {
      return Some(NothingEligible);
    }
    return if clean then None else Some(Uncommitted);
  }

  /** Prunes, or refuses; the labels are those that are left. A refusal after the new commits were written
      leaves the head alone, but their labels are there. */
  method Prune(r: Repository, request: Request, newest: int, clean: bool, later: Later)
      returns (result: PruneResult, labels: map<Commit, string>)
    ensures result.Pruned? <==> Accepted(r, request, newest, clean) && later.head == r.head && later.onMain && later.swaps
    ensures labels == if Accepted(r, request, newest, clean)
                      then Relabeled(r.labels, r.labels, Retained(r, request.cutoff), |Retained(r, request.cutoff)|) else r.labels
    ensures result.Pruned? ==>
              var retained := Retained(r, request.cutoff);
              && retained != [] && result.kept == |retained| && result.removed == |request.eligible|
              && result.repository == Repository(Some(Rewritten(retained, |retained| - 1)), labels)
    ensures result != Refused(TreeChanged)
  {
    labels := r.labels;
    var refusal := Check(r, request, newest, clean);
    if refusal.Some? {
      return Refused(refusal.value), labels;
    }
    var retained, previous := Retained(r, request.cutoff), r.head.value;
    HeadIsRetained(r, request.cutoff);
    var head;
    head, labels := Rewrite(retained, r.labels);
    if head.tree != previous.tree {
      return Refused(TreeChanged), labels;
    }
    refusal := LateRefusal(previous, later);
    if refusal.Some? {
      return Refused(refusal.value), labels;
    }
    return Pruned(Repository(Some(head), labels), |request.eligible|, |retained|), labels;
  }

  /** Commits each retained tree again onto the commit before, and labels the new commit like the old one. */
  method Rewrite(retained: seq<Commit>, original: map<Commit, string>) returns (head: Commit, labels: map<Commit, string>)
    requires retained != []
    ensures head == Rewritten(retained, |retained| - 1) && head.tree == retained[|retained| - 1].tree
    ensures labels == Relabeled(original, original, retained, |retained|)
  {
    var rewrittenParent: Option<Commit> := None;
    labels := original;
    var i: nat := 0;
    while i < |retained|
      invariant i <= |retained|
      invariant rewrittenParent == if i == 0 then None else Some(Rewritten(retained, i - 1))
      invariant labels == Relabeled(original, original, retained, i)
    {
      var entry := retained[i];
      var commit := Commit(entry.tree, entry.message, entry.stamp, rewrittenParent);
      if entry in original {
        labels := labels[commit := original[entry]];
      }
      rewrittenParent := Some(commit);
      i := i + 1;
    }
    head := rewrittenParent.value;
  }

  lemma HeadIsRetained(r: Repository, cutoff: int)
    requires r.head.Some?
    ensures var retained := Retained(r, cutoff);
            retained != [] && retained[|retained| - 1] == r.head.value
  {
  }

  // What pruning keeps

  lemma {:induction false} ChainOfRewritten(retained: seq<Commit>, k: nat)
    requires k < |retained|
    ensures |Chain(Rewritten(retained, k))| == k + 1
    ensures forall j :: 0 <= j <= k ==> Chain(Rewritten(retained, k))[j] == Rewritten(retained, j)
  {
    if k > 0 { ChainOfRewritten(retained, k - 1); }
  }

  lemma RewrittenAreDistinct(retained: seq<Commit>, j: nat, k: nat)
    requires j < |retained| && k < |retained| && Rewritten(retained, j) == Rewritten(retained, k)
    ensures j == k
  {
    ChainOfRewritten(retained, j);
    ChainOfRewritten(retained, k);
  }

  lemma {:induction false} LabelsFollow(labels: map<Commit, string>, original: map<Commit, string>, retained: seq<Commit>, n: nat, k: nat)
    requires n <= |retained| && k < |retained|
    ensures var after, c := Relabeled(labels, original, retained, n), Rewritten(retained, k);
            && (k < n && retained[k] in original ==> c in after && after[c] == original[retained[k]])
            && (k >= n || retained[k] !in original ==> (c in after <==> c in labels) && (c in labels ==> after[c] == labels[c]))
  {
    if n > 0 {
      LabelsFollow(labels, original, retained, n - 1, k);
      if Rewritten(retained, n - 1) == Rewritten(retained, k) { RewrittenAreDistinct(retained, n - 1, k); }
    }
  }

  function PrunedAt(r: Repository, cutoff: int): Repository
    requires r.head.Some?
  {
    var retained := Retained(r, cutoff);
    HeadIsRetained(r, cutoff);
    Repository(Some(Rewritten(retained, |retained| - 1)), Relabeled(r.labels, r.labels, retained, |retained|))
  }

  /** The pruned history is the retained revisions in their order, with the same trees, messages, authors and dates;
      the head keeps its tree, and labeled revisions keep their labels. */
  lemma PruningKeepsRetained(r: Repository, cutoff: int)
    requires r.head.Some?
    ensures var p, retained := PrunedAt(r, cutoff), Retained(r, cutoff);
            && |History(p)| == |retained|
            && (forall k :: 0 <= k < |retained| ==>
                  && History(p)[k].tree == retained[k].tree
                  && History(p)[k].message == retained[k].message
                  && History(p)[k].stamp == retained[k].stamp
                  && (retained[k] in r.labels ==> History(p)[k] in p.labels && p.labels[History(p)[k]] == r.labels[retained[k]]))
            && p.head.value.tree == r.head.value.tree
  {
    var retained := Retained(r, cutoff);
    HeadIsRetained(r, cutoff);
    ChainOfRewritten(retained, |retained| - 1);
    var p := PrunedAt(r, cutoff);
    forall k | 0 <= k < |retained|
      ensures History(p)[k] == Rewritten(retained, k)
      ensures retained[k] in r.labels ==> History(p)[k] in p.labels && p.labels[History(p)[k]] == r.labels[retained[k]]
    {
      LabelsFollow(r.labels, r.labels, retained, |retained|, k);
    }
  }

  /** An unlabeled retained revision stays unlabeled exactly when its rewritten commit is not one that already had a label. */
  lemma UnlabeledStaysUnlabeledIff(r: Repository, cutoff: int, k: nat)
    requires r.head.Some? && k < |Retained(r, cutoff)| && Retained(r, cutoff)[k] !in r.labels
    ensures |History(PrunedAt(r, cutoff))| == |Retained(r, cutoff)|
    ensures History(PrunedAt(r, cutoff))[k] !in PrunedAt(r, cutoff).labels <==> Rewritten(Retained(r, cutoff), k) !in r.labels
  {
    var retained := Retained(r, cutoff);
    ChainOfRewritten(retained, |retained| - 1);
    LabelsFollow(r.labels, r.labels, retained, |retained|, k);
  }

  lemma StaysIneligible(r: Repository, p: Repository, before: Commit, after: Commit, cutoff: int)
    requires !In(Eligible, r, before, cutoff) && after.stamp == before.stamp
    requires before in r.labels ==> after in p.labels
    requires r.head == Some(before) ==> p.head == Some(after)
    ensures !In(Eligible, p, after, cutoff)
  {
  }

  lemma RewrittenStaysIneligible(r: Repository, cutoff: int, k: nat)
    requires r.head.Some? && k < |Retained(r, cutoff)|
    ensures !In(Eligible, PrunedAt(r, cutoff), Rewritten(Retained(r, cutoff), k), cutoff)
  {
    var p, retained := PrunedAt(r, cutoff), Retained(r, cutoff);
    var before, after := retained[k], Rewritten(retained, k);
    assert before in retained;
    assert before in r.labels ==> after in p.labels by { LabelsFollow(r.labels, r.labels, retained, |retained|, k); }
    assert r.head == Some(before) ==> p.head == Some(after) by {
      if r.head == Some(before) { RetainedHeadIsLast(r, cutoff, k); }
    }
    StaysIneligible(r, p, before, after, cutoff);
  }

  /** A second preview at the same cutoff finds nothing to prune. */
  lemma SecondPreviewIsEmpty(r: Repository, cutoff: int)
    requires r.head.Some?
    ensures PreviewAt(PrunedAt(r, cutoff), cutoff).eligible == []
  {
    var p, retained := PrunedAt(r, cutoff), Retained(r, cutoff);
    HeadIsRetained(r, cutoff);
    ChainOfRewritten(retained, |retained| - 1);
    forall c | c in History(p) ensures !In(Eligible, p, c, cutoff) {
      var k :| 0 <= k < |retained| && History(p)[k] == c;
      RewrittenStaysIneligible(r, cutoff, k);
    }
    NothingSelected(p, History(p), cutoff);
  }

  lemma {:induction false} NothingSelected(r: Repository, s: seq<Commit>, cutoff: int)
    requires forall c :: c in s ==> !In(Eligible, r, c, cutoff)
    ensures Select(Eligible, r, s, cutoff) == []
  {
    if s != [] {
      assert s[|s| - 1] in s;
      NothingSelected(r, s[..|s| - 1], cutoff);
    }
  }

  lemma {:induction false} LastIsOnce(r: Repository, s: seq<Commit>, cutoff: int, last: Commit)
    requires s != [] && s[|s| - 1] == last && In(Kept, r, last, cutoff) && forall k :: 0 <= k < |s| - 1 ==> s[k] != last
    ensures forall k :: 0 <= k < |Select(Kept, r, s, cutoff)| - 1 ==> Select(Kept, r, s, cutoff)[k] != last
  {
    var front := Select(Kept, r, s[..|s| - 1], cutoff);
    assert last !in s[..|s| - 1];
    assert Select(Kept, r, s, cutoff) == front + [last];
    forall k | 0 <= k < |front| ensures front[k] != last { assert front[k] in front; }
  }

  lemma RetainedHeadIsLast(r: Repository, cutoff: int, k: nat)
    requires r.head.Some? && k < |Retained(r, cutoff)| && Retained(r, cutoff)[k] == r.head.value
    ensures k == |Retained(r, cutoff)| - 1
  {
    HeadIsOnce(r.head.value);
    LastIsOnce(r, History(r), cutoff, r.head.value);
  }

  lemma {:induction false} PartsSplit(r: Repository, s: seq<Commit>, cutoff: int)
    ensures |Select(Kept, r, s, cutoff)| + |Select(Eligible, r, s, cutoff)| == |s|
  {
    if s != [] { PartsSplit(r, s[..|s| - 1], cutoff); }
  }

  /** Removed and kept revisions together are all revisions. */
  lemma RemovedAndKeptAddUp(r: Repository, cutoff: int)
    ensures |PreviewAt(r, cutoff).eligible| + |Retained(r, cutoff)| == |History(r)|
  {
    PartsSplit(r, History(r), cutoff);
  }
}
