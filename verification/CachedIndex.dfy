/** The bounded index of cached mail, and searching it. */
module CachedIndex {
  import opened Basics
  import opened Conversations
  import opened Grouping
  import opened Lists
  import opened Sorting

  const DOCUMENT_LIMIT := 2000
  const RESULT_LIMIT := 200

  /** A cached message with the folder it says it is in, and its searchable text. */
  datatype Mail = Mail(message: Message, folder: nat, text: string)

  /** The cached messages under one key; known says that the key names an account and a folder that exist.
      Keys stand for their place in the order of texts. */
  datatype Section = Section(account: nat, folder: nat, known: bool, mails: seq<Mail>)

  /** All sections, in the order of their keys. */
  type Source = seq<Section>

  /** What a document says of its conversation. */
  datatype Attribution = Attribution(id: ThreadId, count: nat)
  datatype Document = Document(mail: Mail, conversation: Attribution)
  datatype Index = Index(documents: seq<Document>, limitReached: bool)

  predicate MailNewer(m: Mail, n: Mail) {
    Newer(m.message, n.message)
  }

  predicate DocumentNewer(d: Document, e: Document) {
    Newer(d.mail.message, e.mail.message)
  }

  predicate Belongs(m: Mail, s: Section) {
    m.message.account == s.account && m.folder == s.folder
  }

  /** The mails of known sections that are where they say they are; newest first within a section. */
  function Filed(mails: seq<Mail>, s: Section): seq<Mail> {
    if mails == [] then []
    else if Belongs(mails[0], s) then [mails[0]] + Filed(mails[1..], s)
    else Filed(mails[1..], s)
  }

  function Candidates(source: Source): seq<Mail> {
    if source == [] then []
    else if source[0].known then Filed(Sort(source[0].mails, MailNewer), source[0]) + Candidates(source[1..])
    else Candidates(source[1..])
  }

  predicate HasId(mails: seq<Mail>, id: nat) {
    exists k :: 0 <= k < |mails| && mails[k].message.id == id
  }

  /** The first mail of each id, after those already taken. */
  function FirstOfEach(taken: seq<Mail>, mails: seq<Mail>): seq<Mail>
    decreases |mails|
  {
    if mails == [] then taken
    else FirstOfEach(if HasId(taken, mails[0].message.id) then taken else taken + [mails[0]], mails[1..])
  }

  function Eligible(source: Source): seq<Mail> {
    FirstOfEach([], Candidates(source))
  }

  function Bounded<T>(s: seq<T>, limit: nat): seq<T> {
    if |s| > limit then s[..limit] else s
  }

  lemma {:induction false} FirstOfEachGrows(taken: seq<Mail>, mails: seq<Mail>)
    ensures taken <= FirstOfEach(taken, mails)
    decreases |mails|
  {
    if mails != [] {
      FirstOfEachGrows(if HasId(taken, mails[0].message.id) then taken else taken + [mails[0]], mails[1..]);
    }
  }

  ghost predicate UniqueIds(mails: seq<Mail>) {
    forall i, j :: 0 <= i < j < |mails| ==> mails[i].message.id != mails[j].message.id
  }

  lemma {:induction false} FirstOfEachIsUnique(taken: seq<Mail>, mails: seq<Mail>)
    requires UniqueIds(taken)
    ensures UniqueIds(FirstOfEach(taken, mails))
    decreases |mails|
  {
    if mails != [] {
      FirstOfEachIsUnique(if HasId(taken, mails[0].message.id) then taken else taken + [mails[0]], mails[1..]);
    }
  }

  lemma {:induction false} FirstOfEachOfConcat(taken: seq<Mail>, a: seq<Mail>, b: seq<Mail>)
    ensures FirstOfEach(taken, a + b) == FirstOfEach(FirstOfEach(taken, a), b)
    decreases |a|
  {
    if a == [] {
      assert a + b == b;
    } else {
      assert (a + b)[1..] == a[1..] + b;
      FirstOfEachOfConcat(if HasId(taken, a[0].message.id) then taken else taken + [a[0]], a[1..], b);
    }
  }

  /** Takes mails off one section until the bound is met; reached says that one more would have fitted the selection. */
  method SelectSection(s: Section, sorted: seq<Mail>, before: seq<Mail>) returns (selected: seq<Mail>, reached: bool)
    requires |before| <= DOCUMENT_LIMIT
    ensures !reached ==> selected == FirstOfEach(before, Filed(sorted, s)) && |selected| <= DOCUMENT_LIMIT
    ensures reached ==> |selected| == DOCUMENT_LIMIT && selected < FirstOfEach(before, Filed(sorted, s))
  {
    selected, reached := before, false;
    var i := 0;
    assert sorted[0..] == sorted;
    while i < |sorted|
      invariant 0 <= i <= |sorted| && |selected| <= DOCUMENT_LIMIT
      invariant FirstOfEach(before, Filed(sorted, s)) == FirstOfEach(selected, Filed(sorted[i..], s))
    {
      var mail := sorted[i];
      assert sorted[i..][1..] == sorted[i + 1..];
      if Belongs(mail, s) {
        var rest := Filed(sorted[i + 1..], s);
        assert ([mail] + rest)[1..] == rest;
        if !HasId(selected, mail.message.id) {
          if |selected| >= DOCUMENT_LIMIT {
            FirstOfEachGrows(selected + [mail], rest);
            return selected, true;
          }
          selected := selected + [mail];
        }
      }
      i := i + 1;
    }
  }

  /** What remains to be selected begins with the section at i, or, if its folder is unknown, behind it. */
  lemma SectionByItself(source: Source, i: nat, selected: seq<Mail>)
    requires i < |source|
    ensures var next := if source[i].known then FirstOfEach(selected, Filed(Sort(source[i].mails, MailNewer), source[i])) else selected;
            && FirstOfEach(selected, Candidates(source[i..])) == FirstOfEach(next, Candidates(source[i + 1..]))
            && next <= FirstOfEach(selected, Candidates(source[i..]))
  {
    assert source[i..][1..] == source[i + 1..];
    var rest := Candidates(source[i + 1..]);
    if source[i].known {
      var filed := Filed(Sort(source[i].mails, MailNewer), source[i]);
      FirstOfEachOfConcat(selected, filed, rest);
      FirstOfEachGrows(FirstOfEach(selected, filed), rest);
    } else {
      FirstOfEachGrows(selected, rest);
    }
  }

  /** The sections before i have been selected from, and the limit has not been exceeded. */
  ghost predicate Selecting(source: Source, selected: seq<Mail>, i: nat) {
    i <= |source| && |selected| <= DOCUMENT_LIMIT && Eligible(source) == FirstOfEach(selected, Candidates(source[i..]))
  }

  lemma SelectingBounds(source: Source)
    ensures Selecting(source, [], 0)
    ensures forall selected :: Selecting(source, selected, |source|) ==> selected == Eligible(source)
  {
    assert source[0..] == source && source[|source|..] == [];
  }

  lemma CutShort(selected: seq<Mail>, some: seq<Mail>, all: seq<Mail>)
    requires |selected| == DOCUMENT_LIMIT && selected < some <= all
    ensures selected == Bounded(all, DOCUMENT_LIMIT) && |all| > DOCUMENT_LIMIT
  {
  }

  method SelectFrom(source: Source, i: nat, before: seq<Mail>) returns (selected: seq<Mail>, reached: bool)
    requires i < |source| && Selecting(source, before, i)
    ensures !reached ==> Selecting(source, selected, i + 1)
    ensures reached ==> selected == Bounded(Eligible(source), DOCUMENT_LIMIT) && |Eligible(source)| > DOCUMENT_LIMIT
  {
    SectionByItself(source, i, before);
    if !source[i].known {
      return before, false;
    }
    var sorted := Sort(source[i].mails, MailNewer);
    selected, reached := SelectSection(source[i], sorted, before);
    if reached {
      CutShort(selected, FirstOfEach(before, Filed(sorted, source[i])), Eligible(source));
    }
  }

  /** The first eligible mails, up to the limit, and whether there are more. */
  method Select(source: Source) returns (selected: seq<Mail>, reached: bool)
    ensures selected == Bounded(Eligible(source), DOCUMENT_LIMIT)
    ensures reached <==> |Eligible(source)| > DOCUMENT_LIMIT
  {
    selected, reached := [], false;
    var i: nat := 0;
    SelectingBounds(source);
    while i < |source|
      invariant Selecting(source, selected, i) && !reached
    {
      selected, reached := SelectFrom(source, i, selected);
      if reached {
        return;
      }
      i := i + 1;
    }
  }

  // The index

  function MessagesOf(mails: seq<Mail>): seq<Message> {
    Map((m: Mail) => m.message, mails)
  }

  predicate Contains(c: Conversation, id: nat) {
    exists k :: 0 <= k < |c.messages| && c.messages[k].id == id
  }

  /** The last conversation that contains a message of this id; without any, the message stands alone. */
  function AttributionOf(conversations: seq<Conversation>, id: nat): Attribution {
    if conversations == [] then Attribution(OfMessage(id), 1)
    else
      var last := conversations[|conversations| - 1];
      if Contains(last, id) then Attribution(last.id, |last.messages|)
      else AttributionOf(conversations[..|conversations| - 1], id)
  }

  function Documents(mails: seq<Mail>, conversations: seq<Conversation>): seq<Document> {
    seq(|mails|, k requires 0 <= k < |mails| => Document(mails[k], AttributionOf(conversations, mails[k].message.id)))
  }

  /** An index of this source: the bounded selection, with its conversations, newest first. */
  ghost predicate IsIndexWith(source: Source, index: Index, conversations: seq<Conversation>) {
    var selected := Bounded(Eligible(source), DOCUMENT_LIMIT);
    && IsGrouping(MessagesOf(selected), conversations)
    && index == Index(Sort(Documents(selected, conversations), DocumentNewer), |Eligible(source)| > DOCUMENT_LIMIT)
  }

  ghost predicate IsIndex(source: Source, index: Index) {
    exists conversations :: IsIndexWith(source, index, conversations)
  }

  method CreateIndex(source: Source) returns (index: Index)
    ensures IsIndex(source, index)
  {
    var selected, reached := Select(source);
    var grouping := Group(MessagesOf(selected));
    index := Index(Sort(Documents(selected, grouping.conversations), DocumentNewer), reached);
    assert IsIndexWith(source, index, grouping.conversations);
  }

  lemma SelectionHasUniqueIds(source: Source)
    ensures DistinctIds(MessagesOf(Bounded(Eligible(source), DOCUMENT_LIMIT)))
  {
    FirstOfEachIsUnique([], Candidates(source));
  }

  /** There is one index of a source, whichever way its conversations were found. */
  lemma IndexIsUnique(source: Source, a: Index, b: Index)
    requires IsIndex(source, a) && IsIndex(source, b)
    ensures a == b
  {
    var c :| IsIndexWith(source, a, c);
    var d :| IsIndexWith(source, b, d);
    var messages := MessagesOf(Bounded(Eligible(source), DOCUMENT_LIMIT));
    SelectionHasUniqueIds(source);
    GroupingIgnoresOrder(messages, c, messages, d);
  }

  /** Taking the first mail of each id adds exactly the ids that occur among the candidates. */
  lemma {:induction false} EligibleIds(taken: seq<Mail>, mails: seq<Mail>, id: nat)
    ensures HasId(FirstOfEach(taken, mails), id) <==> HasId(taken, id) || HasId(mails, id)
    decreases |mails|
  {
    if mails != [] {
      var next := if HasId(taken, mails[0].message.id) then taken else taken + [mails[0]];
      EligibleIds(next, mails[1..], id);
      assert HasId(next, id) <==> HasId(taken, id) || mails[0].message.id == id by {
        PushId(taken, mails[0], id);
      }
      PushId(mails[1..], mails[0], id);
      assert HasId(mails, id) <==> mails[0].message.id == id || HasId(mails[1..], id) by {
        forall k | 1 <= k < |mails| ensures mails[k] == mails[1..][k - 1] {}
        forall k | 0 <= k < |mails[1..]| ensures mails[1..][k] == mails[k + 1] {}
      }
    }
  }

  lemma PushId(mails: seq<Mail>, m: Mail, id: nat)
    ensures HasId(mails + [m], id) <==> HasId(mails, id) || m.message.id == id
  {
    if HasId(mails, id) {
      var k :| 0 <= k < |mails| && mails[k].message.id == id;
      assert (mails + [m])[k].message.id == id;
    }
    assert (mails + [m])[|mails|] == m;
  }

  // Searching

  /** A query: the fields of a document that match, and how many hits are asked for. */
  datatype Query = Query(matched: Document -> seq<nat>, limit: int)

  datatype Hit = Hit(document: Document, fields: seq<nat>)
  datatype SearchResult = SearchResult(hits: seq<Hit>, totalMatched: nat, indexed: nat, limitReached: bool, resultLimit: nat)

  function ResultLimit(limit: int): nat {
    if limit < 1 then 1 else if limit > RESULT_LIMIT then RESULT_LIMIT else limit
  }

  function Hits(documents: seq<Document>, query: Query): seq<Hit> {
    if documents == [] then []
    else
      var last := documents[|documents| - 1];
      Hits(documents[..|documents| - 1], query) + (if query.matched(last) != [] then [Hit(last, query.matched(last))] else [])
  }

  /** The first hits up to the limit, and the number of all of them. */
  function Found(index: Index, query: Query): SearchResult {
    var all := Hits(index.documents, query);
    SearchResult(Bounded(all, ResultLimit(query.limit)), |all|, |index.documents|, index.limitReached, ResultLimit(query.limit))
  }

  method SearchIndex(index: Index, query: Query) returns (r: SearchResult)
    ensures r == Found(index, query)
  {
    var resultLimit := ResultLimit(query.limit);
    var hits: seq<Hit> := [];
    var totalMatched := 0;
    var i := 0;
    while i < |index.documents|
      invariant 0 <= i <= |index.documents|
      invariant hits == Bounded(Hits(index.documents[..i], query), resultLimit)
      invariant totalMatched == |Hits(index.documents[..i], query)|
    {
      var document := index.documents[i];
      assert index.documents[..i + 1][..i] == index.documents[..i];
      var fields := query.matched(document);
      if fields != [] {
        totalMatched := totalMatched + 1;
        if |hits| < resultLimit {
          hits := hits + [Hit(document, fields)];
        }
      }
      i := i + 1;
    }
    assert index.documents[..|index.documents|] == index.documents;
    return SearchResult(hits, totalMatched, |index.documents|, index.limitReached, resultLimit);
  }

  // The cache on disk

  const SCHEMA_VERSION := 1

  /** The file of the cache. A built file holds an index with the fingerprint of its source,
      which stands for the source itself: distinct sources have distinct fingerprints. */
  datatype File = Missing | Corrupt | Built(version: int, fingerprint: Source, index: Index)

  /** Which calls fail in one search: the first write, the removal of the file, the second write. */
  datatype Faults = Faults(write: bool, reset: bool, rewrite: bool)

  class IndexCache {
    var file: File

    /** A file of this version holds the index of the source whose fingerprint it has. */
    ghost predicate Valid()
      reads this
    {
      file.Built? && file.version == SCHEMA_VERSION ==> IsIndex(file.fingerprint, file.index)
    }

    constructor ()
      ensures Valid() && file == Missing
    {
      file := Missing;
    }

    /** The stored index if it is current, else a fresh one, stored in one transaction; None when that fails. */
    method LoadOrRebuild(source: Source, fails: bool) returns (r: Option<Index>)
      requires Valid()
      modifies this
      ensures Valid()
      ensures r.Some? ==> IsIndex(source, r.value) && file.Built? && file.fingerprint == source
      ensures r.None? ==> file == old(file)
    {
      if file.Built? && file.version == SCHEMA_VERSION && file.fingerprint == source {
        return Some(file.index);
      }
      if file.Corrupt? || fails {
        return None;
      }
      var rebuilt := CreateIndex(source);
      file := Built(SCHEMA_VERSION, source, rebuilt);
      return Some(rebuilt);
    }

    method Reset(fails: bool)
      requires Valid()
      modifies this
      ensures Valid() && file == if fails then old(file) else Missing
    {
      if !fails {
        file := Missing;
      }
    }

    /** Whatever has happened to the file before, and whatever fails now, the answer is that of an index of this source. */
    method Search(source: Source, query: Query, faults: Faults) returns (r: SearchResult)
      requires Valid()
      modifies this
      ensures Valid()
      ensures forall index :: IsIndex(source, index) ==> r == Found(index, query)
    {
      var stored := LoadOrRebuild(source, faults.write);
      if stored.None? {
        Reset(faults.reset);
        stored := LoadOrRebuild(source, faults.rewrite);
      }
      var index: Index;
      if stored.Some? {
        index := stored.value;
      } else {
        index := CreateIndex(source);
      }
      r := SearchIndex(index, query);
      forall other | IsIndex(source, other) ensures r == Found(other, query) {
        IndexIsUnique(source, index, other);
      }
    }

    /** An explicit rebuild; it says whether the index is on disk now. */
    method Rebuild(source: Source, fails: bool, resetFails: bool) returns (stored: bool)
      requires Valid()
      modifies this
      ensures Valid()
      ensures stored ==> file.Built? && file.fingerprint == source && IsIndex(source, file.index)
    {
      if file.Corrupt? || fails {
        Reset(resetFails);
        return false;
      }
      var index := CreateIndex(source);
      file := Built(SCHEMA_VERSION, source, index);
      return true;
    }

    /** The file may be lost, damaged, or replaced by another version of the application at any time. */
    method Disturb(found: File)
      requires Valid() && (found.Built? ==> found.version != SCHEMA_VERSION)
      modifies this
      ensures Valid() && file == found
    {
      file := found;
    }
  }
}
