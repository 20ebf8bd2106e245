# Material Email: a verified model

This project models the parts of Material Email that keep mail, calendars and secrets consistent while
processes die, files are half written, servers answer as they like and several windows work on one
store. It states what those parts promise and proves it for every input, run or reachable state.
`dafny verify dfyconfig.toml` checks everything.

## What is modelled

**The PIM store** (`src/main/pim/atomic-json-store.ts`). Several processes share one JSON file.
`LockProtocol` is the directory lock as a step machine: publishing by rename, observing, judging the
owner, planting the guard, quarantining a dead owner's directory under its tombstone, asserting and
moving aside, with deaths between any two steps. `Slots` and `CommitCrashes` are the three files
(`current`, `next`, `backup`), the selector, the stages of a commit, and cuts at every stage.
`StoreProtocol` joins lock, files and per-process caches into one machine, with deaths, failing calls and
unreadable files; `StaleLoads` and `StoreLoss` say exactly when that machine goes back to an older state
or loses its state for good. `AtomicStore` is the class with its three methods and a trail of every file
state on the way.

**The PIM journal** (`src/main/pim/pim-service.ts`). `PimJournal` has the live collections and the
append-only journal, with create, update, delete, restore, import and refresh; `PimService` is the
class; `TaskRefresh` interleaves slow refreshes of several processes with local edits.

**Conversations** (`src/shared/conversations.ts`). `UnionFind` is the parents array with path
compression; `Conversations` links messages by shared subjects and references; `Grouping` collects,
sorts and sums up the conversations.

**Cached mail search** (`src/shared/cached-mail-index.ts`, `src/main/cached-mail-sqlite-index.ts`).
`CachedIndex` selects at most 2,000 eligible messages, searches them, and caches the index in a file
that may be lost, damaged or stale.

**iCalendar** (`src/main/pim/icalendar.ts`). `ICalendarText` (escaping, splitting, categories),
`ICalendarDuration`, `ICalendarLines` (folding), `ICalendarProperty` (content lines), `ICalendarAttendee`
and `ICalendarDocument` (the stack parser and the printer) follow RFC 5545.

**Mail server pieces.** `KeywordCodec` turns tag names into IMAP keyword atoms and brings a message's
keywords to a wanted set; `Pop3Reader` is the bounded line reader of the POP3 account test with its
dot-stuffed bodies (section 3 of RFC 1939).

**The token vault** (`src/main/oauth-token-vault.ts`). `VaultFiles` is the replace-by-rename machine with
its displaced-file fallback and recovery on reading; `VaultDocument` and `TokenVault` are the records and
the operations over them.

**Queues, filters, history, identities.** `MailQueue` and `MailReplay` are an account's queue of
operations and outgoing mail; `MessageFilters` collapses and interprets rule actions; `HistoryPrune`
rewrites a chain of commits; `Identities` keeps one default sender for each account.

`Basics`, `Lists` and `Sorting` hold shared types and facts about lists.

## Findings

- **Repeated crashes of the PIM store can lose everything.** A crash during a commit and another during the
  recovery are harmless (`CommitCrashes.TwoCrashesAreSafe`). A third is not: `CommitCrashes.ThreeCrashesCanLose`
  gives the shortest history. Over all runs, the state is lost for good exactly when a writer dies or fails
  between opening `next` and having written it while neither `current` nor `backup` holds an envelope
  (`StoreLoss.LostIffAWriteWasCut`); from then on no run changes the files or is answered
  (`StoreLoss.GoneForever`).
- **A first start that dies while it writes the defaults** is the simplest such loss
  (`StoreLoss.FirstStartCanLoseTheStore`). Of all the points where it can be cut, it is the one between
  opening `next` and writing it (`CommitCrashes.FirstStartIsLostIffCutAtOpen`).
- **A load that cannot read `current` can drop an acknowledged mutation.** A `backup` that could not be removed
  is then taken for the newest state and committed over it (`StaleLoads.StaleLoadBreaksTheChain`). This happens
  exactly when `current` holds an envelope but cannot be read, `next` does not help, `backup` can be read, and the
  process has nothing newer in its cache (`StaleLoads.StaleLoadIff`); in runs without such a load all answers form
  one chain.
- **Categories do not survive a file in general.** An unpaired double quote swallows the comma behind it.
  `ICalendarText.CategoriesSurviveIff` says exactly which lists survive.
- **An attendee whose name ends in an odd number of backslashes is not read back.** The last backslash makes the
  reader take the closing quote for text, and the parameters behind it are swallowed
  (`ICalendarAttendee.AttendeeReadsBackIff`, `ICalendarProperty.PrintedEntryReadsBackIff`).
- **Collapsing rule actions can change where a message goes** when a mark-junk that would have moved it is later
  withdrawn by mark-not-junk (`MessageFilters.CollapseKeepsDestinationIff`).
- **Editing an identity onto another account** can leave the old account without a default, or without any
  identity (`Identities.SaveKeepsOneDefaultIff`, `Identities.MovingTheOnlyIdentityEmptiesItsAccount`).
- **Cancelling outgoing mail can overwrite an edited draft**, exactly when a different draft has the mail's draft
  id by then (`MailQueue.CancelSparesDraftsIff`, `MailQueue.CancelCanLoseAnEdit`). A rejection never does.
- **A cancelled mail that was never saved as a draft can vanish.** It becomes a draft without an id, and submitting
  the next mail that was never saved removes every such draft (`MailQueue.SubmittingSparesDraftsIff`,
  `MailQueue.CancelledMailCanVanish`).
- **The kind of a POP3 failure can depend on how bytes are cut into chunks**, though failing does not: exactly when
  the bytes behind the complete lines begin with an overlong line that ends without a CR
  (`Pop3Reader.KindOfFailureIsFixedIff`).
- **A preview of history pruning counts a foreign head twice** (`HistoryPrune.PreviewAddsUp`).

## Model

| member | source | states |
|---|---|---|
| LockProtocol.MutualExclusion | src/main/pim/atomic-json-store.ts:288-335 | In every reachable state at most one live contender is in the exclusive section, and the directory at the lock path is its own. |
| LockProtocol.LiveOwnerPassesAssertion | src/main/pim/atomic-json-store.ts:366-371 | A live owner's ownership assertion succeeds in every reachable state. |
| LockProtocol.MovesTakeOnlyTheirOwn | src/main/pim/atomic-json-store.ts:373-411 | A recovery only ever moves the dead owner's directory, to that owner's tombstone, with no live contender inside; a release moves only the releaser's directory. |
| LockProtocol.LiveOwnerKeepsLock | src/main/pim/atomic-json-store.ts:373-411 | No run of other contenders, however delayed, takes the lock from a live owner. |
| LockProtocol.TombstoneIsAFence | src/main/pim/atomic-json-store.ts:392-407 | Once a dead owner's lock lies under its tombstone it never returns to the lock path, and late recoveries of that owner move nothing. |
| LockProtocol.DeadLockIsRecoverable | src/main/pim/atomic-json-store.ts:288-335 | From any reachable state with a dead owner, a waiting contender left alone recovers the lock and enters. |
| Slots.SelectFindsTheBest | src/main/pim/atomic-json-store.ts:172-176 | The selector finds an envelope whenever one exists, and none of higher generation or, at equal generation, higher priority is passed over. |
| Slots.SelectionOfResting | src/main/pim/atomic-json-store.ts:127-162 | From files that rest between operations the selector finds the last envelope, one mutation more, or nothing, whichever files it cannot read; an older one exactly when it passes over an unreadable `current`. |
| CommitCrashes.TwoCrashesAreSafe | src/main/pim/atomic-json-store.ts:228-262 | A crash at any stage of committing g+1 and another at any stage of the first recovery leave exactly envelope g or g+1, and a full recovery ends with it in `current` and the other slots gone. |
| CommitCrashes.ThreeCrashesCanLose | src/main/pim/atomic-json-store.ts:228-262 | A concrete three-crash history after which no slot holds an envelope. |
| CommitCrashes.RecoveryIsSafeIffAnotherCopyExists | src/main/pim/atomic-json-store.ts:233-262 | A recovery survives a crash at every stage if and only if it does not select `next` with neither `current` nor `backup` valid. |
| CommitCrashes.FirstStartIsLostIffCutAtOpen | src/main/pim/atomic-json-store.ts:147-150 | A first start cut anywhere leaves files that no load accepts if and only if it is cut between opening `next` and writing the defaults. |
| StoreProtocol.AnswersFormOneChain | src/main/pim/atomic-json-store.ts:86-125 | Across all processes, deaths and failing calls, in every run without a stale load, the envelopes returned form one chain: later ones extend earlier ones, each generation is one mutation of the one before, and no-ops change nothing. |
| StoreProtocol.CachesNeverRunAhead | src/main/pim/atomic-json-store.ts:178-190 | Every later answer, to the process itself or another, extends what a process has cached: no generation goes backwards. |
| StoreProtocol.GuardsNeverFire | src/main/pim/atomic-json-store.ts:178-208 | In reachable states ownership is never lost and intact files match the base of a mutation; a load is refused if and only if it sees a file but no envelope, or passes over `current` in a process that has cached something newer than `backup`. |
| StaleLoads.StaleLoadIff | src/main/pim/atomic-json-store.ts:172-226 | A load goes on from an older state than the newest one if and only if `current` cannot be read, `next` does not help, `backup` can be read, and the cache does not know better. |
| StaleLoads.StaleLoadForks | src/main/pim/atomic-json-store.ts:152-162 | After any such load the reader can be answered with the older state, which is then the only one in the files. |
| StaleLoads.StaleLoadBreaksTheChain | src/main/pim/atomic-json-store.ts:219-261 | A concrete run: an acknowledged mutation, a backup that could not be removed, and a reader that is answered without the mutation. |
| StoreLoss.StepLosesIffItOpensExposed | src/main/pim/atomic-json-store.ts:228-262 | A single step leaves no readable envelope, for the moment, if and only if it opens `next` while no other slot holds one. |
| StoreLoss.GoneForever | src/main/pim/atomic-json-store.ts:127-151 | Once no file holds an envelope and no live process is about to write one, no later run changes the files, answers anything or caches anything. |
| StoreLoss.LostIffAWriteWasCut | src/main/pim/atomic-json-store.ts:228-262 | Over all runs, with any number of processes, deaths, failing calls and unreadable files, the state is lost for good if and only if somewhere the writer of an exposed `next` dies or fails before the file is complete. |
| StoreLoss.FirstStartCanLoseTheStore | src/main/pim/atomic-json-store.ts:133-150 | A concrete run: the first process dies after opening `next` for the defaults, and no later run is ever answered or changes the file. |
| AtomicStore.AtomicJsonStore.Commit | src/main/pim/atomic-json-store.ts:228-262 | A commit ends with the envelope alone in `current`; a refused final rename leaves it in `next`, with a displaced `current` put back if that is possible; the trail is every file state on the way. |
| AtomicStore.AtomicJsonStore.LoadLatest | src/main/pim/atomic-json-store.ts:127-162 | A load recovers and caches the newest envelope; refused by a check it touches nothing, and refused by a rename it leaves the cache alone. |
| AtomicStore.AtomicJsonStore.Mutate | src/main/pim/atomic-json-store.ts:99-125 | A changed draft becomes the next generation of what was loaded, an unchanged one leaves files and generation as the load left them, and refused renames are reported; the trail is that of the load and then of the commit. |
| AtomicStore.MutationTrailIsCrashSafe | src/main/pim/atomic-json-store.ts:99-262 | From any resting files with an envelope in `current`: wherever the load or the commit of a mutation is cut, and wherever the next load is then cut, what is found is the envelope in `current` or the loaded one, and from the commit on the one before or after the mutation. |
| AtomicStore.MutationSurvivesACrashIff | src/main/pim/atomic-json-store.ts:127-262 | From any files that a load accepts, a crash anywhere in a mutation leaves an envelope to be found if and only if `current` or `backup` held one at the start. |
| AtomicStore.MutationSurvivesTwoCrashesIff | src/main/pim/atomic-json-store.ts:127-262 | The same with another crash anywhere in the recovery, if and only if `current` held one at the start. |
| PimJournal.RecordKeepsJournaled | src/main/pim/pim-service.ts:876-905 | Recording an entry that continues the journal, together with its collection change, keeps collections and journal in step. |
| PimJournal.ApplyKeepsJournaled | src/main/pim/pim-service.ts:146-316 | Every operation keeps the live collections equal to what the journal says. |
| PimJournal.RestoreKeepsJournaled | src/main/pim/pim-service.ts:758-804 | A restore, with or without a named transaction, keeps collections and journal in step. |
| PimJournal.RefreshKeepsJournaled | src/main/pim/pim-service.ts:673-734 | The transactional half of a refresh keeps collections and journal in step. |
| PimJournal.EveryRunIsJournaled | src/main/pim/pim-service.ts:834-905 | In every reachable state a live entity is the `after` of its last entry, each `before` is the previous `after`, revisions run 1, 2, 3 and so on, and sequence numbers are contiguous from 1. |
| PimJournal.CreatedOnceAndFirst | src/main/pim/pim-service.ts:834-852 | A uid is created at most once in a whole run, before anything else is recorded about it. |
| PimJournal.LatestRevisionIsVersions | src/main/pim/pim-service.ts:867-874 | The scanned latest revision of a uid is the number of versions the journal has of it. |
| PimJournal.ApplyFollows | src/main/pim/pim-service.ts:600-671 | Any operation, refreshes included, that changes the calendar tasks moves their mutation version; none shortens the journal. |
| PimJournal.RestoreUndoesDelete | src/main/pim/pim-service.ts:758-789 | Deleting and restoring brings the content back under the next revision and changes nothing else. |
| PimJournal.RestoreUndoesUpdate | src/main/pim/pim-service.ts:758-804 | Updating and restoring brings the old content back under a new revision and changes nothing else. |
| PimService.PimService.ScanLatestRevision | src/main/pim/pim-service.ts:867-874 | The scan over the whole journal returns the specified latest revision. |
| PimService.PimService.CreateEntity | src/main/pim/pim-service.ts:146-157 | Creating adds one entity of revision 1 and one entry, or refuses a uid that was ever used. |
| PimService.PimService.UpdateEntity | src/main/pim/pim-service.ts:204-226 | Updating replaces the entity under the next revision with one entry, records nothing for an empty change, and refuses an unknown uid. |
| PimService.PimService.DeleteEntity | src/main/pim/pim-service.ts:228-238 | Deleting removes the entity and records it once; an unknown uid changes nothing. |
| PimService.PimService.RestoreEntity | src/main/pim/pim-service.ts:758-804 | Restoring puts back what the last, or the named, transaction replaced, under a revision above all recorded ones. |
| PimService.PimService.ImportICalendar | src/main/pim/pim-service.ts:434-511 | Events, then calendar tasks, are imported into one draft; the first refusal leaves the state as it was. |
| PimService.PimService.CommitRefresh | src/main/pim/pim-service.ts:673-734 | A refresh writes only if it is the latest and the version it read still holds; otherwise the state is untouched. |
| PimService.RefreshInOrder | src/main/pim/pim-service.ts:690-732 | Created, updated and unchanged counts add up to the records; created is the growth of the collection, and created plus updated the growth of the journal. |
| TaskRefresh.AppliedRefreshSawWhatItWritesOn | src/main/pim/pim-service.ts:673-734 | In every interleaving an applied refresh is the latest one of its process and writes onto exactly the collection it read as its baseline. |
| TaskRefresh.LocalEditWins | src/main/pim/pim-service.ts:631-734 | Once a local edit has moved the collection since a refresh read its baseline, that refresh never writes. |
| UnionFind.CompressionKeepsRoots | src/shared/conversations.ts:73-83 | Pointing an element at its root moves no element to another tree, and every walk still ends. |
| UnionFind.LinkingMerges | src/shared/conversations.ts:84-88 | Linking one root under another merges exactly their two trees. |
| UnionFind.Parents.Find | src/shared/conversations.ts:73-83 | The walk and the compression terminate, return the root, and leave every element's root as it was. |
| UnionFind.Parents.Union | src/shared/conversations.ts:84-88 | Afterwards exactly the two elements' trees are one. |
| Conversations.JoiningIsSound | src/shared/conversations.ts:92-104 | Joining two messages that share a key puts only chained messages into one tree. |
| Conversations.LinkMessages | src/shared/conversations.ts:89-104 | After the pass, two messages are in one tree if and only if a chain of shared subjects or reference tokens joins them. |
| Grouping.Collect | src/shared/conversations.ts:106-112 | Each tree becomes one component, in message order, with every message exactly once. |
| Grouping.Group | src/shared/conversations.ts:68-127 | Up to 2,000 messages the conversations are exactly the classes of related messages, each sorted and summed up, with every message once; beyond that every message stands alone and the limit is flagged. |
| Grouping.ComponentsAreClasses | src/shared/conversations.ts:106-112 | A message is in a component if and only if it is related to the component's messages within the whole set. |
| Grouping.GroupingIgnoresOrder | src/shared/conversations.ts:68-127 | For messages with distinct ids the whole list of conversations is the same for every order of the input. |
| Grouping.UnreadIsConserved | src/shared/conversations.ts:114-126 | The unread counts of the conversations add up to the unread messages of the input. |
| CachedIndex.Select | src/shared/cached-mail-index.ts:70-94 | The selection is the first 2,000 distinct eligible messages, and the limit flag is set exactly when there are more. |
| CachedIndex.EligibleIds | src/shared/cached-mail-index.ts:80-94 | Exactly the ids that occur among the candidates are selected when there is room. |
| CachedIndex.IndexIsUnique | src/shared/cached-mail-index.ts:96-123 | A source has one index, whichever way its conversations were found. |
| CachedIndex.SearchIndex | src/shared/cached-mail-index.ts:125-160 | Hits are the first matches up to the clamped limit, and the total counts all matches. |
| CachedIndex.IndexCache.LoadOrRebuild | src/main/cached-mail-sqlite-index.ts:113-129 | What is loaded or rebuilt is an index of the current source; a failure leaves the file as it was. |
| CachedIndex.IndexCache.Search | src/main/cached-mail-sqlite-index.ts:76-146 | After any history of sources, failures, resets and damage, every search equals the search of a fresh index of the current source. |
| CachedIndex.IndexCache.Rebuild | src/main/cached-mail-sqlite-index.ts:86-100 | A rebuild that reports success has stored the current source's index. |
| ICalendarText.UnescapeUndoesEscape | src/main/pim/icalendar.ts:67-71 | Unescaping an escaped text gives the text with line breaks as LF, for every text. |
| ICalendarText.EscapeStep | src/main/pim/icalendar.ts:70-71 | The four replacement passes in sequence act on each character, or CRLF, in turn. |
| ICalendarText.SplitUnescaped | src/main/pim/icalendar.ts:41-65 | The loop cuts exactly at the delimiters that are neither escaped nor between double quotes. |
| ICalendarText.CutThenJoin | src/main/pim/icalendar.ts:41-65 | Splitting loses nothing: joining the parts gives the value back, and no part holds a cutting delimiter. |
| ICalendarText.CutUndoesJoinIffWhole | src/main/pim/icalendar.ts:41-65 | Splitting a joined list gives the list back if and only if its parts are ones that a split can produce. |
| ICalendarText.CategoriesSurviveIff | src/main/pim/icalendar.ts:354-355 | A list of categories survives printing and parsing, up to line breaks, if and only if none is empty and all but the last have paired double quotes. |
| ICalendarDuration.DurationRoundTripIff | src/main/pim/icalendar.ts:328-334 | Printing then parsing a trigger gives the minutes back if and only if they are not zero; zero is refused. |
| ICalendarDuration.AcceptedDurationsReprint | src/main/pim/icalendar.ts:480-487 | Any accepted duration, weeks and seconds included, is reprinted with the same meaning. |
| ICalendarLines.FoldLine | src/main/pim/icalendar.ts:432-443 | The loop computes the specified physical lines. |
| ICalendarLines.FoldedLinesFit | src/main/pim/icalendar.ts:432-443 | Every physical line is at most 75 octets of UTF-8, as section 3.1 of RFC 5545 asks. |
| ICalendarLines.ShortLinesStay | src/main/pim/icalendar.ts:432-443 | A line of at most 75 octets is not folded. |
| ICalendarLines.Unfold | src/main/pim/icalendar.ts:73-85 | The loop computes the logical lines or the error. |
| ICalendarLines.UnfoldFailsIff | src/main/pim/icalendar.ts:77-81 | Unfolding fails exactly when the first line that is not empty is a continuation. |
| ICalendarLines.UnfoldUndoesFold | src/main/pim/icalendar.ts:73-85 | Folding content lines, joining with CRLF and unfolding gives them back. |
| ICalendarProperty.ParseProperty | src/main/pim/icalendar.ts:87-109 | The loops compute the specified name, parameters and value, or refuse the line. |
| ICalendarProperty.TextLineReadsBack | src/main/pim/icalendar.ts:67-71 | Every text can be printed as a property and is read back with its line breaks as LF. |
| ICalendarProperty.PrintedEntryReadsBackIff | src/main/pim/icalendar.ts:445-446 | A printed content line is parsed as the property it was printed from if and only if no quoted value but the last ends in an odd number of backslashes. |
| ICalendarAttendee.AttendeeReadsBackIff | src/main/pim/icalendar.ts:470-478 | An attendee's line is read back if and only if the name does not end in an odd number of backslashes; an organizer's line always is. |
| ICalendarDocument.ParseComponents | src/main/pim/icalendar.ts:111-129 | The stack parser computes the specified component or error. |
| ICalendarDocument.AcceptedIffCalendar | src/main/pim/icalendar.ts:111-129 | A source is accepted if and only if it unfolds to one balanced VCALENDAR, and then that tree is what is returned. |
| ICalendarDocument.AcceptedClosesTop | src/main/pim/icalendar.ts:114-126 | Whatever is accepted closes the innermost open component by balanced items and its matching END. |
| ICalendarDocument.PrintedDocumentReadsBackIff | src/main/pim/icalendar.ts:536-549 | Printing a calendar tree, folding it and reading the file gives the same tree if and only if every line of it is read back. |
| ICalendarDocument.PrintedLinesFit | src/main/pim/icalendar.ts:432-446 | Every physical line of a printed tree keeps to 75 octets. |
| KeywordCodec.MessageTagKeyword | src/main/mail-service.ts:86-102 | The encoding loop builds the specified atom, or refuses an empty name or one over 64 characters. |
| KeywordCodec.MessageTagKeywordName | src/main/mail-service.ts:104-122 | The decoding loop returns the specified bytes, or nothing. |
| KeywordCodec.NameSurvivesCaseFolding | src/main/mail-service.ts:77-122 | Decoding an accepted tag's atom gives its name back after any change of letter case by the server. |
| KeywordCodec.DistinctNamesGetDistinctAtoms | src/main/mail-service.ts:79-85 | Two names whose atoms differ at most in case are one name. |
| KeywordCodec.AtomsAreLegal | src/main/mail-service.ts:77-102 | Atoms use only digits, lower-case letters, '-' and '_', which are legal in flag keywords (section 9 of RFC 3501). |
| KeywordCodec.KeywordIsTheAtomIff | src/main/mail-service.ts:104-122 | A keyword read as a tag is that tag's own atom if and only if it escapes nothing needlessly and keeps to the limit. |
| KeywordCodec.ApplyKeywords | src/main/mail-service.ts:721-747 | A reported success means the message has exactly the wanted tags as read back; when it fails and what it asks for is fixed by the server's answers. |
| KeywordCodec.HonestServerKeepsForeignKeywords | src/main/mail-service.ts:729-731 | A server that does what it confirms ends with the wanted tags and every keyword that is not a tag. |
| VaultFiles.StepStuttersOrSwitches | src/main/oauth-token-vault.ts:587-668 | Every step, failure or crash leaves what a reader finds alone or moves it between the two documents of the write under way. |
| VaultFiles.ReadsAreExplained | src/main/oauth-token-vault.ts:587-683 | With any number of crashes at any steps, every read returns an outcome of the writes before it. |
| VaultFiles.AcknowledgedWritesAreNotLost | src/main/oauth-token-vault.ts:622-668 | An acknowledged document is what later reads return until another write begins. |
| VaultFiles.InterruptedWriteIsAllOrNothing | src/main/oauth-token-vault.ts:622-668 | After an interrupted write the next read returns the document before or after it. |
| TokenVault.TokenVault.ReadDocument | src/main/oauth-token-vault.ts:587-682 | Reading recovers a displaced file and removes what debris can be removed, without changing the map that the files stand for. |
| TokenVault.TokenVault.WriteDocument | src/main/oauth-token-vault.ts:622-668 | A completed write has the new document; a failed one has the old or the new. |
| TokenVault.TokenVault.SaveInitial | src/main/oauth-token-vault.ts:339-366 | A record of generation 1 is added; an existing one and a full vault are refused. |
| TokenVault.TokenVault.Rotate | src/main/oauth-token-vault.ts:368-391 | One record is replaced, with its generation counted up and its creation time, and by default its refresh token, kept. |
| TokenVault.TokenVault.Lookup | src/main/oauth-token-vault.ts:399-419 | Reading returns the map's record for the key. |
| TokenVault.TokenVault.ForgetAccount | src/main/oauth-token-vault.ts:426-436 | Exactly one key is removed from the map. |
| TokenVault.TokenVault.Clear | src/main/oauth-token-vault.ts:438-454 | Exactly one provider's records are removed, and their number is reported. |
| MailQueue.ServerSeesQueueOrder | src/main/app-service.ts:2488-2503 | In every run, with crashes and removals, operations reach the server in the order of queueing. |
| MailQueue.NothingQueuedIsLost | src/main/app-service.ts:1794-1889 | Every queued item still waits or has left as performed, discarded, delivered, a draft, or with its account, and the server bears out the first and third. |
| MailQueue.NoAutomaticAttemptAfterThreeFailures | src/main/app-service.ts:2488-2517 | No item with three counted failures is attempted automatically. |
| MailQueue.MailWaitsForOperations | src/main/app-service.ts:2506-2517 | When mail is sent, every operation that still waits was queued after the sending began. |
| MailQueue.DraftedMailKeepsContent | src/main/app-service.ts:1859-1877 | Mail that is cancelled or rejected is among the drafts with its content. |
| MailQueue.RejectionSparesEditedDrafts | src/main/app-service.ts:2455-2465 | A rejected mail never overwrites a draft. |
| MailQueue.CancelSparesDraftsIff | src/main/app-service.ts:1859-1877 | Cancelling spares every draft if and only if no different draft has the mail's draft id by then. |
| MailQueue.CancelCanLoseAnEdit | src/main/app-service.ts:1867-1869 | A concrete run in which cancelling overwrites an edit made while the mail was waiting. |
| MailQueue.SubmittingSparesDraftsIff | src/main/app-service.ts:1661-1683 | Submitting a mail takes away its own draft if that is unchanged, and nothing else, except that a mail that was never saved takes away every draft without an id. |
| MailQueue.CancelledMailCanVanish | src/main/app-service.ts:1683-1683 | A concrete run in which a cancelled mail is in neither list in the end, though it was neither sent nor discarded. |
| MailReplay.AccountQueue.ReplayOperations | src/main/app-service.ts:2488-2503 | The loop sends exactly the leading operations that go through, and counts one failure if the next was tried. |
| MailReplay.AccountQueue.ReplayPending | src/main/app-service.ts:2488-2518 | The outbox is touched only when no operation is left, and then its leading mails leave in order. |
| MailReplay.PushAffectsOneAccount | src/main/app-service.ts:1054-1056 | Adding to the shared list adds to the end of one account's queue and leaves the others alone. |
| MailReplay.RemovalIsByAccount | src/main/app-service.ts:2498-2498 | Removing by id from the shared list is removing by id from each account's own queue. |
| MailReplay.OwnerRemovalIsByAccount | src/main/app-service.ts:660-661 | Removing an account empties its queue and leaves all others alone. |
| MessageFilters.ClashSpelledOut | src/shared/message-filters.ts:294-323 | Two actions clash exactly when they are the same, contradict each other, are both destinations, or are opposite for one tag. |
| MessageFilters.CollapseActions | src/shared/message-filters.ts:307-327 | The nested loops compute the specified collapsed list. |
| MessageFilters.CollapseKeepsSurvivors | src/shared/message-filters.ts:303-327 | Collapsing keeps, in order, exactly the actions other than stop that no later action clashes with. |
| MessageFilters.CollapseIsClashFree | src/shared/message-filters.ts:307-327 | No two actions of a collapsed list clash. |
| MessageFilters.CollapseIsIdempotent | src/shared/message-filters.ts:307-327 | Collapsing twice is collapsing once. |
| MessageFilters.Interpret | src/main/app-service.ts:1593-1616 | The interpreter's loop computes the specified flags, tags, label and destination. |
| MessageFilters.CollapsedOutcome | src/main/app-service.ts:1593-1622 | The collapsed list sets the same flags, tags and junk label as the full list, and writes tags exactly when they change. |
| MessageFilters.CollapseKeepsDestinationIff | src/main/app-service.ts:1600-1615 | The destination is the same if and only if no junk move is withdrawn by a later mark-not-junk. |
| MessageFilters.Evaluate | src/shared/message-filters.ts:332-351 | The loops collect the actions of the hitting filters, in their order, up to the first stop. |
| MessageFilters.StopEndsTheRun | src/shared/message-filters.ts:339-349 | Nothing behind a filter that hits and stops has any influence. |
| Pop3Reader.ScanConserves | src/main/pop3-test-transport.ts:145-172 | Lines with their CRLF and the rest are exactly the bytes received, and every line keeps to the bound. |
| Pop3Reader.ChunksDoNotMatter | src/main/pop3-test-transport.ts:145-172 | However bytes are cut into chunks, the same lines come out in order and the reader fails or not alike. |
| Pop3Reader.KindOfFailureIsFixedIff | src/main/pop3-test-transport.ts:149-163 | All ways of cutting the bytes fail in the same way if and only if what is left behind the complete lines does not begin with an overlong line that ends without a CR. |
| Pop3Reader.KindOfFailureDependsOnChunks | src/main/pop3-test-transport.ts:149-163 | A concrete stream whose kind of failure depends on the cut. |
| Pop3Reader.LineReader.OnData | src/main/pop3-test-transport.ts:145-172 | A chunk adds its complete lines behind those before, each to one reader or the queue, or ends the reading. |
| Pop3Reader.LineReader.ReadLine | src/main/pop3-test-transport.ts:114-143 | Lines are handed out in order, once each; errors come only after the queued lines. |
| Pop3Reader.LineReader.EmptyIffAllIsRead | src/main/pop3-test-transport.ts:95-97 | The reader, failed or not, is empty if and only if every byte it has taken in belongs to a line handed out. |
| Pop3Reader.Multiline | src/main/pop3-test-transport.ts:373-388 | The loop reads the specified body within the bounds. |
| Pop3Reader.BodyComesBackIffWithinBounds | src/main/pop3-test-transport.ts:373-388 | A dot-stuffed body comes back as sent if and only if it keeps to the byte and line bounds; otherwise it is too big. |
| Pop3Reader.SentBodyComesBack | src/main/pop3-test-transport.ts:145-388 | The same from raw bytes in any chunks. |
| HistoryPrune.PreviewAddsUp | src/main/history-repository.ts:318-343 | The preview's parts add up to the total, plus one exactly when the head is not the application's. |
| HistoryPrune.Prune | src/main/history-repository.ts:189-262 | Pruning happens exactly for a confirmed, current, clean, unblocked preview whose head is still the head of the main branch in the end; its own tree comparison never refuses, and a refusal after the rewriting leaves the new labels behind. |
| HistoryPrune.PruningKeepsRetained | src/main/history-repository.ts:216-243 | The new history is the retained revisions in order with the same trees, messages, authors, dates and labels; the head keeps its tree. |
| HistoryPrune.UnlabeledStaysUnlabeledIff | src/main/history-repository.ts:233-235 | An unlabeled revision stays so if and only if its rewritten commit had no label before. |
| HistoryPrune.SecondPreviewIsEmpty | src/main/history-repository.ts:318-343 | A second preview at the same cutoff finds nothing eligible. |
| HistoryPrune.RemovedAndKeptAddUp | src/main/history-repository.ts:216-219 | Removed and kept revisions together are all revisions. |
| Identities.SaveKeepsOneDefaultIff | src/shared/identities.ts:106-146 | A save keeps one default for each account if and only if it does not move a default away from an account with other identities. |
| Identities.MovingTheOnlyIdentityEmptiesItsAccount | src/shared/identities.ts:106-146 | An edit empties an account exactly when it moves that account's only identity. |
| Identities.RemoveKeepsInv | src/shared/identities.ts:148-159 | Removing keeps one default for each account and is refused exactly for an account's last identity. |
| Identities.PromoteKeepsInv | src/main/identity-store.ts:34-41 | Promoting makes the identity its account's only default. |
| Identities.ForgetKeepsInv | src/main/identity-store.ts:58-60 | Forgetting empties one account and keeps the others as they were. |
| Identities.Load | src/main/persisted-state.ts:407-424 | The two passes compute the specified list. |
| Identities.LoadingEstablishesOneDefault | src/main/persisted-state.ts:407-424 | Whatever the file held, each account with identities has one default after loading. |
| Identities.LoadingKeepsGoodLists | src/main/persisted-state.ts:407-424 | A list that already satisfies this is loaded unchanged. |
| Identities.IdentityStore.Save | src/main/identity-store.ts:24-27 | A save stores the built list or leaves the store as it was, and keeps the invariant unless it moves a default away. |
| Identities.IdentityStore.Delete | src/main/identity-store.ts:29-32 | No deletion leaves an account that had identities without any. |
| Identities.IdentityStore.MakeDefault | src/main/identity-store.ts:34-41 | A promotion stores the promoted list and keeps one default for each account. |
| Identities.IdentityStore.Seed | src/main/identity-store.ts:47-56 | A new account gets an identity; an account that has one is left alone. |
| Identities.UnnamedDraftsUseTheDefault | src/shared/identities.ts:188-197 | A draft that names no identity of its account is sent from the account's default. |

## Left out

- Real file and network I/O, fsync, error-code tables, timers, retry delays and cancellation: calls are events or flags that succeed or fail; renames are atomic, and a rename onto an existing lock or tombstone fails.
- Lock directories whose owner metadata cannot be read, and their age-based recovery: every published lock here has a readable owner, and dead process ids stay dead.
- LockProtocol.MutualExclusion: assumes fresh tokens and an atomic reading of a lock's metadata.
- StoreProtocol.AnswersFormOneChain: speaks of runs without a stale load; StaleLoads says which loads those are. Tests for the existence of a file do not fail, and a payload is its origin with the list of mutations applied to it, which is finer than the comparison of JSON texts in the source.
- AtomicStore.AtomicJsonStore.Mutate: describes one process inside the lock, where only the last rename of a commit can be refused; interleavings, other failing calls and unreadable files are in StoreProtocol.
- JSON encoding, zod schemas, SHA-256, safe storage and UUID generation: identities, injective functions or fresh values; a fingerprint of a search source stands for the source.
- PimService.PimService.CreateEntity: the uid is given; the loop that generates one is not modelled, nor are timestamps, mailing-list member checks and the resolution of vCard addresses.
- PimJournal.EveryRunIsJournaled: transaction ids are identified with sequence numbers, and content is its JSON text without metadata.
- Grouping.GroupingIgnoresOrder: asks for distinct ids; above 2,000 messages the conversations follow the input order. One numbering of ids stands for both the locale order of messages and conversations and the code-unit order that names a conversation.
- CachedIndex.IndexCache.Search: a file of the current version whose rows were altered under intact metadata is not covered.
- Unicode normalization, locale comparison and case folding, date parsing, and the text matching of searches and filter conditions: normalized subjects and tokens, ranks for ids and names, optional numbers for dates, and predicates for matches take their place.
- ICalendarProperty.ParseProperty: only ASCII letters change case, so a name with other letters whose upper case is ASCII is refused here.
- ICalendarDocument.ParseComponents: components are values that join their parent when they are closed, not objects that join when they are opened; nothing reads them in between.
- ICalendarProperty.PrintedEntryReadsBackIff: values that the application prints without quotes are constants, so they have no delimiters and no backslashes here.
- ICalendarDocument.PrintedDocumentReadsBackIff: component names are folded like other lines, which changes nothing for the short names that the application prints; the export boundary in provider-foundation.ts is not part of this model.
- Calendar semantics: time zones, temporal values, recurrences, attendees and alarms other than relative triggers.
- KeywordCodec.MessageTagKeyword: names are their normalized UTF-8 bytes; invalid UTF-8 in foreign keywords is kept as bytes.
- VaultFiles.ReadsAreExplained: renames take effect in order, so only process crashes and failing calls are covered, not a loss of power that undoes a rename; the revocation of tokens at a provider is not modelled.
- TokenVault.TokenVault.WriteDocument: the temporary file of a failed write may stay until the next read.
- TokenVault.TokenVault.SaveInitial: the checks of platform, registration and token texts that come before it, the size bound of the file, and the order of records in it.
- MessageFilters.Interpret: tags and folders are named by numbers, so an empty folder name does not occur; whether a filter's conditions match is given.
- MailQueue.ServerSeesQueueOrder: one account's part of the shared lists; MailReplay shows that the operations on the shared lists act on each account's part alone. Messages and flag changes that are sent at once do not pass through the queue. A draft's content stands for the fields that the source compares, and drafts without an id in other accounts are not seen.
- HistoryPrune.Prune: what the head is in the end, whether it is the main branch and whether the exchange is granted are given; a merge commit counts as one that the application did not make, so the history is a chain; Git itself is not modelled.
- Pop3Reader.LineReader.OnData: deadlines, aborts and disposal are not modelled.
- Junk scoring, themes, preferences, notifications, Electron windows, IPC, the renderer and the site: decided by one function or one branch each, or plumbing.
- src/main/storage.ts: a third crash-safe replacement whose recovery depends on file times; the two stores above carry the harder claims.
