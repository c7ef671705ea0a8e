# Verification of the conversation runtime

Handrail AI keeps a conversation as a durable, revisioned event log. Browsers, servers and restarted processes read the same
provider stream, append its effects to that log by compare-and-swap, resume after failures, send messages through a
write-ahead journal, and show bounded views of the result. This project models those protocols and data structures in Dafny
and proves what they promise over every input, every run and every reachable state.

Run `dafny verify dfyconfig.toml` to verify everything.

| files | subject |
|---|---|
| `Projection`, `ProjectionInvariant`, `ProjectionCitations`, `ProjectionTheorems`, `ProjectionPoints` | several runtimes projecting one response into one shared log |
| `ProjectionRuns`, `ProjectionExceptions`, `ProjectionProgress` | runs of those runtimes, built for every stream that admits an exception, and for every stream that can end |
| `StreamBatches`, `Observer` | batching in front of the observation, and the observation as an object with fields |
| `JsonText`, `JsonEscapes`, `JsonEquality` | JSON text, canonical text and the separately written equality functions |
| `EventStore`, `CatchUp` | the browser event store, paged reading and catch-up |
| `Tables`, `AttachmentDrafts`, `SplitStorage`, `PendingStore`, `SplitRefinement`, `DraftLaws` | the store of unsent work, and its split attachment storage against one plain map |
| `SendJournal` | sending through the journal, with several tabs, late requests, lost replies and deleted conversations |
| `DisplayWindow`, `WindowReads`, `WindowMerge`, `WindowRuns` | the sliding window over display history |
| `Uploader`, `Workspace`, `DraftWorkspace` | the upload queue, the reservation ledger and the two upload slots |
| `DraftTextPool`, `Utf8Encoding` | reference-counted text reservations (modules `Utf8` and `DraftText`), and the encoding they are counted in |
| `Framing`, `Retry` | whole-stream against frame-by-frame framing; bounded retry |

A protocol is a transition function over explicit states (`Exec`), so a lemma about `Exec` speaks of every run. An object that
the source updates in place is a class whose methods are proved against functions of its old value; the laws are lemmas about
those functions. Where a promise turned out to have an exception, the code is modelled as it is, a lemma shows a concrete
failing run, and another lemma says exactly when the promise holds:

- A retried append that was itself only matched by its mutation id is not repeatable for ever: a new event id it brought along
  may later be stored for another event (`EventStore.RetriedIdTaken`, `EventStore.RepeatIdempotent`).
- The journal keeps every admitted, unstarted turn if and only if a rejection is authoritative on replay, as
  `docs/display-history-api.md` promises, and its conversation is not erased: otherwise a late first request can be admitted
  after its row is gone (`SendJournal.LateAdmission`), or a deletion in another tab takes the row away
  (`SendJournal.ErasedWhileAdmitted`; `SendJournal.SafeIffRejectionsAreFinal`, `SendJournal.StrictlySafeIff`).
- `hasOlder` can be wrong after a newer read of a window whose messages were all deleted
  (`WindowRuns.OlderFlagCanMislead`, `DisplayWindow.PagesStayHonest`).
- Canonical text does not separate the two zeros that `jsonValuesEqual` separates (`JsonEquality.ZeroIsTheException`).
- A replayed frame below the resume point is refused when it is an empty text or a citation batch that never reached the log
  (`ProjectionExceptions.EmptyTextExample`, `ProjectionTheorems.StaleReplay`).
- A tool call can move the resume point past a citation batch that no runtime has written
  (`ProjectionExceptions.PassedIffSkippable`, whose proof builds a run that the code can make for every such stream).
- A citation link can follow the terminal event of its response
  (`ProjectionExceptions.CancelledResponseStraggles`, `ProjectionExceptions.StragglesIff`).

## Model

| member | source | states |
|---|---|---|
| `ProjectionInvariant.Exec` | src/runtime.ts:477-599 | every state that any run of any number of runtimes reaches (appends, conflicts, crashes, lost replies of any committed append, rehydration with metadata read further than the projected view, replays, outside events) keeps one invariant tying the log, each runtime's memory and each observation together |
| `ProjectionTheorems.ExactlyOnce` | src/runtime.ts:2385-2438 | in every reachable state no (request, sequence) key is in the log twice, and the text events in log order spell a prefix of the concatenated deltas, with every started, text and tool-call effect in stream order without a gap |
| `ProjectionTheorems.CompleteAtTheEnd` | src/runtime.ts:904-948 | before the terminal event stand all started, text and tool-call effects in stream order, the whole text, and every citation batch that is not exposed; after it comes nothing of the response but exposed citation batches |
| `ProjectionCitations.CitationsBeforeTheEnd` | src/runtime.ts:2289-2322 | a citation batch is before the terminal event unless a resume-safe tool call can overtake it or it trails the text of a response that does not complete |
| `ProjectionCitations.SafeResumeOfCitations` | src/runtime.ts:730-733 | while the turn runs, the safe sequence never passes an unwritten citation batch, unless a tool call follows it with no text in between and no usage before |
| `ProjectionRuns.AdmittedFirst` | src/runtime.ts:600-630 | in every possible run the admission of the turn stands before everything of its response in the log, and whoever observes it comes after |
| `ProjectionExceptions.PassedIffSkippable` | src/runtime.ts:2238-2308 | some possible run lets the safe sequence pass an unwritten citation batch of a running turn if and only if the stream has such a tool call behind the batch; in a possible run a turn is admitted once, observed only by runtimes that have seen its admission, and no message id is minted twice |
| `ProjectionExceptions.StragglesIff` | src/runtime.ts:1977-2004 | some possible run has an event of the response after its terminal event if and only if the stream ends, has text, and has an exposed citation batch |
| `ProjectionExceptions.CancelledResponseStraggles` | src/runtime.ts:1977-2004 | a cancelled response with a text and then a citation batch has a possible run in which the citation link follows the terminal event |
| `ProjectionTheorems.SafeResume` | src/runtime.ts:730-733 | no runtime's safe sequence ever passes a started, non-empty text or tool-call frame that is missing from the log, nor, while the turn still runs, a usage frame or an unwritten citation batch other than a skippable one |
| `ProjectionTheorems.OneMessage` | src/runtime.ts:575-588 | whatever ids concurrent projectors invent, all text and citation events of the turn carry one message id, and the completion names it |
| `ProjectionTheorems.OneEnding` | src/runtime.ts:904-937 | observed responses end a turn at most once, and never after it has ended in another way |
| `ProjectionTheorems.AdmittedAlone` | src/runtime.ts:600-630 | between two admissions in the log the earlier turn has ended |
| `ProjectionProgress.ActiveIsSince` | src/runtime.ts:600-630 | a turn is active exactly when it was admitted and since then no turn was admitted and it has not ended |
| `ProjectionProgress.AdmitsWhenFree` | src/runtime.ts:600-630 | an up-to-date runtime admits a turn exactly when none is active |
| `ProjectionTheorems.CheckpointsAdvance` | src/runtime.ts:2950-2998 | stored transport checkpoints have non-decreasing revisions, never beyond the log that holds them |
| `ProjectionTheorems.CheckpointNeverConflicts` | src/runtime.ts:2950-2998 | while the turn runs, a checkpoint is refused only for being malformed or beyond the durable revision; the conflict refusals never fire |
| `ProjectionPoints.PointsComeFromTheTransport` | src/runtime.ts:2950-2998 | in every run each stored resume point has the event and the cursor of a point that the transport handed over at the very step that stored it, under the revision of the log that it covers |
| `ProjectionPoints.ParkStores` | src/runtime.ts:836-884 | an up-to-date, disconnected observation of a running turn stores the offered point, and remembers it, exactly when the point is well-formed and not ahead of the log and no citations wait; otherwise nothing changes |
| `ProjectionPoints.SamePointAgain` | src/runtime.ts:2983-2992 | the point that is stored already is not a conflict |
| `ProjectionPoints.FinishStores` | src/runtime.ts:904-948 | an up-to-date observation that may end a running turn writes one terminal event with the outcome of the last frame and the offered point, and writes nothing when the point is malformed or ahead |
| `ProjectionPoints.ResumesFromTheLast` | src/runtime.ts:2728-2743 | a runtime that is up to date resumes from the last point in the log, whoever stored it |
| `ProjectionPoints.LastIsLast` | src/runtime.ts:2740-2741 | that point is the one that no later event replaces |
| `ProjectionProgress.FlushWrites` | src/runtime.ts:553-588 | an up-to-date flush writes exactly the drafts that are not durable, with the message id of the log, or gives up a rebased batch whose turn is no longer active |
| `ProjectionProgress.PrefixSurvives` | src/runtime.ts:778-793 | a refused or malformed frame ends the observation, but what was read before it is still written |
| `ProjectionProgress.FinishesIff` | src/runtime.ts:798-948 | some possible run brings a response to its terminal event if and only if the response ends and, when it completes, it has a text or every citation batch of it can be passed |
| `ProjectionProgress.CanAlwaysFinish` | src/runtime.ts:445-459 | from every state that a possible run reaches while the turn runs, whatever conflicts, lost replies and crashes came before, any one runtime can start anew and bring a response with a text or without citations to its terminal event |
| `ProjectionTheorems.StaleReplay` | src/runtime.ts:2404-2409 | a new up-to-date observation refuses a replayed stale frame exactly when it is an empty text or a citation batch that never reached the log; every other stale frame is a duplicate |
| `ProjectionExceptions.EmptyTextIsRefused` | src/runtime.ts:2404-2409 | whenever an empty text stands before a lasting frame, with no usage up to it, a possible run ends with an up-to-date runtime that refuses the replayed empty text |
| `ProjectionExceptions.PassedBatchIsRefused` | src/runtime.ts:2404-2409 | the same for every citation batch that can be passed unwritten |
| `ProjectionExceptions.EmptyTextExample` | src/runtime.ts:2404-2409 | such a run of a three-frame stream |
| `StreamBatches.StreamBatches` | src/stream-batches.ts:3-38 | for every source, error and timer outcome the batches concatenate to the source, batchable items only share a batch with batchable ones, and no batch exceeds the maximum |
| `Observer.FrameState.constructor` | src/runtime.ts:720-752 | an observation starts from the remembered safe sequence and message |
| `Observer.FrameState.AcceptFrame` | src/runtime.ts:2385-2438 | the stateful check computes the disposition and the new state of the specification that the run theorems are about |
| `Observer.FrameState.DraftFrame` | src/runtime.ts:2238-2322 | the stateful drafting computes the drafts, pending citations, message id and safe mark of that specification |
| `Observer.FrameState.ReadBatch` | src/runtime.ts:763-777 | reading a batch is feeding its frames one by one, up to the first malformed one |
| `Observer.FrameState.PersistBatch` | src/runtime.ts:778-784 | for an up-to-date runtime, persisting what was drafted is the specified persist, message id included |
| `Observer.BatchingIsTransparent` | src/runtime.ts:763-787 | for any split of a frame sequence into batches, projecting and persisting batch by batch ends in the same log and state as frame by frame, including the valid prefix before a malformed frame |
| `Observer.ProjectSource` | src/runtime.ts:763-787 | with the batching generator in front, whatever it batches, whatever its timers do and whether or not the source ends in an error, the object, reading and persisting batch by batch, ends with the log, the state and the failure of frame-by-frame reading |
| `JsonText.ReadQuoted` | src/provider-context.ts:727-732 | a quoted string reads back as the string it was written from, whatever follows (section 7 of RFC 8259) |
| `JsonEscapes.EscapesAreShortest` | src/provider-context.ts:727-732 | each character has the escape of section 7 of RFC 8259 that is short, when there is one, and none when it needs none |
| `JsonEscapes.BodyIsClean` | src/provider-context.ts:727-732 | between the quotes stand no control characters, no lone surrogates and no bare quote |
| `JsonText.TextPrefix` | src/provider-context.ts:727-732 | JSON text is a prefix code: two values whose texts followed by anything agree are the same value |
| `JsonText.TextInjective` | src/provider-context.ts:727-732 | values with equal text are equal |
| `JsonEquality.BeforeIsLexicographic` | src/provider-context.ts:731 | keys are ordered by the first UTF-16 unit in which they differ, a proper beginning first |
| `JsonEquality.CanonicalIsText` | src/runtime.ts:2107-2118 | canonical text is the plain text of the value with keys sorted and negative zero written as zero |
| `JsonEquality.JsonEqualIsNormal` | src/browser/indexeddb-event-store.ts:816-841 | the event store's equality is equality of normal forms that identify the two zeros |
| `JsonEquality.ValuesEqualIsNormal` | src/json-equality.ts:2-15 | `jsonValuesEqual` is equality of normal forms that keep the two zeros apart |
| `JsonEquality.CanonicalIffJsonEqual` | src/provider-context.ts:727-732 | two values have the same canonical text if and only if the event store calls them equal, whatever their key order |
| `JsonEquality.CanonicalIffValuesEqual` | src/json-equality.ts:2-15 | without negative zero, same canonical text, `jsonEqual` and `jsonValuesEqual` are one relation |
| `JsonEquality.EqualityIsEquivalence` | src/browser/indexeddb-event-store.ts:816-841 | both equality functions are reflexive, symmetric and transitive |
| `JsonEquality.KeyOrderIsIgnored` | src/provider-context.ts:731 | objects with the same entries in any order have the same canonical text and are equal under both functions |
| `JsonEquality.ZeroIsTheException` | src/json-equality.ts:2-15 | equal canonical text guarantees `jsonValuesEqual` for a value if and only if the value contains no zero of either sign |
| `JsonEquality.CloneIsEqual` | src/browser/indexeddb-event-store.ts:805-807 | the copy that the store keeps is equal to the event it was made from, even with negative zero inside |
| `EventStore.AppendKeepsSound` | src/browser/indexeddb-event-store.ts:110-185 | every append leaves each conversation's revisions exactly 1..n and all event and mutation ids unique; an append that does not succeed changes nothing |
| `EventStore.AnswersAreExact` | src/browser/indexeddb-event-store.ts:110-185 | each answer is given exactly in its case: invalid for a batch that does not continue its expected revision, a revision conflict for a wholly new batch against another log length, appended for one against the log length, with the new length as latest, idempotent when stored rows answer every event, an idempotency conflict otherwise |
| `EventStore.NeverCollides` | src/browser/indexeddb-event-store.ts:160-176 | the store's key and index constraints never reject a row that passed the earlier checks |
| `EventStore.RunIsSound` | src/browser/indexeddb-event-store.ts:110-185 | any sequence of appends keeps the table sound and only adds at its end |
| `EventStore.RepeatAppended` | src/browser/indexeddb-event-store.ts:126-149 | a batch that was appended is answered at any later time as an idempotent success with its originally stored entries, and nothing changes |
| `EventStore.AppendsAreRepeatable` | src/browser/indexeddb-event-store.ts:110-185 | the same over whole runs: any appends before, any appends between |
| `EventStore.RepeatIdempotent` | src/browser/indexeddb-event-store.ts:665-696 | a retry that was itself answered from storage is answered the same way later if and only if none of its unmatched event ids has meanwhile been stored; otherwise it is an idempotency conflict |
| `EventStore.RetriedIdTaken` | src/browser/indexeddb-event-store.ts:665-696 | a run in which that exception happens |
| `CatchUp.EventTable.Append` | src/browser/indexeddb-event-store.ts:110-185 | the transaction, with its matching, validation and adding loops, computes the specified reply and rows, and every reply has its exact condition (`EventStore.AnswersAreExact`) |
| `CatchUp.EventTable.Read` | src/browser/indexeddb-event-store.ts:187-253 | a page is exactly the rows after its start up to the limit, `hasMore` and the cursor are exact, and an unknown cursor or a zero limit is an error exactly then |
| `CatchUp.ValidateAppend` | src/browser/indexeddb-event-store.ts:698-759 | the loop with its identifier sets accepts exactly the well-formed batches |
| `CatchUp.ReadRows` | src/browser/indexeddb-event-store.ts:643-663 | walking the primary key yields the next piece of the conversation's log, whatever other conversations wrote in between |
| `CatchUp.PageIsPiece` | src/browser/indexeddb-event-store.ts:234-250 | a page after a revision is contiguous with it and its cursor is the revision it ends at |
| `CatchUp.CheckPage` | src/runtime.ts:2826-2866 | the contiguity checks accept exactly a page that continues at the next revision |
| `CatchUp.CatchUpStore` | src/runtime.ts:2798-2912 | for every page size and any appends of other writers before every page, catch-up ends at the latest revision with the projection equal to the fold of the whole log, and never reports a gap or corruption |
| `Tables.GetWithout` | src/browser/indexeddb-pending-store.ts:155-162 | deleting one conversation's row leaves every other row as it was |
| `Tables.Others` | src/browser/indexeddb-pending-store.ts:210-217 | the budget loop adds up exactly the other conversations' rows |
| `PendingStore.PendingStore.Retain` | src/browser/indexeddb-pending-store.ts:75-87 | an existing row is never replaced: the same submission is a success, a different one an error; a new row is written exactly when the conversation is not erased and both budgets allow it |
| `PendingStore.PendingStore.Acknowledge` | src/browser/indexeddb-pending-store.ts:108-114 | only the exact submission is removed |
| `PendingStore.PendingStore.WriteDraft` | src/browser/indexeddb-pending-store.ts:140-154 | compare-and-replace with exact conflict, length and erasure errors, and full only when the result would break a budget |
| `PendingStore.PendingStore.DiscardDraftVersion` | src/browser/indexeddb-pending-store.ts:155-162 | only the named version is removed |
| `PendingStore.PendingStore.WritePosition` | src/browser/indexeddb-pending-store.ts:169-179 | a new position is kept and, when there are too many, the oldest other one goes |
| `PendingStore.PendingStore.EraseConversation` | src/browser/indexeddb-pending-store.ts:90-107 | every row and blob of the conversation goes and the tombstone stays |
| `PendingStore.NoResurrection` | src/browser/indexeddb-pending-store.ts:64-66 | under the invariant that every method keeps, an erased conversation has no row in any content store, blobs included |
| `PendingStore.PendingStore.WriteAttachmentDraft` | src/browser/indexeddb-pending-store.ts:200-235 | if reusing an identity means the same source, the outcome and the readable files are those of the plain store; a refused write changes nothing; blob rows stay exactly those of the metadata |
| `PendingStore.PendingStore.DiscardAcceptedFiles` | src/browser/indexeddb-pending-store.ts:236-252 | the same reply and readable files as the plain store |
| `PendingStore.PendingStore.ReadAttachmentDraft` | src/browser/indexeddb-pending-store.ts:181-198 | exactly the plain store's draft; the invalid-row and missing-bytes errors never happen |
| `PendingStore.ReplaceFiles` | src/browser/indexeddb-pending-store.ts:205-234 | the transaction on both tables keeps budgets and blob exactness and never collides when it adds a blob |
| `SplitStorage.AddSource` | src/browser/indexeddb-pending-store.ts:218-229 | a saved file stays on its blob, a new one gets a row that did not exist |
| `SplitStorage.JoinedSame` | src/browser/indexeddb-pending-store.ts:200-235 | moving one conversation's blobs changes no other conversation's readable files |
| `AttachmentDrafts.ParseFiles` | src/attachments/draft-store.ts:73-85 | the loop with its three identity sets and byte counter reports the first problem in order |
| `AttachmentDrafts.KeptParses` | src/attachments/draft-store.ts:73-85 | part of an acceptable selection is acceptable |
| `DraftLaws.VerdictIsExact` | src/attachments/draft-store.ts:73-85 | a selection parses if and only if it is small enough, all its files are proper, of the conversation and pairwise different, and its bytes fit; otherwise the first file that breaks this decides the verdict |
| `DraftLaws.RunWritesAreExact` | src/attachments/draft-store.ts:93-111 | after every run each answer of a write is given exactly in its case: erased, unacceptable, stale, over a budget, changed identity, saved |
| `DraftLaws.WritesLeave` | src/attachments/draft-store.ts:93-111 | a saved draft reads back with its files and new version, every other conversation reads as before, and a refused write changes nothing |
| `DraftLaws.DiscardsAreExact` | src/attachments/draft-store.ts:113-123 | a cleanup leaves exactly the files that are not named, in their order, and reports the version before and the version after |
| `DraftLaws.EraseIsFinal` | src/attachments/draft-store.ts:112 | an erased conversation has no draft and takes none |
| `DraftLaws.SizeAdds` | src/attachments/draft-store.ts:80-81 | the byte count of files adds up |
| `AttachmentDrafts.InMemoryStore.WriteAttachmentDraft` | src/attachments/draft-store.ts:93-111 | the in-memory store follows the plain specification |
| `AttachmentDrafts.InMemoryStore.DiscardAcceptedFiles` | src/attachments/draft-store.ts:113-123 | the in-memory store follows the plain specification |
| `SplitRefinement.OnSplit` | src/browser/indexeddb-pending-store.ts:88-107 | one operation on the split store is that operation on the plain one |
| `SplitRefinement.RunSplit` | src/browser/indexeddb-pending-store.ts:181-252 | for every sequence of writes, discards, erasures and reads whose file identities name one source each, the split store gives the replies of the plain store |
| `SplitRefinement.RunInMemory` | src/attachments/draft-store.ts:89-125 | the in-memory store gives those replies on every sequence |
| `SendJournal.WriteAhead` | src/client/application-session.ts:509-513 | in every run an admission or start is requested only for a submission that was journalled first, and drafts are cleaned only for admitted submissions |
| `SendJournal.StepsWaitTheirTurn` | src/client/application-session.ts:509-531 | step by step: what a step cleans was already admitted, what it requests was already journalled |
| `SendJournal.RowsLeaveForAReason` | src/client/application-session.ts:514-561 | a journal row leaves only by acknowledgement after a certified rejection, an accepted start or a settled turn, or by the erasure of its conversation after the server confirmed its deletion, and is never overwritten |
| `SendJournal.ErasedForGood` | src/browser/indexeddb-pending-store.ts:64-66 | once a conversation is erased it has no journal row in any later state, whatever tabs inside `submit` still do |
| `SendJournal.CrashSafe` | src/client/application-session.ts:460-573 | with authoritative rejections, in every run with lost replies, late requests, several tabs, stops at any step and deletions at any moment, the journal holds an admitted turn that is neither started nor settled if and only if its conversation is not erased, and only deleted conversations are erased |
| `SendJournal.SafeIffRejectionsAreFinal` | src/client/application-session.ts:514-522 | over all runs, every such turn of a conversation that is not erased is in the journal, if and only if the server never admits what it has rejected |
| `SendJournal.StrictlySafeIff` | src/client/bootstrap.ts:215-243 | over all runs, every such turn at all is in the journal if and only if rejections are final and conversations are never erased |
| `SendJournal.ErasedWhileAdmitted` | src/browser/indexeddb-pending-store.ts:90-107 | the run that shows the second half: a turn is admitted, and its conversation is deleted and erased before the turn starts |
| `SendJournal.LateAdmission` | src/client/application-session.ts:514-522 | the run that breaks it otherwise: a retry is rejected and its row removed, then the first request arrives |
| `SendJournal.AcknowledgeReleases` | src/client/application-session.ts:561 | an acknowledgement takes exactly its submission out of the journal and lets the tab go |
| `SendJournal.SendCompletes` | src/client/application-session.ts:493-566 | from every reachable state a first try or a retry that is answered ends with the turn admitted and started, its draft cleaned, no row, and the conversation open for another message |
| `SendJournal.RejectionReleases` | src/client/application-session.ts:514-522 | from every reachable state a certified rejection ends with no row, the draft kept, and the conversation open |
| `SendJournal.SettledIsRecovered` | src/client/application-session.ts:193-209 | from every reachable state the reload after a journalled turn has settled cleans its draft and releases its row |
| `SendJournal.DeniedStart` | src/client/application-session.ts:538-552 | a denied start releases the message exactly if the turn is settled; any other failed start keeps it |
| `SendJournal.SeenToHaveBegun` | src/client/application-session.ts:533-536 | a turn that has begun already is not started again, and its message is released |
| `SendJournal.BusyTabWaits` | src/client/application-session.ts:486-489 | a tab that is sending or recovering takes up no other message |
| `SendJournal.SecondIsRefused` | src/browser/indexeddb-pending-store.ts:79-82 | a second message of the conversation is not retained and the first one stays |
| `DisplayWindow.HonestEvolves` | src/client/display-window.ts:109-191 | appends, edits and deletions at the server leave the window as honest as it was |
| `DisplayWindow.ChangesStayHonest` | src/client/display-window.ts:121-143 | consuming a page of the change feed keeps the window a duplicate-free run of the history, up to date with what it consumed, bounded and honest at both ends |
| `DisplayWindow.PagesStayHonest` | src/client/display-window.ts:144-175 | so does every page read; its older edge stays honest if and only if the read is not a newer read of an emptied window that leaves older messages out |
| `WindowReads.OlderReadJoins` | src/client/display-window.ts:144-175 | an older read shows exactly the records of the page and of the window in display order; what does not fit goes at the newer end, whose flag otherwise stays |
| `WindowReads.NewerReadJoins` | src/client/display-window.ts:144-175 | a newer read likewise, with what does not fit going at the older end |
| `WindowReads.ReplacementShows` | src/client/display-window.ts:147-175 | an initial read at the saved anchor and a latest read show exactly the page, as far as it fits, with the flags of the anchor |
| `WindowReads.ChangesKeep` | src/client/display-window.ts:121-143 | a feed page changes exactly the shown records that it names, drops exactly the deleted ones, shows no new one, and moves on in the feed |
| `WindowMerge.MergeIsExact` | src/client/display-window.ts:157-162 | merging parts that overlap in any way gives every message once, in its newest form, the later of two equally new ones, in the order of first appearance |
| `DisplayWindow.TrimNewer` | src/client/display-window.ts:203-212 | trimming keeps the longest beginning within the bounds |
| `DisplayWindow.TrimOlder` | src/client/display-window.ts:203-212 | trimming keeps the longest end within the bounds |
| `WindowRuns.TrimTo` | src/client/display-window.ts:203-212 | the pop-or-shift loop with its byte count computes that |
| `WindowRuns.ConversationDisplayWindow.Select` | src/client/display-window.ts:83-92 | a selection starts empty with its own anchor and abandons reads in flight |
| `WindowRuns.ConversationDisplayWindow.Begin` | src/client/display-window.ts:109-120 | a read begins exactly when none is in flight and no jump waits, with the anchor of the shown edge |
| `WindowRuns.ConversationDisplayWindow.Finish` | src/client/display-window.ts:117-198 | a read of an abandoned selection changes nothing; a current one leaves exactly the specified view, and an emptied window forgets its initial anchor |
| `WindowRuns.ConversationDisplayWindow.JumpToLatest` | src/client/display-window.ts:95-105 | a jump begins at once or waits for a read of the change feed |
| `WindowRuns.ConversationDisplayWindow.Resume` | src/client/display-window.ts:95-105 | a waiting jump goes on exactly when the read before it left the window ready without an error |
| `WindowRuns.ConversationDisplayWindow.Dispose` | src/client/display-window.ts:213-218 | a disposed window shows nothing and has no read |
| `WindowRuns.PageIsShown` | src/client/display-window.ts:144-175 | a truthful page of the asked size is accepted and shown |
| `WindowRuns.FeedIsConsumed` | src/client/display-window.ts:121-143 | a feed page that moves on is accepted and consumed |
| `WindowRuns.FailureKeepsTheView` | src/client/display-window.ts:176-188 | a failed read, or an answer of the wrong form, keeps everything shown and reports the operation |
| `WindowRuns.EmptyingAnswer` | src/client/display-window.ts:176-198 | preparing or eviction empties the view and forgets the saved anchor |
| `WindowRuns.SelectionAbandons` | src/client/display-window.ts:83-92 | a selection abandons the read in flight, whose answer then changes nothing |
| `WindowRuns.AnswerMayBeOlder` | src/client/display-window.ts:117-126 | an answer may come from the history at the asking although the server has moved on |
| `WindowRuns.RunOnIsExec` | src/client/display-window.ts:95-105 | the steps that the jump law speaks of continue a run |
| `WindowRuns.JumpIsNotSwallowed` | src/client/display-window.ts:95-105 | a jump made while the change feed is read leads to a read of the latest messages, whatever else is asked for meanwhile, until another selection or a refused or emptying answer |
| `WindowRuns.RunsAreHonest` | src/client/display-window.ts:109-212 | over every run against histories that append, edit and delete, with selections, dropped anchors, abandoned and failed reads at any moment and answers from any history between the asking and the arrival, the window is a bounded duplicate-free contiguous run of the selected history, current and honest; the older flag too, in runs without a misleading read |
| `WindowRuns.RunWindow` | src/client/display-window.ts:46-213 | the object, driven through any such run, ends in exactly the state of the run and shows that window |
| `WindowRuns.OlderFlagCanMislead` | src/client/display-window.ts:145-168 | a run in which `hasOlder` is false although an older message is live |
| `Uploader.AttachmentUploader.Pump` | src/attachments/uploader.ts:506-515 | the pump ends, starts waiting items first come first served, leaves none waiting while a slot is free and never exceeds the concurrency |
| `Uploader.AttachmentUploader.Begin` | src/attachments/uploader.ts:517-530 | an attempt gets a token later than that of every running call of its item |
| `Uploader.AttachmentUploader.Enqueue` | src/attachments/uploader.ts:327-373 | refused exactly for a full kind; a known fingerprint gives its item; a new item has the selected fields and is ready, queued or, unless held, uploading |
| `Uploader.AttachmentUploader.Start` | src/attachments/uploader.ts:376-383 | releases exactly a held queued item, which uploads at once or waits for a slot |
| `Uploader.AttachmentUploader.RestoreReady` | src/attachments/uploader.ts:386-397 | the item has the reference, full progress and no source, and its running call is stale |
| `Uploader.AttachmentUploader.Cancel` | src/attachments/uploader.ts:399-416 | exactly a queued or uploading item is cancelled, without its source, and its running call is stale |
| `Uploader.AttachmentUploader.Retry` | src/attachments/uploader.ts:418-438 | exactly a retryable failure is queued again, or uploading already, without progress and with its source |
| `Uploader.AttachmentUploader.Remove` | src/attachments/uploader.ts:440-450 | the item goes, its running call keeps its slot until it settles |
| `Uploader.AttachmentUploader.ReportProgress` | src/attachments/uploader.ts:533-554 | a report of an earlier attempt changes nothing, and progress never decreases within an attempt |
| `Uploader.AttachmentUploader.Settle` | src/attachments/uploader.ts:556-610 | the current attempt ends with its outcome, field by field: ready with the reference and full progress, or failed, with its source kept exactly if it may be retried; an earlier attempt changes no item; the freed slot is used again in order |
| `Uploader.BeginGood` | src/attachments/uploader.ts:517-530 | a new attempt keeps the invariant between items and running calls |
| `Uploader.EndGood` | src/attachments/uploader.ts:603-610 | so does a call that settles |
| `Uploader.SameCounts` | src/attachments/uploader.ts:339-342 | the number that the count limits compare is the number of items of the kind |
| `Workspace.Replace` | src/attachments/draft-workspace.ts:81-98 | the counting loops succeed exactly when the files then held fit the limits, and the counts are then exactly the holds |
| `Workspace.ReleaseFits` | src/attachments/draft-workspace.ts:56 | giving holds back never breaks a limit |
| `Workspace.ReHoldFits` | src/attachments/draft-workspace.ts:34 | holding a retained file again never breaks a limit |
| `Workspace.UndoFits` | src/attachments/draft-workspace.ts:172-175 | taking a replacement back restores exactly what was held before |
| `Workspace.QueueLeave` | src/attachments/draft-workspace.ts:38-51 | a waiter that leaves the queue leaves exactly the other waiters in it |
| `DraftWorkspace.AttachmentDraftWorkspace.Adopt` | src/attachments/draft-workspace.ts:152-158 | the reservation succeeds exactly when the new total fits; a failed one changes nothing |
| `DraftWorkspace.AttachmentDraftWorkspace.AdoptAndUndo` | src/attachments/draft-workspace.ts:159-176 | the failure path always gets back to the holds and the counts it started from |
| `DraftWorkspace.AttachmentDraftWorkspace.BeginSave` | src/attachments/draft-workspace.ts:264-266 | holding the files of a save never fails |
| `DraftWorkspace.AttachmentDraftWorkspace.Release` | src/attachments/draft-workspace.ts:273-284 | releasing never fails |
| `DraftWorkspace.AttachmentDraftWorkspace.BeginUpload` | src/attachments/draft-workspace.ts:30-52 | an upload holds its file and runs exactly when a slot is free, or else waits at the end of the queue; at most two run, and one waits only while both slots are taken |
| `DraftWorkspace.AttachmentDraftWorkspace.Abort` | src/attachments/draft-workspace.ts:38-43 | an aborted waiter leaves the queue and keeps its hold until it ends |
| `DraftWorkspace.AttachmentDraftWorkspace.EndUpload` | src/attachments/draft-workspace.ts:55-59 | the hold and the slot go, and exactly the waiters at the head of the queue enter, as many as there are free slots |
| `DraftWorkspace.FirstServed` | src/attachments/draft-workspace.ts:58 | nobody overtakes in the queue: those who entered are a beginning of it, the rest wait in their order, and no other upload changes |
| `DraftWorkspace.AttachmentDraftWorkspace.Dispose` | src/attachments/draft-workspace.ts:107-117 | afterwards nobody waits and no controller holds files; only saves and uploads that have not ended still do |
| `DraftWorkspace.Admit` | src/attachments/draft-workspace.ts:58 | the loop fills the slots or empties the queue |
| `Utf8.LengthBounds` | src/client/draft-retention.ts:11-17 | UTF-8 needs between one and three bytes per UTF-16 unit |
| `Utf8Encoding.LengthIsEncoded` | src/client/draft-retention.ts:15 | the byte count of a draft is the length of its UTF-8 encoding (section 3 of RFC 3629), with a lone surrogate as U+FFFD |
| `Utf8Encoding.TextIsDecoded` | src/client/draft-retention.ts:15 | that encoding decodes, by a decoder that takes only shortest forms, to the code points of the text |
| `Utf8Encoding.PointsKeepTheText` | src/client/draft-retention.ts:15 | the code points of text with paired surrogates give back the text |
| `DraftText.QuickTestIsExact` | src/client/draft-retention.ts:11-17 | the quick length test never refuses a text that the byte limit accepts |
| `DraftText.Recount` | src/client/draft-retention.ts:28-34 | the incremental byte and value totals that `replace` tests are those of a recount over the tokens it would leave |
| `DraftText.DraftTextPool.Replace` | src/client/draft-retention.ts:25-42 | refused exactly when a recount of the result breaks a limit, and then nothing changes |
| `DraftText.DraftTextPool.Release` | src/client/draft-retention.ts:43-49 | totals and reference counts follow the tokens |
| `Framing.ParseStreamEvents` | src/protocol.ts:1306-1408 | the loop accepts exactly the framed streams with cumulative usage, distinct tool calls and a tool call behind a tool-call completion |
| `Framing.DeliveriesAreFramed` | src/runtime.ts:2385-2438 | after any delivery without a rejected frame, the accepted frames begin a framed stream and every other delivered frame repeats one of them |
| `Framing.VerdictIsExact` | src/runtime.ts:2385-2438 | after any delivery without a rejected frame, a frame is a duplicate if and only if it was taken, accepted if and only if it continues what was taken, and rejected otherwise |
| `Framing.TerminalDeliveriesAreFramed` | src/runtime.ts:2385-2438 | a delivery that ends terminal has accepted a whole framed stream: contiguous, one start, stable ids, terminal last |
| `Framing.IncrementalIsWhole` | src/runtime.ts:2385-2438 | a stream delivered once passes frame by frame and ends terminal if and only if the whole-stream framing rules hold |
| `Retry.DelayBounds` | src/retry.ts:228-259 | a delay is at least the capped hint and at most the ceiling of the larger cap |
| `Retry.BackoffNeverShrinks` | src/retry.ts:236-239 | before jitter and hints, waits never get shorter |
| `Retry.HintIsHonoured` | src/retry.ts:243-258 | a delay is at least the hint of the server, or at least its cap when the hint is larger |
| `Retry.WaitsMultiply` | src/retry.ts:236-239 | the wait starts at the initial delay and is multiplied by the policy each time, up to the maximum |
| `Retry.DelayIsSpread` | src/retry.ts:236-258 | without a hint the delay is a whole number within the jitter around the wait, and the wait rounded up when there is no jitter |
| `Retry.PersistedTurn.Try` | src/runtime.ts:1327-1398 | every start of a turn carries the same identities and prepared request, no start follows an accepted start or a resume, and an attempt that knows a handle resumes exactly it, however catch-up changes the known handle between and during attempts |
| `Retry.ExecuteWithRetry` | src/retry.ts:134-226 | at most the maximum attempts, and the scheduled delays sum to at most the elapsed budget if sleeping advances a monotone clock by at least the delay; between two attempts stand a retryable failure and a delay of the policy for it, and the result names why the last attempt was the last |

## Left out

- Citation contents, order and source checks: a batch is a number, and a batch that the source would refuse is any rejected frame (`Spoil`).
- Frame fingerprints, context hashes and event-id generation: a fingerprint is the frame itself, and fresh ids are parameters.
- The conversation reducer: the state of a conversation is a fold of its log; a turn that waits for approval still counts as active.
- One response per watched turn: a second provider request within the same turn is not modelled.
- CatchUp.CatchUpStore: the field-by-field event parser and reducer errors are not modelled, and the other writers' appends form a finite list, without which catch-up need not end.
- Numbers are identified by their ECMAScript text; number formatting itself, and the `undefined` members that `JSON.stringify` skips, are not modelled.
- `writeCheckpoint` of the event store and `src/provider-context-checkpoint-store.ts`: the same versioned pattern with easier properties.
- IndexedDB plumbing: a transaction is atomic, a table holds one account scope, and the order of its rows, on which no result depends, is the order of their last write.
- eraseAccount: it runs one transaction per store, so cross-store invariants do not hold between its steps.
- SendJournal.CrashSafe: storage-full errors and the in-memory `hasPendingSubmission` flag only make a tab stop earlier and are not separate steps; erasing a whole account is not a step, and a deleted conversation may still be admitted to by this server.
- PendingStore.PendingStore.WritePosition: conversations stand for their ranks in locale order, which breaks ties between equally old positions; different identities that the locale does not tell apart are not modelled.
- AttachmentDrafts.ParseFiles: identity, media-type and reference patterns are one verdict (`proper`) that a file carries.
- DisplayWindow: clearing a conversation (a new generation) appears only as the eviction it causes; a page's JSON envelope size is not computed.
- Uploader.AttachmentUploader.Pump: listeners that call back into the uploader during an emit are not modelled; abort signals appear as stale tokens.
- DraftWorkspace: a file's bytes are a function of its identity, as src/attachments/draft-store.ts:5-6 promises; the controller's loading and conflict messages are not modelled.
- DraftText.DraftTextPool.Replace: the map of maps per owner is one map keyed by owner and text.
- Retry.ExecuteWithRetry: times are real numbers; floating-point rounding is not modelled.
- Provider-context preflight, HTTP clients, staging, downloads, voice, approvals, polling and presentation.
