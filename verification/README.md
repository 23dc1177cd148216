# Sera, verified

A Dafny model of the parts of Sera that run an algorithm or a protocol: the CRDT documents that devices
synchronise and the relay they synchronise through, the scrubber that filters a token stream, the agent turn
with its shared budget, nested subagents and transcript compaction, the causal walk over the memory graph, the
chunkers, the council's voting, the sliding-window limiters, the audit chain, detection of personal data, the
skill registry with its lifecycle, and the managed sections of a profile.

`dafny verify dfyconfig.toml` checks the whole project. Each module follows one source file or one component.
Objects that the program updates in place are classes, its loops are loops with invariants, and each such method
is proved against a function or predicate on values; the lemmas then say what that function means. Where a
property the documentation suggests does not hold, a lemma says exactly when it does and another gives an input on
which it fails.

| module | what it models |
|---|---|
| `Wrappers`, `Sequences`, `StringOrder`, `Text` | options, sequences, Python's order on strings, searching, splitting, words and UTF-8 length |
| `Crdt`, `CrdtObjects` | last-writer-wins registers, observed-remove sets and documents: as values with their order, and as the mutable objects with their JSON form and the endpoints of the relay |
| `Relay` | the synchronisation protocol as a state machine with edits, pushes, merges, broadcasts, deliveries in any order, late joins, lossy disconnects and restarts of the relay |
| `Scrubber` | the streaming scrubber and the declarative cut it computes for every chunking of a text |
| `Transcript`, `Compressor`, `AgentTurn` | what a valid transcript is, compaction, and the turn loop with its budget and delegation |
| `CausalGraph` | the depth-bounded breadth-first walk |
| `ChunkText`, `Chunker` | `chunk_text` in Python and Rust, and the markdown chunker |
| `Council` | ranking parser, Kendall's tau, confidence, Borda count and winner |
| `SlidingWindow`, `Supervision`, `MetaCuration` | windows over event times, the restart breaker and the proposal throttle |
| `Audit`, `Privacy` | the hash chain; the Luhn check (the mod 10 check of Annex B of ISO/IEC 7812-1), detection and redaction |
| `Skills` | lifecycle rows over all runs of operations, and the incremental refresh |
| `Profile`, `ProfileDocs`, `ProfileLaws` | rendering and reading managed sections, on the level of characters |

Assumptions that the statements carry, and where they come from:

- Relay runs: within one run a value is determined by its key, time stamp and node, and the metadata of an add by
  its uid (`Relay.Writers`). `Crdt.MergeCommutes` shows that commutativity needs exactly this, since a full tie keeps the
  first argument (sera/sync/crdt.py:43).
- Rankings that are compared are permutations of one label set, which is what `Council.ParseRanking` delivers.
- Clocks do not go back while a limiter is in use; a supervisor's window is not negative.
- The hash of the audit chain is injective and never yields the genesis value (`Audit.Ideal`).
- A heading pattern matches no blank line and yields a level of one to six; an empty line is blank (`Chunker.Lawful`).
- Matches of the detectors lie within the text and are not empty.
- Profile texts are well formed: their markers enclose disjoint blocks. Items have one line, no marker and no
  backslash; rendering itself is modelled for all items. Every rendered text is well formed again.

Where code and documentation differ, the code is modelled:

- An archived skill is said to stay archived until it is revived; a pin ends it as well, and an unpin brings it back
  (`Skills.PinOverridesArchive`; `Skills.StateAfterRun` says exactly what a read sees).
- `detect` is said to let the first matching detector win; it sorts by start and lets the longer match win, and the
  earlier detector only among equal spans (`Privacy.LaterDetectorWins`). `Privacy.FirstMatchWinsExactly` gives the condition
  on the hits, before they are sorted, under which the documented rule holds all the same;
  `Privacy.OrderedOverlapsMeanFirstMatchWins` is a simpler one that suffices, and `Privacy.PairDecides` settles a pair.
- A refresh is said to be idempotent. Its effect is, but it may report updates again when two manifests of one name
  carry different times (`Skills.SecondRefreshIsQuiet`, `Skills.TwoTimesAreReported`). It equals a rebuild unless a manifest
  is rewritten under an unchanged time (`Skills.RefreshIsRebuild`, `Skills.RewriteIsMissed`).
- A render is idempotent only if the header stays in the text; a header that stood only inside a managed block is lost
  and added by the next render (`ProfileLaws.RenderingIsIdempotent`, `ProfileLaws.HeaderInBlockIsLost`). An empty section reads
  back as the standard one (`ProfileLaws.RoundTrip`, `ProfileLaws.EmptySectionIsNotRead`).
- Compaction repairs only the first kept message, so results that come late can lose their call
  (`Compressor.LateCompaction`, `Compressor.LateResultIsOrphaned`), and its three-message fallback can start with a result
  (`Compressor.CompactionKeepsValidity`, `Compressor.FallbackOrphansResults`). On a session with unanswered calls the repair
  can also take a call away whose result stays (`Compressor.CompactionOfAnySession`, `Compressor.RepairOrphansResult`).
- A grace reply that still asks for tools, or an interrupt between two tools, leaves calls without results in the session,
  and later requests repeat them (`AgentTurn.RequestNeedsAnswers`, `AgentTurn.GraceCallsSpoilTheNextRequest`).
- A heading is said to close deeper levels; behind a skipped level it leaves one of its own level open
  (`Chunker.PathsAreOpenSections`, `Chunker.SkippedLevelStaysOpen`).
- The storm breaker forgets old restarts only when it records a new one, so it can stay tripped after the window has
  passed (`Supervision.BreakerIsCurrent`, `Supervision.StaleStorm`); `Supervision.TrippedMeansStorm` speaks of the window that
  ends with the last restart.
- The audit chain does not show a shortened log or a last entry that was replaced consistently (`Audit.UnseenChanges`).

## Model

| member | source | states |
|---|---|---|
| `Crdt.OlderIsStrictOrder` | `sera/sync/crdt.py:38-43` | entries are strictly ordered by time stamp and then by node name; two are incomparable only with the same stamp |
| `Crdt.LwwWinsIsNewest` | `sera/sync/crdt.py:38-43` | the winner is the newer entry, and the first argument at a full tie |
| `StringOrder.LeqIsByCodePoint` | `sera/sync/crdt.py:43` | node names compare by code point at the first difference |
| `Crdt.MergeBounds` | `sera/sync/crdt.py:168-171` | a merge takes in all of the incoming document, always; it keeps all of the local one if and only if their tied writes hold the same values |
| `Crdt.MergeIsLeast` | `sera/sync/crdt.py:168-171` | a merge adds nothing: it is below every document above both sides |
| `Crdt.MergeIdempotent` | `sera/sync/crdt.py:168-171` | merging a document with itself changes nothing |
| `Crdt.MergeAssociative` | `sera/sync/crdt.py:168-171` | merging is associative for all documents, ties included |
| `Crdt.MergeCommutes` | `sera/sync/crdt.py:168-171` | merging commutes if and only if entries with one key and one stamp hold one value, and a uid has one metadata |
| `Crdt.MergeMonotone` | `sera/sync/crdt.py:168-171` | merging is monotone in both arguments below agreeing documents |
| `Crdt.TieBreaksCommutativity` | `sera/sync/crdt.py:38-43` | two documents whose tied entries differ and whose merges differ with the order |
| `Crdt.DocLeqTransitive` | `sera/sync/crdt.py:160-171` | the order between documents is transitive |
| `Crdt.DocLeqAntisymmetric` | `sera/sync/crdt.py:160-171` | documents below each other are equal |
| `Crdt.MergeKeepsRemovesObserved` | `sera/sync/crdt.py:113-115` | merging keeps every removed uid an observed add |
| `Crdt.ContainsAfterMerge` | `sera/sync/crdt.py:117-119` | after a merge an element is present if and only if one of its uids from either side is removed on neither (add wins) |
| `Crdt.EditIsMerge` | `sera/sync/crdt.py:52-115` | a local set, add or remove is the merge of a small document into the replica |
| `Crdt.RemoveHidesElement` | `sera/sync/crdt.py:113-119` | after a remove the element is absent |
| `Crdt.AddShowsElement` | `sera/sync/crdt.py:98-119` | after an add whose uid is not removed the element is present, with its metadata, and no other element changes |
| `Crdt.EditTouchesItsPart` | `sera/sync/crdt.py:52-115` | a set changes its own key of its own register, an add or remove the chunks only |
| `Crdt.RoundTrip` | `sera/sync/crdt.py:173-186` | a document written by to_dict is read back by from_dict, whatever order its lists and keys take |
| `Crdt.RegisterRoundTrip` | `sera/sync/crdt.py:69-84` | a register written by to_dict is read back by from_dict, whatever order its keys take |
| `Crdt.MergeKeepsMetadataKeyed` | `sera/sync/crdt.py:128-132` | metadata stays filed under its own uid, which the round trip needs |
| `Crdt.ReadDocumentIsKeyed` | `sera/sync/crdt.py:145-157` | a document read from JSON files its metadata under its uids |
| `Crdt.PartsAreReadByName` | `sera/sync/crdt.py:173-186` | every part and field is read from the key of its name, and a missing part as empty |
| `CrdtObjects.LWWRegister.Set` | `sera/sync/crdt.py:52-55` | a set is the merge with the one entry: it keeps the newest entry of its key and touches no other key |
| `CrdtObjects.LWWRegister.Merge` | `sera/sync/crdt.py:64-67` | the in-place loop computes the merge of both registers, also with itself |
| `CrdtObjects.LWWRegister.FromJson` | `sera/sync/crdt.py:75-84` | the loop reads back every register that the JSON is a form of, and none for a missing part |
| `CrdtObjects.ORSet.Absorb` | `sera/sync/crdt.py:128-130` | one element takes in uids; every other element keeps its own set object, and a new one is fresh |
| `CrdtObjects.ORSet.Add` | `sera/sync/crdt.py:106-111` | an add files its uid under the element and its metadata under the uid |
| `CrdtObjects.ORSet.Remove` | `sera/sync/crdt.py:113-115` | a remove marks exactly the uids observed for the element |
| `CrdtObjects.ORSet.Contains` | `sera/sync/crdt.py:117-119` | present if and only if some add uid of the element is not removed |
| `CrdtObjects.ORSet.MergeUids` | `sera/sync/crdt.py:128-130` | the loop unions the uid sets of every element without sharing one of them |
| `CrdtObjects.ORSet.Merge` | `sera/sync/crdt.py:128-132` | the in-place merge equals the merge of the two values, also with itself |
| `CrdtObjects.ORSet.FromJson` | `sera/sync/crdt.py:145-157` | reads the lists, removes and metadata, with fresh set objects |
| `CrdtObjects.ORSet.ReadAdds` | `sera/sync/crdt.py:145-150` | the loop gives every element a set object of its own with the uids listed for it |
| `CrdtObjects.CRDTDocument.Merge` | `sera/sync/crdt.py:168-171` | the in-place merge of all three parts; the other document keeps its state and shares no object with this one |
| `CrdtObjects.CRDTDocument.ToJson` | `sera/sync/crdt.py:173-179` | writes a JSON form of the document |
| `CrdtObjects.CRDTDocument.FromJson` | `sera/sync/crdt.py:180-186` | a fresh document holding what the JSON says |
| `CrdtObjects.MergeNew` | `sera/sync/crdt.py:189-194` | the functional merge: a fresh document holding the merge, sharing nothing with either input |
| `CrdtObjects.FrameCarriesDocument` | `sera/sync/relay.py:37-45` | a document encoded into a frame is decoded to itself |
| `CrdtObjects.Decode` | `sera/sync/relay.py:41-45` | a frame without a document reads as the empty one |
| `CrdtObjects.RelayServer.Join` | `sera/sync/relay.py:83-87` | a joining client is added and seeded with the merged state |
| `CrdtObjects.RelayServer.Receive` | `sera/sync/relay.py:88-97` | a malformed frame changes nothing and is not answered; any other is merged and the merged snapshot goes to all clients |
| `CrdtObjects.RelayServer.Leave` | `sera/sync/relay.py:98-99` | the client is discarded |
| `CrdtObjects.RelayClient.Push` | `sera/sync/relay.py:170-174` | sends the local document and changes nothing |
| `CrdtObjects.RelayClient.Receive` | `sera/sync/relay.py:154-161` | merges a frame into the local document, drops a malformed one |
| `Relay.StepKeepsInv` | `sera/sync/relay.py:83-174` | every step (edit, push, relay merge, broadcast, delivery, join, lossy disconnect, relay restart) keeps the invariant of the protocol |
| `Relay.RunKeepsInv` | `sera/sync/relay.py:83-174` | the invariant holds after every run |
| `Relay.StartInv` | `sera/sync/relay.py:55-61` | it holds at the start |
| `Relay.SnapshotsBelowRelay` | `sera/sync/relay.py:94-97` | after every run, each snapshot waiting or on its way is below the relay document, and everything is below the join of all edits |
| `Relay.JoinIsLeast` | `sera/sync/crdt.py:168-171` | the join of what one set of writers wrote is above every edit, and below a document if and only if every edit is |
| `Relay.QuiescentMeansConverged` | `sera/sync/relay.py:83-174` | when all replicas are connected and have pushed and nothing is on its way, they all equal the relay document and the join of all edits |
| `Relay.Convergence` | `sera/sync/relay.py:1-28` | strong eventual consistency: the same for the end of every run from the start, in any order of delivery |
| `Relay.ConvergedChunks` | `sera/sync/crdt.py:117-132` | at convergence an element is present if and only if some edit added a uid for it that no edit removed |
| `Relay.ConvergedRegisters` | `sera/sync/crdt.py:38-63` | at convergence a key holds one of the entries that edits wrote for it, no written entry is newer, and a key that no edit wrote is absent |
| `Relay.UnobservedAddIsNotRemoved` | `sera/sync/crdt.py:113-115` | a uid that no remove observes stays unremoved over every run |
| `Relay.RunKeepsUids` | `sera/sync/crdt.py:128-132` | a replica never forgets an add: its uids only grow, over every run |
| `Relay.AddWins` | `sera/sync/crdt.py:98-132` | once a replica has an add whose uid no remove observes, the element is present there after every further run |
| `Relay.AddWinsWhereKnown` | `sera/sync/crdt.py:98-132` | and wherever the add arrives during the run |
| `Relay.Progress` | `sera/sync/relay.py:147-174` | from every state that is not quiescent some steps without edits bring it closer |
| `Relay.ConvergenceIsReachable` | `sera/sync/relay.py:147-174` | from every reachable state convergence can be reached without another edit |
| `Relay.EveryScheduleConverges` | `sera/sync/relay.py:83-174` | once all replicas are connected and have pushed, every schedule of merges, broadcasts and deliveries ends, after exactly as many steps as there is work, and ends converged |
| `Scrubber.DrainKeeps` | `sera/context/scrubber.py:46-101` | the loop, stopped anywhere, has emitted exactly the part of the scrubbed text that any continuation leaves certain |
| `Scrubber.FeedKeeps` | `sera/context/scrubber.py:39-101` | one feed keeps the scrubbed remainder of every continuation |
| `Scrubber.DrainSettles` | `sera/context/scrubber.py:46-101` | the loop only ever stops holding a possible beginning of an opener or of the awaited closer |
| `Scrubber.HeldBackIsShort` | `sera/context/scrubber.py:50-57` | what is held back is at most sixteen characters |
| `Scrubber.FlushEmitsRemaining` | `sera/context/scrubber.py:103-114` | flush emits what is left of the scrubbed text, nothing inside an unclosed span |
| `Scrubber.StreamEmitsRemaining` | `sera/context/scrubber.py:39-114` | feeding chunks and flushing emits the scrubbed remainder, from every state the scrubber settles in |
| `Scrubber.ChunkingDoesNotMatter` | `sera/context/scrubber.py:1-18` | for every way of cutting a text into chunks the output is the text cut from the leftmost opener to its first closer (or the end), over and over |
| `Scrubber.ScrubbedSpelledOut` | `sera/context/scrubber.py:39-114` | and what that text is, in literal strings: a span of either tag goes, up to the first closer of that tag or to the end, and everything else stays |
| `Scrubber.TagAtIs` | `sera/context/scrubber.py:23-26` | a tag is recognised exactly where its opener stands |
| `Scrubber.StreamingContextScrubber.Feed` | `sera/context/scrubber.py:39-101` | the loop over buf, inside and close_token computes the specified step and holds back at most sixteen characters |
| `Scrubber.StreamingContextScrubber.Flush` | `sera/context/scrubber.py:103-114` | emits the specified rest and leaves the scrubber as new |
| `Scrubber.Scrub` | `sera/context/scrubber.py:117-120` | the one-shot helper equals the declarative cut |
| `Transcript.PairedMeaning` | `sera/agent/loop.py:315-396` | reading a transcript left to right with a queue of owed ids accepts it if and only if every assistant message is followed at once by its results in order and no other result occurs |
| `Transcript.ResultHasCall` | `sera/agent/loop.py:352-392` | every result in such a transcript belongs to an earlier call of the same id |
| `Transcript.AnswersInOrder` | `sera/agent/loop.py:352-392` | the results follow their calls in the order of the calls |
| `Transcript.CutOfPaired` | `sera/context/compressor.py:95-126` | a paired transcript cut in two stays paired on both sides if and only if the cut is not in front of a result |
| `Compressor.WalkBack` | `sera/context/compressor.py:95-103` | the walk from the end keeps the suffix the specification names |
| `Compressor.DropLeadingResults` | `sera/context/compressor.py:113-114` | drops exactly the leading results |
| `Compressor.SelectTail` | `sera/context/compressor.py:95-133` | walk, repair and fallback together yield the specified tail |
| `Compressor.Measure` | `sera/context/compressor.py:76` | the token sum of the messages |
| `Compressor.CompactSession` | `sera/context/compressor.py:52-153` | the whole function, early returns included, computes the specified view |
| `Compressor.TailFitsBudget` | `sera/context/compressor.py:95-103` | before repair the tail fits its budget unless it is one message, and one more message would not fit |
| `Compressor.EarlyReturns` | `sera/context/compressor.py:73-94` | below the minimum of messages, at or below the threshold, or with nothing in front of the tail the transcript comes back as it is; otherwise the summary stands behind the system head |
| `Compressor.SummaryIsFenced` | `sera/context/compressor.py:144-151` | the summary is an assistant message that begins with the fence |
| `Compressor.SystemHeadIs` | `sera/context/compressor.py:80-90` | the head is the system messages in front |
| `Compressor.TruncateIs` | `sera/context/compressor.py:77-97` | int drops the fraction |
| `Compressor.EachMessageOnce` | `sera/context/compressor.py:131-153` | each body message is summarised or kept, once and in order; only the first kept one may lose its calls; the head is kept and the summary carries the fence |
| `Compressor.PairedIsValid` | `sera/context/compressor.py:105-126` | a paired transcript has no result without its call and no call without its result |
| `Compressor.CutIsValid` | `sera/context/compressor.py:105-126` | a head without calls followed by a suffix of a paired body is valid if and only if the suffix does not start with a result |
| `Compressor.CutsCleanlyMeaning` | `sera/context/compressor.py:131-133` | the guard says that the message after the cut is not a result |
| `Compressor.CompactionKeepsValidity` | `sera/context/compressor.py:52-153` | on every paired transcript the view is a valid request if and only if an early return applies, or the kept suffix holds a message that is no result, or the three-message fallback does not start with a result |
| `Compressor.LateCompaction` | `sera/context/compressor.py:52-153` | for valid transcripts with ids used once, whose results may come late, the view is a valid request if and only if an early return applies or the summarised messages answer all their own calls |
| `Compressor.LateResultIsOrphaned` | `sera/context/compressor.py:105-129` | a valid transcript of nine messages, compacted at the ratios of the loop, whose view ends in a result without its call |
| `Compressor.FallbackOrphansResults` | `sera/context/compressor.py:131-133` | a paired transcript of eight messages, compacted at the ratios of the loop, whose three-message fallback starts with a result |
| `Compressor.CompactionOfAnySession` | `sera/context/compressor.py:52-153` | on every transcript, valid or not: the view is a valid request if and only if an early return applies to a valid transcript, or the kept messages behind a repaired first one are valid by themselves |
| `Compressor.SuffixIsValid` | `sera/context/compressor.py:105-129` | which they are, with ids used once, if and only if they answer their own calls and none of their results belongs to an earlier call |
| `Compressor.RepairOrphansResult` | `sera/context/compressor.py:115-129` | a session broken off between two results, where the repair takes a call away whose result stays |
| `AgentTurn.IterationBudget.Of` | `sera/agent/budget.py:41-45` | refuses a total below one, otherwise can pay for total + 1 iterations |
| `AgentTurn.IterationBudget.Consume` | `sera/agent/budget.py:47-54` | pays for one iteration if and only if some remain |
| `AgentTurn.IterationBudget.RequestGrace` | `sera/agent/budget.py:60-70` | grants one iteration, once |
| `AgentTurn.PayIteration` | `sera/agent/loop.py:213-226` | a pass either pays for one iteration of the budget or finds it exhausted; grace pays exactly when the budget is at zero and grace unused, and leaves its notice in the transcript |
| `AgentTurn.AnswerCalls` | `sera/agent/loop.py:351-396` | one result per call in the order of the calls, cut short only by a raising tool or an interrupt; the log accounts for every result and every look at the interrupt |
| `AgentTurn.Iterate` | `sera/agent/loop.py:213-396` | one pass keeps the transcript paired and the log in step, goes on behind a round of tools, breaks behind an answer, and throws exactly behind an interrupt, a failed request or a raising tool |
| `AgentTurn.RunTurn` | `sera/agent/loop.py:142-396` | a turn raises if and only if an interrupt fired, the request failed or a tool raised, and nothing comes behind that; otherwise it returns with its last request answered or the budget exhausted; what it appends is what the events of its log say, every request holds all that, and spending is exact |
| `AgentTurn.ExecuteTool` | `sera/agent/loop.py:359-392` | a result with the id of its call and the words of the tool, the refusal or the nested turn; a nested turn pays from the same budget |
| `AgentTurn.DelegateTask` | `sera/tools/delegate.py:32-79` | a nested turn on a fresh session pays from the same budget object, so every chain of delegations ends |
| `AgentTurn.RunUserTurn` | `sera/agent/budget.py:26-45` | a turn with whatever it delegates performs at most total + 1 iterations, and raises only as RunTurn does |
| `AgentTurn.RequestsAreValid` | `sera/agent/loop.py:233-236` | what is sent, for every session: uncompacted it is valid if and only if every call of the session has a result; compacted, if and only if the messages that keep their calls answer them and hold no result of an earlier call, which on a paired session means that compaction cuts cleanly |
| `AgentTurn.TurnsKeepResultsCalled` | `sera/agent/loop.py:213-396` | no turn, however it ends, leaves a result without its call in the session |
| `AgentTurn.RequestNeedsAnswers` | `sera/agent/loop.py:213-236` | the requests of the next turns are valid if and only if an interrupted turn or a grace reply left no call unanswered |
| `AgentTurn.GraceCallsSpoilTheNextRequest` | `sera/agent/loop.py:346-350` | a grace reply with a call, after which the next request is not valid |
| `AgentTurn.ResultsAreOwed` | `sera/agent/loop.py:351-396` | n results in the order of n calls settle what the reply owed |
| `CausalGraph.CausalChain` | `sera/memory/graph.py:332-387` | None for an unknown direction; otherwise exactly the usable caused edges whose near end is less than depth away, each once, in breadth-first order, each as a link from the name of its source to the name of its destination, with its confidence and provenance, on every graph |
| `CausalGraph.LinkIsRow` | `sera/memory/graph.py:361-384` | in both directions a link names the source of its row first, and only caused rows between entities that exist are usable |
| `CausalGraph.StepIsRows` | `sera/memory/graph.py:397-432` | upstream leads from an effect to its causes, downstream from a cause to its effects |
| `CausalGraph.WithinMeansPath` | `sera/memory/graph.py:358-386` | within distance k means the end of a path of at most k edges |
| `CausalGraph.FixedFrom` | `sera/memory/graph.py:385-386` | once no new name is met, none will be: leaving the loop early loses nothing |
| `CausalGraph.ExpandLevel` | `sera/memory/graph.py:360-384` | one round lists the edges of the frontier, name by name, each once, and appends the names met for the first time to the queue |
| `CausalGraph.ExpandName` | `sera/memory/graph.py:361-384` | the same for one name, by id |
| `CausalGraph.NeighborsAreRows` | `sera/memory/graph.py:397-432` | the neighbour query yields exactly the matching caused rows, in the order of their ids |
| `CausalGraph.RoundAdds` | `sera/memory/graph.py:358-386` | the ring at distance d and its neighbours make up what is within d + 1 |
| `ChunkText.PyChunkText` | `sera/hotpaths.py:41-84` | the words of the chunks in order are the words of the text; every chunk fits max_bytes or is one longer word; every paragraph below max_bytes stands whole in some chunk; neighbours together leave no more room than two separators, unless an oversize paragraph begins the second; nothing for a bound below one |
| `ChunkText.RustChunkText` | `sera-rust/src/lib.rs:16-58` | the same specification, with the white space of Rust; wholeness of paragraphs and tight packing where paragraphs have no white space around them |
| `ChunkText.PackWords` | `sera/hotpaths.py:57-69` | the inner loop over one paragraph keeps the words and the bound and packs the words tightly |
| `ChunkText.PackWordsRust` | `sera-rust/src/lib.rs:29-46` | the same for the Rust loop |
| `Text.SplitKeepsWords` | `sera/hotpaths.py:48-49` | splitting at blank separators keeps the words |
| `Text.SplitIsUndone` | `sera/hotpaths.py:48` | the parts joined again are the text, and none contains the separator |
| `Text.JoinKeepsWords` | `sera/hotpaths.py:54-83` | joining with blank separators keeps the words |
| `Text.StripKeeps` | `sera-rust/src/lib.rs:54-55` | trimming keeps the words and does not lengthen |
| `Text.StripIs` | `sera/hotpaths.py:49` | trimming takes exactly the white space at both ends |
| `Chunker.SplitParagraphByLines` | `sera/memory/chunker.py:97-118` | the runs are the lines of the paragraph, cut at some places, with their line numbers; each is one line or within the bound, and the first line of the next would not have fitted |
| `Chunker.CarryOverlap` | `sera/memory/chunker.py:121-142` | as many last lines as the target pays for, but at least one; nothing for a target of zero or an empty text |
| `Chunker.Builder.Add` | `sera/memory/chunker.py:161-164` | appends a part and its cost |
| `Chunker.Builder.Reset` | `sera/memory/chunker.py:154-159` | an empty builder at the given line |
| `Chunker.FlushWithOverlap` | `sera/memory/chunker.py:206-219` | what is pending goes out and its last lines start the next chunk; nothing is lost |
| `Chunker.AddPiece` | `sera/memory/chunker.py:263-272` | a run of an oversize paragraph goes into a chunk of its own |
| `Chunker.AddOversize` | `sera/memory/chunker.py:258-274` | an oversize paragraph is consumed line for line |
| `Chunker.OpenSection` | `sera/memory/chunker.py:223-239` | a heading closes what is pending and opens a chunk under the new path |
| `Chunker.AddParagraph` | `sera/memory/chunker.py:254-279` | a paragraph is consumed, after a flush if it would not fit |
| `Chunker.GatherParagraph` | `sera/memory/chunker.py:242-254` | all the following lines that are neither blank nor a heading |
| `Chunker.ChunkMarkdown` | `sera/memory/chunker.py:180-284` | errors exactly for bad arguments on a text that is not blank; otherwise fresh lines in order, each once, headings only first, paths as the stack stood, line ranges that never go back, more than max_tokens only with a single part besides the overlap; a chunk ends only in front of a heading or an oversize paragraph, when it is full, or when the next paragraph does not fit; and the overlap is what max_tokens * overlap_ratio pays for of the chunk before |
| `Chunker.PathAfterLine` | `sera/memory/chunker.py:64-70` | a heading of level n leaves the first n - 1 entries of the path and puts its text behind them; other lines leave the path |
| `Chunker.PathsAreOpenSections` | `sera/memory/chunker.py:64-70` | all paths are the sections still open, those that no later heading of the same or a lower level has closed, if and only if the level of every heading fits what is open in front of it |
| `Chunker.UnskippedPathsAreOpenSections` | `sera/memory/chunker.py:64-70` | which is so where no heading skips a level |
| `Chunker.SkippedLevelStaysOpen` | `sera/memory/chunker.py:64-70` | three headings, of levels one, three and three, where the second stays in the path of the third |
| `Chunker.HeadLineIs` | `sera/memory/chunker.py:234` | a heading line is shown as its marks, a space and its text |
| `Chunker.InkedLinesAre` | `sera/memory/chunker.py:242-254` | the lines that must appear are exactly the non-blank ones, in order |
| `Chunker.NothingLost` | `sera/memory/chunker.py:180-284` | without the overlaps the chunks read as the non-blank lines of the document in order, headings in canonical form |
| `Council.ExtractOrdered` | `sera/council/rank.py:103-116` | the labels found, each once, in the order in which they are first found |
| `Council.FirstOccurrencesAre` | `sera/council/rank.py:103-116` | without repetition, and exactly the valid labels found |
| `Council.FirstOccurrencesInOrder` | `sera/council/rank.py:103-116` | a label placed above another is found before it |
| `Council.ParseRanking` | `sera/council/rank.py:57-100` | complete if and only if some strategy finds every label; then the ranking is the permutation of the labels in the order in which the first such strategy finds them |
| `Council.KendallTau` | `sera/council/confidence.py:77-107` | the nested loops compute the share of agreeing minus conflicting pairs |
| `Council.AgreeOrConflict` | `sera/council/confidence.py:92-107` | agreeing and conflicting pairs add up to n(n-1)/2 |
| `Council.PairsAreCounted` | `sera/council/confidence.py:106` | a ranking of n labels has n(n-1)/2 ordered pairs |
| `Council.TauSymmetric` | `sera/council/confidence.py:77-107` | tau is symmetric |
| `Council.TauMeaning` | `sera/council/confidence.py:77-107` | tau lies in [-1, 1]; it is 1 if and only if the rankings are equal and -1 if and only if one is the other reversed (two labels or more) |
| `Council.ComputeConfidence` | `sera/council/confidence.py:30-74` | the mean tau over all pairs of complete rankings, in [-1, 1], 1 if and only if they all agree; escalation if and only if it is below the threshold with two or more rankings |
| `Council.BordaCount` | `sera/council/chairman.py:105-123` | the loops give every label the sum of its points over the complete rankings |
| `Council.AddPoints` | `sera/council/chairman.py:117-122` | one ranking adds its points to the labels it names |
| `Council.PointsAre` | `sera/council/chairman.py:117-122` | a place is worth the number of places behind it, and a label that is not ranked gets nothing |
| `Council.FilterComplete` | `sera/council/confidence.py:48-60` | only the complete rankings count |
| `Council.CompleteAre` | `sera/council/confidence.py:48-60` | exactly the rankings of the complete results, one for each |
| `Council.WinnerBeatsAll` | `sera/council/chairman.py:126-133` | the winner has the highest score, and the smallest name among those |
| `Council.WinnerIsFirst` | `sera/council/chairman.py:126-133` | which says of every name that its score is lower, or equal and the name not smaller |
| `Council.DominatedNeverWins` | `sera/council/chairman.py:105-133` | a label placed below another in every complete ranking never wins |
| `Council.ScoresAddUp` | `sera/council/chairman.py:105-123` | the scores sum to (complete rankings) times n(n-1)/2 |
| `SlidingWindow.SpacedBoundsWindows` | `sera/rpc/supervisor.py:192-199` | events that stay spaced never exceed the limit in any window |
| `SlidingWindow.EventKeepsSpacing` | `sera/rpc/supervisor.py:192-199` | an event admitted while fewer than the limit are remembered keeps the spacing |
| `Supervision.Supervisor.StartOnce` | `sera/rpc/supervisor.py:185-190` | a child is there and the supervisor is running |
| `Supervision.Supervisor.RecordRestart` | `sera/rpc/supervisor.py:192-196` | the restart is remembered and what left the window is forgotten |
| `Supervision.Supervisor.Run` | `sera/rpc/supervisor.py:222-266` | restarts stay spaced; the circuit opens only on a tripped storm and nothing restarts after it; as long as it keeps running a restart answers every death |
| `Supervision.Supervisor.MarkHealthy` | `sera/rpc/supervisor.py:268-275` | resets the failure count and nothing else |
| `Supervision.RestartsAreBounded` | `sera/rpc/supervisor.py:192-199` | no window of storm_window_s holds more than storm_threshold restarts, at any time of any run |
| `Supervision.TrippedMeansStorm` | `sera/rpc/supervisor.py:198-199` | when the breaker trips that many restarts did fall into one window |
| `Supervision.BreakerIsCurrent` | `sera/rpc/supervisor.py:192-220` | the breaker says what a count of the window that ends now would say if and only if it is not tripped or its oldest restart is in that window |
| `Supervision.StaleStorm` | `sera/rpc/supervisor.py:201-220` | a breaker that is tripped a hundred seconds after the only restart, with a window of sixty |
| `MetaCuration.MetaCurator.Create` | `sera/curator/meta.py:61-74` | refuses a maximum below one or a window that is not positive |
| `MetaCuration.MetaCurator.Prune` | `sera/curator/meta.py:80-83` | keeps exactly the stamps in the window |
| `MetaCuration.MetaCurator.InWindow` | `sera/curator/meta.py:85-87` | how many of all accepted proposals fall into the window that ends now |
| `MetaCuration.MetaCurator.IsThrottled` | `sera/curator/meta.py:93-95` | throttled if and only if that window holds the maximum |
| `MetaCuration.MetaCurator.Accept` | `sera/curator/meta.py:101-129` | accepted and dropped part the proposals in order, and each is accepted if and only if the window ending when it is looked at holds fewer than the maximum |
| `MetaCuration.MetaCurator.Reset` | `sera/curator/meta.py:131-133` | forgets every accepted proposal |
| `MetaCuration.AcceptedAreBounded` | `sera/curator/meta.py:101-129` | between resets no window holds more than max_proposals accepted proposals |
| `MetaCuration.NotBeforeIsSuffix` | `sera/curator/meta.py:80-83` | pruning sorted stamps is dropping a prefix |
| `Audit.AuditLog.Append` | `sera/safety/audit.py:79-89` | the entry continues number and hash of the log, a log numbered from zero stays so, and the log is clean afterwards if and only if it was before |
| `Audit.AuditLog.Verify` | `sera/safety/audit.py:120-133` | the loop finds exactly the numbers of the entries that break the chain, none if and only if the log is clean |
| `Audit.CleanMeansNoneBad` | `sera/safety/audit.py:120-133` | an empty list of bad numbers means a clean chain |
| `Audit.CleanOneMore` | `sera/safety/audit.py:79-89` | a log with one more entry is clean if and only if it was clean and the entry carries its own hash and the last hash before it |
| `Audit.CleanPrefix` | `sera/safety/audit.py:120-133` | prefixes of clean logs are clean |
| `Audit.LastHashDetermines` | `sera/safety/audit.py:120-133` | two clean logs with the same last hash are the same log |
| `Audit.TamperingIsEvident` | `sera/safety/audit.py:120-133` | a changed log that still ends in the same hash is reported |
| `Audit.InnerEditIsEvident` | `sera/safety/audit.py:120-133` | changing any entry but the last is reported |
| `Audit.UnseenChanges` | `sera/safety/audit.py:120-133` | what verify cannot see: a shortened log, and a last entry replaced by one that continues the chain |
| `Privacy.LuhnOk` | `sera/memory/privacy.py:74-86` | the loop from the right computes the mod 10 check of 13 to 19 digits |
| `Privacy.WeightIs` | `sera/memory/privacy.py:79-85` | every second digit from the right counts double, as the sum of its digits |
| `Privacy.ZerosAreValid` | `sera/memory/privacy.py:74-77` | the lengths that pass are 13 to 19 |
| `Privacy.KnownNumbers` | `sera/memory/privacy.py:74-86` | a known number that passes, and a rotation of it that does not |
| `Privacy.DigitsOfAre` | `sera/memory/privacy.py:106-107` | the digits of a match are its digits in order |
| `Privacy.TotalAfterChange` | `sera/memory/privacy.py:78-85` | what changing one digit does to the weighted sum |
| `Privacy.WrongDigitIsCaught` | `sera/memory/privacy.py:74-86` | any single wrong digit is rejected |
| `Privacy.SwapIsCaught` | `sera/memory/privacy.py:74-86` | a swap of neighbours is missed if and only if they are equal or a 9 and a 0 |
| `Privacy.SortSorts` | `sera/memory/privacy.py:115` | the sort orders by start and then longest first, and keeps the hits |
| `Privacy.Sweep` | `sera/memory/privacy.py:116-123` | the loop keeps disjoint hits, and every hit overlaps a kept one that is not after it |
| `Privacy.CollectRaw` | `sera/memory/privacy.py:100-111` | the hits of all detectors, card numbers only if they pass the check |
| `Privacy.Detect` | `sera/memory/privacy.py:92-123` | sorted disjoint hits; every raw hit overlaps a returned one that starts no later and, from the same start, is no shorter |
| `Privacy.EarlierDetectorWins` | `sera/memory/privacy.py:113-123` | a returned hit is the first raw hit of its span: the sort is stable, so among equal spans the earlier detector wins |
| `Privacy.FirstMatchWinsExactly` | `sera/memory/privacy.py:92-123` | the documented rule, first match wins, yields the returned hits if and only if no hit that the rule drops comes, by position, before all the hits it keeps and that one overlaps |
| `Privacy.OrderedOverlapsMeanFirstMatchWins` | `sera/memory/privacy.py:92-123` | which is so if of two overlapping hits the one found first starts earlier or, from the same start, is no shorter |
| `Privacy.PairDecides` | `sera/memory/privacy.py:115-123` | and for two overlapping hits that overlap nothing else the one found first is returned if and only if it comes first by position |
| `Privacy.LaterDetectorWins` | `sera/memory/privacy.py:92-123` | a phone number run together with an address: the phone number, found by the later detector, is returned and the address dropped |
| `Privacy.HasPii` | `sera/memory/privacy.py:126-136` | true if and only if some detector has an accepted hit |
| `Privacy.HasPiiMeansDetected` | `sera/memory/privacy.py:92-136` | that is: if and only if detect returns something |
| `Privacy.RedactPii` | `sera/memory/privacy.py:148-165` | exactly the spans detect returns are replaced, each by the marker of its kind |
| `Privacy.RedactionKeepsTheRest` | `sera/memory/privacy.py:158-165` | for every marker, the output is the runs of text outside the spans with one marker between two of them, and these runs are exactly the uncovered characters in order |
| `Skills.SkillLifecycle.Upsert` | `sera/skills/lifecycle.py:117-127` | inserts a fresh row, leaves an existing one |
| `Skills.SkillLifecycle.Touch` | `sera/skills/lifecycle.py:129-148` | refreshes the row and makes it active unless it is archived |
| `Skills.SkillLifecycle.Archive` | `sera/skills/lifecycle.py:195-213` | archives and unpins |
| `Skills.SkillLifecycle.MarkCandidate` | `sera/skills/lifecycle.py:215-230` | clears the verified mark only |
| `Skills.SkillLifecycle.Verify` | `sera/skills/lifecycle.py:232-243` | sets the verified mark only |
| `Skills.SkillLifecycle.Revive` | `sera/skills/lifecycle.py:255-269` | reactivates an existing row |
| `Skills.SkillLifecycle.Pin` | `sera/skills/lifecycle.py:271-282` | sets the pin only |
| `Skills.SkillLifecycle.Unpin` | `sera/skills/lifecycle.py:284-291` | clears the pin only |
| `Skills.SkillLifecycle.Sweep` | `sera/skills/lifecycle.py:293-334` | writes back the idle rows; what it proposes for archiving are exactly the skills that read as stale and are idle for 180 days |
| `Skills.EligibleIsNotWithheld` | `sera/skills/loader.py:160-173` | eligibility does not depend on the time: withheld means unpinned and archived or unverified |
| `Skills.ReleasedOnlyBy` | `sera/skills/lifecycle.py:232-291` | exactly which calls release a withheld skill |
| `Skills.WithheldStays` | `sera/skills/loader.py:160-173` | over every run without those calls a withheld skill stays withheld |
| `Skills.ArchiveIsSticky` | `sera/skills/lifecycle.py:186-189` | an archived skill reads as archived at every later time of every run without a revive or a pin of it |
| `Skills.StateAfterRun` | `sera/skills/lifecycle.py:169-193` | after every run: archived reads what was archived and not revived since, unless pinned now; eligible is what is pinned now, or neither archived nor a candidate not verified since |
| `Skills.StaleAfterRun` | `sera/skills/lifecycle.py:169-193` | otherwise a skill reads as stale once its last touch, revive or first mention is 90 days ago, and as active before that |
| `Skills.PinOverridesArchive` | `sera/skills/lifecycle.py:184-189` | a pin ends that too, and an unpin brings the archive back |
| `Skills.ReviveRestores` | `sera/skills/lifecycle.py:255-269` | one revive makes an archived skill active, and eligible if and only if it is verified |
| `Skills.RowsAreKept` | `sera/skills/lifecycle.py:1-10` | no row is ever deleted |
| `Skills.SweepIsInvisible` | `sera/skills/lifecycle.py:293-334` | no read at any time can tell whether a sweep ran; a second sweep changes nothing |
| `Skills.SweepStoresWhatIsRead` | `sera/skills/lifecycle.py:293-331` | a sweep stores of an active row what a read at that time sees |
| `Skills.TouchKeepsWithheld` | `sera/skills/lifecycle.py:129-148` | a touch never changes what is withheld |
| `Skills.ToolNamesDiffer` | `sera/skills/loader.py:90-92` | different skills have different tools |
| `Skills.SkillRegistry.IsRuntimeEligible` | `sera/skills/loader.py:151-173` | eligible if and only if not withheld |
| `Skills.SkillRegistry.Refresh` | `sera/skills/loader.py:175-219` | the loops compute the specified view and summary; the rows of exactly the added and updated skills are touched, and eligibility stays |
| `Skills.SkillRegistry.RemoveDead` | `sera/skills/loader.py:209-214` | the tracked names that are not live lose entry and tool, each reported once |
| `Skills.SkillRegistry.Clear` | `sera/skills/loader.py:232-238` | every tool of this registry is gone and nothing is tracked |
| `Skills.RebuiltMatchesDisk` | `sera/skills/loader.py:175-238` | after clear and refresh the view is the disk: the eligible names, each with entry and tool of one manifest, and all foreign tools untouched |
| `Skills.EveryRefreshIsRebuild` | `sera/skills/loader.py:175-219` | if content changes only with the time, then through any sequence of disks every refresh equals clearing and rebuilding, and the registry stays in step |
| `Skills.DatedRefreshIsRebuild` | `sera/skills/loader.py:175-219` | the step of that: from a registry in step |
| `Skills.RefreshIsRebuild` | `sera/skills/loader.py:175-219` | without that assumption, a refresh of a registry in step equals a rebuild if and only if no manifest was rewritten under the tracked time |
| `Skills.RewriteIsMissed` | `sera/skills/loader.py:203-207` | a manifest rewritten under the tracked time, which the refresh misses |
| `Skills.RefreshIsIdempotent` | `sera/skills/loader.py:176` | a second refresh of the same disk changes nothing |
| `Skills.SecondRefreshIsQuiet` | `sera/skills/loader.py:175-219` | it reports nothing if and only if manifests of one name share one modification time |
| `Skills.TwoTimesAreReported` | `sera/skills/loader.py:203-207` | two manifests of one name with different times, which every refresh reports again |
| `Skills.OnlyEligibleAreRegistered` | `sera/skills/loader.py:160-214` | after a refresh exactly the skills on disk that are not withheld are tracked; one withheld since has lost its tool |
| `Skills.ToolRegistry.Register` | `sera/tools/registry.py:14-16` | the last registration wins |
| `Skills.ToolRegistry.Unregister` | `sera/tools/registry.py:19-21` | drops the tool and tells whether there was one |
| `Profile.RenderProfile` | `sera/profile.py:61-76` | the loop over the managed sections computes the specified text, with what pattern.sub makes of a block as an argument; standard sections fill in for missing or empty ones |
| `Profile.LiteralRenders` | `sera/profile.py:97-106` | without backslashes in the items rendering never fails and takes every item literally |
| `Profile.CurrentProfileSections` | `sera/profile_learning.py:280-302` | the loop overrides the standard section of every key whose block has items |
| `ProfileDocs.UpsertInDoc` | `sera/profile.py:97-106` | on a well-formed text an upsert replaces every block of its key, or appends one, and does nothing else |
| `ProfileDocs.FindBlock` | `sera/profile_learning.py:287-290` | the first block of a key is where the search for its opening marker ends |
| `ProfileDocs.BodyReads` | `sera/profile.py:87-94` | the items of a block are read back trimmed and without the blank ones |
| `ProfileLaws.RenderedText` | `sera/profile.py:61-76` | what rendering makes of a well-formed text, block by block, is well formed again and says in every block what it should |
| `ProfileLaws.ReadsBack` | `sera/profile_learning.py:280-302` | reading a rendered profile gives every section its items, trimmed and without blank ones, or the standard items where none are left |
| `ProfileLaws.RoundTrip` | `sera/profile_learning.py:280-302` | a section comes back as it went in if and only if its items are trimmed, not blank and at least one, or it equals the standard section |
| `ProfileLaws.RenderedOutside` | `sera/profile.py:61-76` | outside the blocks every text is kept character by character, up to white space at the two outer ends of the whole and the header in front; only white space follows, and the blocks keep their order |
| `ProfileLaws.RenderedTwice` | `sera/profile.py:61-76` | rendering again changes nothing if and only if the first rendering left the header in the text; otherwise it adds it |
| `ProfileLaws.RenderingIsIdempotent` | `sera/profile.py:61-76` | which is so if and only if the header was missing, stands outside the managed blocks or is in what a block is going to say |
| `ProfileLaws.HeaderInBlockIsLost` | `sera/profile.py:61-76` | a text whose only header stands inside a managed block, where the second rendering differs from the first |
| `ProfileLaws.EmptySectionIsNotRead` | `sera/profile_learning.py:295-301` | an empty section reads back as the standard one |

## Left out

Not modelled at all:

- HTTP and webhook servers, the command line, the shell interface, the browser extension, notifications, sandboxes and installers.
- SQLite, YAML, JSON text, regular-expression engines, tokenizers, embeddings and cryptographic primitives: they are maps, datatypes, functions given as arguments, or assumptions stated above.
- Freshness decay, BM25, cosine similarity and Beta sampling, which are about floating point.
- Stores and gates without an algorithm: telemetry, capability log, marketplace registry, skill scores, consent toggles.
- `RestartPolicy.delay_for`, `ORSet.elements`, `LWWRegister.get` and `keys`, `MetaCurator.remaining`, `SkillRegistry.tools`, `pii_kinds`, `load_skill` and `discover_skills`: single expressions, or parsing of files.
- The Presidio adapter, `_render_turn`, the summary prompt and the chairman's synthesis call.

Modelled with less detail:

- Times, thresholds and ratios are reals or integers, not floats; rounding is not modelled.
- Relay.Next: a frame that is JSON but no object raises an exception that neither handler catches; such frames do not occur in the model. Sends that fail are the losses of a disconnect.
- CrdtObjects.RelayServer.Receive: one handler at a time, as the lock and the event loop arrange it; the interleavings are those of module `Relay`.
- AgentTurn.Iterate: the model, the tools, the approvals, interrupts, the cost limit and the retry after an overflow are arbitrary choices that a log records; an exception before the request is sent counts as one after it, and interrupts may also stop nested turns at any pass.
- AgentTurn.RunTurn: usage accounting, sinks, the write to the distillation cache and the capture hooks after the turn are left out; a cached answer is an argument.
- AgentTurn.DelegateTask: the optional context in front of the prompt is part of the prompt.
- Compressor.CompactSession: the token estimate of a list is the sum of those of its messages, and messages carry role, content, call ids and the answered id only.
- Supervision.Supervisor.Run: for a given number of rounds; the run without a limit is the same loop. The child and the stop signal are arbitrary, and the state a concurrent stop writes is that of the next round.
- ChunkText.PyChunkText: branches that no input reaches are asserted to be so.
- ChunkText.RustChunkText: a chunk may be empty when a white-space paragraph is flushed; the specification allows it as the code does, and where white space stands around a paragraph nothing is said of whole paragraphs or full chunks, because trimming shortens them. Sums of lengths do not wrap.
- Chunker.ChunkMarkdown: works on lines; heading pattern, blankness and token estimate are parameters. It does not state that a chunk stays within `max_tokens`, because overlap and single parts may exceed it.
- Scrubber.Scrub: the output can contain an opener that the removal of another span put together; nothing is claimed about it.
- Council.ParseRanking: the matches of each pattern are given as a sequence; the search for the ranking header is left out.
- Privacy.Detect: the matches of each pattern are given as spans, in order. Digits are ASCII digits; `str.isdigit` also accepts other scripts.
- Audit.AuditLog.Append: the file is the sequence of its entries, payloads are canonical text, and time stamps are integers so that an injective hash exists.
- Skills.SkillRegistry.Refresh: manifests arrive as the sequence that `discover_skills` returns, with their times; a manifest that fails to load or names an unknown permission raises an exception, which is not modelled.
- Profile.RenderProfile: what Python's `sub` makes of a replacement with escapes is an argument, not a definition.
- AgentTurn.RequestsAreValid: ids that a session left unanswered are not used again by the turn, and the compacted case of a session that is not paired assumes that ids are used once; `Compressor.CompactionOfAnySession` does without both.
