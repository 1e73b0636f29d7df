# kin-lsp: a verified model

kin-lsp drives language servers: it speaks JSON-RPC to a child process, sweeps source files for
references, and records what a run can be cited for. This project models its core in Dafny and
proves what that core promises. `dafny verify dfyconfig.toml` checks everything.

**The client** (`src/client.rs`, the document scopes of `src/enrichment.rs`). `ClientCore` is the
state shared by callers, writer task and reader task, with the effect on it of each stretch of code
that runs without an await. `Client` makes it a step system: callers that can be cancelled at every
await, a one-permit write slot whose permit travels inside the queued message, a 64-place queue, a
writer that can die in the middle of a frame, a reader, a sticky `failed` flag, and a document scope
that can be dropped at any await. `CoreInvariant`, `Permit`, `Correlation`, `Documents` and
`ClientSafety` hold the inductive invariant; `ClientTheorems`, `ClientFailure`, `ClientProgress`,
`ClientReplies`, `ClientWaiters`, `ClientOutcomes` and `ClientDocuments` what every reachable state
and every run keeps. `JsonRpc` is the client object in the source's imperative form, `Requests` a
request on it, `ReaderTask` the reader's loop and `Cleanup` the scope's two ways out, each method
tied to the step it performs.
`JsonRpc.JsonRpcClient.WriterTask` is the writer's loop; its contract says that it only takes steps
of the step system.

**The frame codec** (`Codec`, `Utf8`): bytes in, bytes out, with UTF-8 validation, Unicode trimming
and decimal lengths written out. `TextTheorems` says what these mean, and `HeaderBlocks` what the
decoder makes of any header block, not only of its own frames.

**The sweep** (`src/enrichment.rs`, `src/file_enrichment.rs`). `Scanner` finds identifiers and
member expressions, `EntityIndex` answers which entity holds a line, `Join` binds members of module
receivers, `Sweep` is the per-file loop. The language server is a total function from (method, uri,
line, column) to locations or an error; a timeout is an error. Each loop is a method proved equal to
a function; `JoinTheorems`, `SweepTheorems`, `SweepMeaning` and `SweepEvidence` say what those
functions mean, and
`JoinExactness` and `SweepExactness` where what they promise ends.

**The proof recorder and the citable gate** (`Recorder`, `RecorderTheorems` and the
recorder object in `ProofRecording`, from `src/proof.rs`) and
**the provenance encoding** (`Provenance`, from `src/registry.rs`).

In the proofs, a `match` whose cases are empty splits a proof by cases, and `hide` keeps definitions
a step does not need out of the solver's way.

Where code and documentation disagree the model follows the code. Results worth knowing:

- A framed empty body decodes one byte early: with only its final line feed missing it is already
  a message (`Codec.StrictPrefixIsNoMessage`). The header loop ends on any line that trims to nothing.
- A didClose does not always meet a didOpen: a scope cancelled before its didOpen is queued still
  queues the didClose (`ClientTheorems.StrayCloseHappens`). Every close meets an open exactly when
  no open was missed (`ClientTheorems.StrayCloseNeedsMissedOpen`).
- A cancelled request leaves its waiter in the map; nothing else does
  (`ClientWaiters.OrphanHappens`, `ClientWaiters.OrphanedIffCancelled`).
- Suffix path lookup is independent of hash order exactly when the key is absolute, or no other
  indexed path is a suffix of it or ends with `/` and the key (`EntityIndex.SuffixLookupIsSafeIff`).
- Files are known to the server by uri and to the index by path. Where a file is indexed under a
  relative and an absolute path and the provider has text for one of them only, the join can return
  an export it never proved (`JoinExactness.AliasesBreakTheJoin`), and the line gate, meant to change
  no output, changes it (`SweepExactness.GateShows`); an alias of the enriched file can have it
  opened again (`SweepExactness.HomeIsOpened`). The conditions are exact: `JoinExactness.JoinIsSoundIff`,
  `JoinExactness.JoinIsDisciplinedIff`, `SweepExactness.GateIsInvisibleIff`,
  `SweepExactness.SweepIsDisciplinedIff`. With relative paths throughout, the
  enriched file's included, all four hold.
- `positions_queried` counts identifiers on gated lines, which are not asked about; when that makes a
  difference is said in `SweepExactness.QueriedIsAskedIff`.
- The gate believes a gap's `required` flag. Which records it passes wrongly is said exactly in
  `RecorderTheorems.GateIsExactIff`; one is in `RecorderTheorems.UnflaggedGapPasses`, and a recorder
  never makes one (`RecorderTheorems.RecorderFlags`).
- Provenance round-trips exactly when the provider id has no semicolon (`Provenance.RoundTripIff`),
  and the prefix check accepts records that do not decode (`Provenance.PrefixIsNotEnough`).

## Model

| member | source | states |
|---|---|---|
| Utf8.ParsePrint | src/client.rs:299-325 | a printed length parses back to itself exactly when it fits a `usize` |
| Utf8.AsciiDecodesToItself | src/client.rs:316 | bytes below 0x80 are valid UTF-8 and decode to themselves, one character each |
| TextTheorems.DecodesToIff | src/client.rs:316 | bytes decode to a text exactly when they are its UTF-8 encoding (section 3 of RFC 3629) |
| TextTheorems.TrimMeaning | src/client.rs:320 | trimming takes off the white space at both ends, all of it and nothing else |
| TextTheorems.BlankIff | src/client.rs:321 | nothing is left exactly when all was white space |
| TextTheorems.ParsesToIff | src/client.rs:325 | a text parses to a number exactly when it is that number's decimal digits, leading zeros and one plus sign allowed, and fits a `usize` |
| TextTheorems.DecimalIsCanonical | src/client.rs:299 | the printed length is its digits, without a leading zero |
| Codec.FrameShape | src/client.rs:298-304 | a frame is the length line, two line ends and the body |
| Codec.FrameRoundTrip | src/client.rs:298-338 | one written frame decodes to its body, whatever bytes the body holds, and leaves exactly what followed it |
| Codec.StreamRoundTrip | src/client.rs:298-338 | any sequence of frames decodes to exactly its bodies, in order; bytes after the last frame are read as if they stood alone |
| Codec.StrictPrefixIsNoMessage | src/client.rs:308-334 | a strict prefix of a frame decodes to a message if and only if the body is empty and just the last line feed is missing |
| Codec.CutStream | src/client.rs:308-334 | a stream of frames cut anywhere decodes to exactly the bodies it holds whole |
| Codec.WholeFramesReach | src/client.rs:298-304 | a stream long enough for some frames holds at least those whole |
| HeaderBlocks.BlockIsRead | src/client.rs:313-334 | for any header lines and a blank one: the last line that names a length decides, whatever lines stand around it, and the message is that many bytes, or the stream ends inside it; with no such line, or no number in it, the block is refused |
| HeaderBlocks.OtherHeadersAreSkipped | src/client.rs:313-338 | any lines before, and any that do not name a length after the length line, leave body and rest as they are |
| HeaderBlocks.UnendedBlockIsDeath | src/client.rs:316-319 | a stream that ends before the blank line, inside a line or not, is a dead server |
| HeaderBlocks.BlankPartIsBlankLine | src/client.rs:320-323 | white space that ends the stream counts as the blank line |
| HeaderBlocks.ForeignBytesAreAnError | src/client.rs:316 | a line that is not UTF-8 is an input error, whatever was said before |
| Codec.ChildStdin.WriteAll | src/client.rs:300-301 | what reaches the pipe is a prefix of the bytes, all of them on success |
| Codec.ChildStdin.WriteFrame | src/client.rs:298-304 | success puts the whole frame on the pipe, failure some prefix of it |
| Codec.BufReader.ReadLine | src/client.rs:316 | takes the bytes through the next line feed, or all that is left |
| Codec.BufReader.ReadOneMessage | src/client.rs:308-334 | the header loop and the body read do what the decoding function says, and on a message leave the reader at what follows |
| CoreInvariant.EnqueueKeeps | src/client.rs:227-231 | queueing an item keeps the shared invariant: wire, acknowledgments, queue and history agree |
| CoreInvariant.WriterKeeps | src/client.rs:75-124 | every writer step keeps it, partial writes, failures and being aborted included |
| CoreInvariant.TerminateKeeps | src/client.rs:75-124 | dropping the receiver with everything queued keeps it |
| CoreInvariant.DispatchKeeps | src/client.rs:133-143 | dispatching a reply keeps it |
| CoreInvariant.ReaderDiesKeeps | src/client.rs:146-153 | the reader's exit keeps it |
| CoreInvariant.FailWriterKeeps | src/client.rs:234-242 | marking the writer failed keeps it |
| CoreInvariant.DrainKeeps | src/client.rs:292-296 | draining the waiters keeps it |
| Permit.Conserves | src/client.rs:64-67 | every step of every party keeps free permits, callers holding one, and messages queued or in the writer's hand at one in all |
| Correlation.CallerCorrelates | src/client.rs:172-289 | every caller step, cancellation included, keeps ids, waiters and queued frames in agreement |
| Correlation.WriterPreserves | src/client.rs:75-124 | the writer's steps disturb no request |
| Documents.DoubledMeaning | src/enrichment.rs:662-685 | the running view reports a double open exactly when two opens of a document lack a close between them |
| Documents.OpenMeaning | src/enrichment.rs:662-685 | the view's open set is exactly the documents opened with no close since |
| Documents.CountMeaning | src/enrichment.rs:662-685 | short of double opens, a document's closes are its opens, less a pending one, plus the strays |
| Documents.SeeBatch | src/enrichment.rs:664-685 | a cleanup batch closes each of the scope's documents exactly once, in whatever order its set yields them |
| ClientSafety.StepInv | src/client.rs:60-290 | the whole invariant is kept by every enabled step |
| ClientSafety.RunInv | src/client.rs:60-290 | and so by every run |
| ClientSafety.ReachableInv | src/client.rs:60-290 | and so holds in every reachable state |
| ClientTheorems.WireIsQueuePrefix | src/client.rs:75-124 | in every reachable state the wire is the frames of a prefix of the items, in queue order, then at most a part of the next |
| ClientTheorems.AcknowledgedIsBarrier | src/client.rs:75-124 | once item k is acknowledged Ok, everything queued up to and including it is on the wire, unobserved cleanup batches too |
| ClientTheorems.AcknowledgedIsDelivered | src/client.rs:75-124 | and a peer that decodes the wire has every one of those bodies |
| ClientTheorems.PeerSeesBalancedPrefix | src/client.rs:215-289 | whatever failed or was cancelled, the peer decodes exactly a prefix of the queued bodies, which never opens a document twice without a close between |
| ClientTheorems.ClosedScopeLeavesNothingOpen | src/enrichment.rs:662-685 | after any run that ends without a scope and lost no batch, no document is open: every queued open has its own close, the next word about that document, and there are exactly as many further closes as opens missed in the run |
| ClientTheorems.LossMeansFailure | src/client.rs:215-232 | with the scope gone, a batch was lost only if the client failed |
| ClientTheorems.ScopeClosesItsOwn | src/enrichment.rs:662-685 | between any two moments without a scope, if no batch was lost, of what was queued meanwhile each document has as many closes as opens, plus one per open missed meanwhile |
| ClientTheorems.ScopeOwnsWhatIsOpen | src/enrichment.rs:636-660 | while no batch was lost, the documents open in the queue are exactly those the scope owns and whose frame was queued |
| ClientTheorems.StrayCloseNeedsMissedOpen | src/enrichment.rs:636-685 | over any run a document has at most as many stray closes as missed opens, exactly as many once the scope is gone and no batch was lost: every close meets an open if and only if no open was cancelled or failed before being queued |
| ClientTheorems.StrayCloseHappens | src/enrichment.rs:636-685 | the run that shows it: a scope dropped while its open waits for the permit queues one stray close, and nothing failed |
| ClientDocuments.AcceptedOpenIsOwned | src/enrichment.rs:636-660 | when `ensure_open` returns with its notification sent, the scope holds a document whose open is queued |
| ClientDocuments.RequestFindsDocumentOpen | src/enrichment.rs:614-685 | a frame sent while the scope holds a document lies in the queue behind the document's open with no close between, and a peer that decodes the frame has decoded that open before it, whatever happens afterwards |
| ClientTheorems.PermitIsConserved | src/client.rs:256-279 | the permit is in one place in every reachable state |
| ClientTheorems.SenderMeetsOnlyCleanup | src/client.rs:256-279 | a caller about to send finds only cleanup batches queued or being written, so it is refused only by a dead writer or 64 batches |
| ClientFailure.FailureIsAbsorbing | src/client.rs:76-122 | from a failed state on `failed` stays, an item not yet taken is never acknowledged Ok and adds nothing to the wire, and no caller that starts later succeeds |
| ClientFailure.DeadWriterMeansFailed | src/client.rs:106-122 | a writer that left its loop has set `failed` |
| ClientFailure.ClosesAfterFailureAreRefused | src/client.rs:215-232 | from a failed state with no close past its look at `failed`, any run queues messages only, and no scope comes to await another acknowledgment |
| ClientProgress.WriterWorks | src/client.rs:75-124 | every writer step strictly decreases queued items plus unwritten bytes |
| ClientProgress.WriterComesToRest | src/client.rs:75-124 | the writer's own steps bring it to rest within that measure |
| ClientProgress.RestAnswersAll | src/client.rs:75-124 | at rest nothing is outstanding, and with a sound writer everything queued was acknowledged Ok |
| ClientProgress.AckIsAnswered | src/client.rs:111-119 | every outstanding acknowledgment is resolved by writer steps alone, Ok if the pipe holds and `failed` was not set |
| ClientProgress.DeadWriterReleasesAll | src/client.rs:75-124 | a terminated writer has returned its permits and closed every acknowledgment |
| ClientProgress.HolderOrWriterSteps | src/client.rs:256-280 | while the permit is taken, a step of its holder or of the writer is enabled and brings it closer |
| ClientProgress.PermitCanBeGranted | src/client.rs:256-262 | whoever waits for the permit can be served by such steps: no deadlock on the write path |
| ClientReplies.IdsAreUnique | src/client.rs:173 | no two requests of one reachable state share an id, and all ids are below the counter |
| ClientReplies.IdsAreNeverReused | src/client.rs:173 | of two requests met at any two moments of a run, returned or cancelled in between or not, equal ids mean the same request |
| ClientReplies.IssuedIdsDiffer | src/client.rs:173 | two requests issued anywhere in one run take different ids |
| ClientReplies.RegisteredBeforeQueued | src/client.rs:175-186 | a request frame enters the queue once, after its waiter was registered |
| ClientReplies.StepResolvesOnce | src/client.rs:130-153 | a resolved request stays as it is; an open one changes only by a reply with its id, by a failure path, or by its owner giving up |
| ClientReplies.ResolvedOnce | src/client.rs:130-201 | over any run a request resolves at most once, and gets a value only from a reply with its id |
| ClientReplies.AnswerIsOwn | src/client.rs:191-193 | the value a caller is about to return was given to the reader under that caller's id |
| ClientReplies.ReplyWaitEnds | src/client.rs:292-296 | once the writer failed, a request in its reply wait is answerable, or a drain that makes it so is enabled |
| ClientOutcomes.SentIsOnTheWire | src/client.rs:268-288 | a caller told that its frame went out - a notification that returned, a request in its reply wait or past it - has that frame acknowledged Ok and on the wire behind everything queued before it |
| ClientOutcomes.AckDecides | src/client.rs:280 | over any run, a caller that awaits the acknowledgment of its item, unless cancelled, is told that the frame went out if and only if that acknowledgment is Ok, and that it did not if and only if it is an error or was dropped |
| ClientOutcomes.RefusedMeansFailed | src/client.rs:256-280 | only a failed client tells a caller that its frame did not go out |
| ClientOutcomes.AnswerIsTheSlot | src/client.rs:186-200 | a request returns what its own oneshot came to; a timeout or an answer is for requests only |
| ClientOutcomes.ClosesAreDelivered | src/enrichment.rs:664-673 | the acknowledgment `close_all` awaits is that of the last batch queued; once it is Ok the peer has decoded that batch and all before it |
| ClientOutcomes.ReaderExitAnswersAll | src/client.rs:146-153 | when the reader stops, the map is empty, every oneshot that was in it is dead and no other changed, and every request in its reply wait can return at once |
| ClientOutcomes.GiveUpStopsWriter | src/client.rs:234-242 | the first failure of a send leaves the writer gone, abortable, or at a step without an await, and the drain enabled, whatever the pipe does |
| ClientWaiters.OrphanedIffCancelled | src/client.rs:172-201 | after any run, a waiter in the map has no request under way if and only if its request was cancelled: one that returns, by reply, error or timeout, leaves none |
| ClientWaiters.OrphanHappens | src/client.rs:172-201 | the run that shows it: a request cancelled while it waits for the permit leaves its waiter in a sound client |
| ClientWaiters.CancelledLeavesWaiter | src/client.rs:172-201 | cancelling a registered request leaves its waiter behind with no owner |
| JsonRpc.ResolveDied | src/client.rs:292-296 | the drain loop gives every waiter the error, in any order, and touches no other |
| JsonRpc.MessagesIn | src/client.rs:75-124 | dropping the queued items returns one permit per message |
| JsonRpc.JsonRpcClient.constructor | src/client.rs:61-169 | a fresh client: one permit, empty queue, ids from 1 |
| JsonRpc.JsonRpcClient.RegisterRequest | src/client.rs:173-177 | a fresh id whose waiter is registered before anything is sent |
| JsonRpc.JsonRpcClient.RemoveWaiter | src/client.rs:187 | the owner takes its own waiter away |
| JsonRpc.JsonRpcClient.DispatchReply | src/client.rs:133-143 | resolves the waiter of that id if it is there, and nothing else |
| JsonRpc.JsonRpcClient.ReaderExit | src/client.rs:146-153 | the waiters of the map get the error, no other oneshot changes, and the reader is gone |
| ReaderTask.ReadReplies | src/client.rs:129-155 | over the whole stream, a waiting request gets the first reply that carries its id before anything unreadable, or the error; then nobody waits |
| JsonRpc.JsonRpcClient.FailWaiters | src/client.rs:292-296 | every waiter is woken with the error and the map emptied |
| JsonRpc.JsonRpcClient.FailWriter | src/client.rs:234-242 | the first failure sets the flag, aborts the writer and spawns a drain; a later one does nothing |
| JsonRpc.JsonRpcClient.TrySend | src/client.rs:227 | queues with a fresh acknowledgment if the receiver lives and a place is free, else changes nothing |
| JsonRpc.JsonRpcClient.CloseDocuments | src/client.rs:215-232 | queues the batch exactly when the client has not failed and there is room; otherwise leaves `failed` set |
| JsonRpc.JsonRpcClient.AcquirePermit | src/client.rs:257-262 | takes the free permit |
| JsonRpc.JsonRpcClient.SendWithPermit | src/client.rs:263-279 | the permit moves into the queued message, or comes back with `failed` set |
| JsonRpc.JsonRpcClient.Recv | src/client.rs:76 | takes the oldest item and frees its place |
| JsonRpc.JsonRpcClient.CheckFailed | src/client.rs:77-79 | a failed client writes nothing more |
| JsonRpc.JsonRpcClient.WriteBody | src/client.rs:81-93 | puts on the wire the frame of that body, or the part the pipe took |
| JsonRpc.JsonRpcClient.WriteItem | src/client.rs:80-97 | success means the item's every frame is on the wire, in order |
| JsonRpc.JsonRpcClient.FailItem | src/client.rs:106-122 | a failed write ends with the flag set, the waiters woken, the sender told and the writer gone |
| JsonRpc.JsonRpcClient.FinishItem | src/client.rs:110-123 | a written item is acknowledged Ok and its permit returned |
| JsonRpc.JsonRpcClient.Leave | src/client.rs:120-124 | the receiver's end returns every permit and closes every open acknowledgment |
| JsonRpc.JsonRpcClient.WriterTask | src/client.rs:75-124 | the loop takes only steps of the step system, and stops with everything acknowledged Ok, or failed with nothing outstanding |
| Requests.SendAndWait | src/client.rs:256-289 | says the frame went out exactly when its item was acknowledged Ok, and then it is on the wire behind everything queued, also if the client fails meanwhile; otherwise the client has failed; either way the permit is free again, the writer rests or is gone, and no other request is disturbed but by a failure |
| Requests.Request | src/client.rs:172-201 | a caller alone with writer and reader gets the reply to its own fresh id, a timeout, or a failure; in every case its waiter is gone, the permit is free again and the writer rests or is gone, so that the next call can be made |
| Cleanup.Drain | src/enrichment.rs:671 | the batch closes each open document exactly once and leaves the set empty |
| Cleanup.CloseAll | src/enrichment.rs:664-685 | queues one such batch, or is refused by a failed or full client; nothing stays owned either way |
| Cleanup.ScopeDoesTheSame | src/enrichment.rs:664-685 | the step system's scope, uninterrupted, does to the client what `CloseAll` does |
| Cleanup.EmptyScopeIsSilent | src/enrichment.rs:665-678 | a scope without documents says nothing to the client, on either way out |
| StableSort.SortKeeps | src/proof.rs:354-358 | sorting keeps the elements, with multiplicity |
| StableSort.SortSorts | src/proof.rs:354-358 | and sorts by any total preorder of keys |
| StableSort.SortStable | src/proof.rs:354-358 | and keeps the order of ties |
| StableSort.SortedIsDetermined | src/proof.rs:354-358 | two sorted sequences that agree on every class of ties are equal |
| Scanner.ScannerIsExact | src/file_enrichment.rs:38-79 | the columns reported are, increasing, exactly the letters and underscores that open a word after an even number of toggling quotes, unless behind white space the line starts with `//`, `/*` or `*`; then, and without such columns, none is |
| Scanner.IdentifierPositionsInLine | src/file_enrichment.rs:38-79 | the scanner, skip-ahead loop and all, returns exactly those columns |
| Scanner.SkippedWord | src/file_enrichment.rs:69-71 | skipping to the end of a word loses no column and crosses no quote |
| Scanner.MemberExpressionAt | src/enrichment.rs:398-436 | the two loops read the word at the column, the dot and the word after it |
| Scanner.MemberIff | src/enrichment.rs:398-436 | the reader succeeds exactly where a word, a dot and a word start meet, and returns the rest of the first word and the column and whole of the second |
| Scanner.ScannerAndReaderAgree | src/enrichment.rs:398-436 | at a reported column the reader returns the maximal words around the dot, and the member is the very next reported column |
| EntityIndex.Group | src/enrichment.rs:64-71 | the grouping loop gives each file its own entities in build order |
| EntityIndex.New | src/enrichment.rs:64-77 | each file's entities, sorted by start line, and no other key |
| EntityIndex.BuildConserves | src/enrichment.rs:64-77 | no entity is lost, repeated or filed under another path; buckets are sorted |
| EntityIndex.SortingIsInvisible | src/enrichment.rs:111-128 | the innermost-span query on the sorted bucket is the linear scan of the build order, ties included |
| EntityIndex.FindAtIsLinearScan | src/enrichment.rs:111-128 | `find_at` on a built index is that scan over the file that answers for the path |
| EntityIndex.InnermostIsSmallest | src/enrichment.rs:116-127 | the answer spans the fewest lines of all spans holding the line, and starts last among those |
| EntityIndex.InnermostIsWithinAll | src/enrichment.rs:111-128 | on nested spans the answer lies within every span holding the line, and exists exactly when some span does |
| EntityIndex.KeyIndexed | src/enrichment.rs:79-86 | the bucket that answers belongs to an indexed path that matches |
| EntityIndex.NoRivalIsSafe | src/enrichment.rs:79-86 | for an absolute key, or without a rival path, `root/key` leads to `key` for any root and map order |
| EntityIndex.SuffixLookupIsSafeIff | src/enrichment.rs:79-86 | lookup is right for every root and map order if and only if the key is absolute, or no other key is a suffix of it or ends with it below a directory |
| EntityIndex.NoSuffixNoRival | src/enrichment.rs:79-86 | keys none of which is a suffix of another have no rivals |
| Enrichment.ScopedDocuments.EnsureOpen | src/enrichment.rs:614-660 | says whether the server now holds the document, opens at most it and never twice, owns it even when the notification fails; where files under one uri can be opened together or not at all, it answers by the file alone, whatever was open |
| Enrichment.ScopedDocuments.LocationsAt | src/enrichment.rs:482-507 | the server's answer, whatever is open; an unsupported request is empty and not heard; asking about an open document keeps the traffic disciplined |
| Enrichment.ScopedDocuments.ExamineCandidate | src/enrichment.rs:757-783 | a candidate that qualifies is proven, whatever was opened before, and where aliases agree no other is; a candidate whose file is not under the enriched file's uri is asked about only once its open was acknowledged |
| Enrichment.ScopedDocuments.MemberExportBindings | src/enrichment.rs:727-786 | the nested loops compute the join function, traffic and failures included |
| JoinTheorems.CandidatesMeaning | src/enrichment.rs:751-759 | candidates are exactly the entities of the module files with the member's name |
| JoinTheorems.ExtensionIff | src/enrichment.rs:566 | a path's extension is what follows its last dot |
| JoinTheorems.OpenableIff | src/enrichment.rs:565-635 | a file can be opened exactly when there is a provider with text for it and its extension names a known language |
| JoinTheorems.ProvenIff | src/enrichment.rs:538-540 | a candidate is proven exactly when some location of each answer names the same line of the same document; nothing is on an empty answer |
| JoinTheorems.JoinIsSoundAndComplete | src/enrichment.rs:727-786 | when no query fails, the join returns candidates, every qualifying candidate's id and no id twice, whatever is open; where files under one uri can be opened together or not at all, every entity it returns qualifies |
| JoinTheorems.FileUriInjective | src/protocol.rs:162-164 | two relative paths, or two absolute ones, with one uri are one path |
| JoinTheorems.UniformPathsAgree | src/protocol.rs:162-164 | in an index of relative paths, as in one of absolute paths, no two files share a uri |
| JoinExactness.BuiltIsFiled | src/enrichment.rs:64-77 | a built index files every entity under its own path, which the exact conditions take for granted |
| JoinExactness.AliasesBreakTheJoin | src/enrichment.rs:727-786 | two calls of one scope on an index's own entities: the first opens a file, the second returns an entity of another file under that uri that cannot be opened |
| JoinExactness.JoinIsSoundIff | src/enrichment.rs:727-786 | for an index, root, capabilities, provider and client: whatever the server and the calls of a scope, a call returns only what is proven, if and only if, with both capabilities, other files of the index under one uri can be opened together or not at all |
| JoinTheorems.JoinIsDisciplined | src/enrichment.rs:614-660 | if no candidate of that name lies in another file that can be opened under the enriched file's uri: whatever the outcome, no request about another file precedes its acknowledged open, and the enriched file is never opened |
| JoinExactness.AliasOfHomeIsOpened | src/enrichment.rs:760-767 | a call on an entity of another file under the enriched file's uri opens the enriched file |
| JoinExactness.JoinIsDisciplinedIff | src/enrichment.rs:727-786 | whatever the server and the call, the join is disciplined, if and only if modules cannot be told or no other file of the index can be opened under the enriched file's uri |
| Sweep.EnrichFileDefinitions | src/file_enrichment.rs:113-315 | the gated loops compute the sweep function: relations, counters, first error and traffic |
| Sweep.SweepColumns | src/file_enrichment.rs:127-313 | the loop over a line's columns stops at the first error |
| Sweep.AskAtColumn | src/file_enrichment.rs:140-312 | one column: a member of a module receiver by the join, anything else by its definition |
| Sweep.PushEachMember | src/file_enrichment.rs:183-224 | module members are pushed once each, without self-edges, and counted when pushed |
| Sweep.PushEachDefinition | src/file_enrichment.rs:250-311 | definitions are counted each time and pushed once per tag, without self-edges |
| SourceLines.LinesAreRead | src/file_enrichment.rs:113 | a text is read as its lines, with either line end, and a last piece without one as it stands |
| SweepEvidence.ResolvedIsCounted | src/file_enrichment.rs:184-272 | `definitions_resolved` is the number of member relations plus, over the columns asked as plain identifiers on lines with a source, the answered locations that land on another entity, repeats included |
| SweepEvidence.RelationsAreEvident | src/file_enrichment.rs:183-311 | every relation leaves the innermost entity of its line; a definition's target is named by the answer at the very column recorded; a member's relation records the member's column, its receiver names a module, and its target is an export of that name, a proven one where aliases agree |
| SweepEvidence.ColumnIsAskedOnceOrTwice | src/file_enrichment.rs:140-249 | where no module is joined an identifier costs one request, and the receiver of a member expression the same request twice |
| SweepEvidence.RelationsAreInOrder | src/file_enrichment.rs:113-311 | relations stand in the order of the lines and columns they record, as long as line numbers do not wrap |
| SweepTheorems.GateIsInvisible | src/file_enrichment.rs:113-125 | unless the gate can show: whenever asking about every identifier succeeds, the gated pass succeeds with equal relations, order and counters, on a subsequence of the requests |
| SweepTheorems.UniformPathsHideGate | src/file_enrichment.rs:113-125 | in an index of relative paths, as in one of absolute paths, it cannot |
| SweepExactness.GateShows | src/file_enrichment.rs:113-125 | the failing pass: a line without a source names an entity of a file that can be opened, a later one with a source an entity of another file under that uri that cannot; asking about every identifier relates the source to the latter, the gated pass does not |
| SweepExactness.GateShowsOnMixedPaths | src/file_enrichment.rs:113-125 | an index with one file as `a.rs` and as `/w/a.rs`, with text for the first only, on which the gate shows |
| SweepExactness.GateIsInvisibleIff | src/file_enrichment.rs:113-125 | whatever the server and the text the gate cannot be told from the outcome, if and only if not all of these hold: both capabilities, a path, a line without a source, and two such entities that members can name with a line whose source is not the second |
| SweepTheorems.SweepIsDisciplined | src/file_enrichment.rs:86-315 | unless the enriched file's uri can be opened for another file: over a whole pass, successful or not, no request about another file precedes its acknowledged open, the enriched file is never opened, and no file is opened twice |
| SweepExactness.HomeIsOpened | src/file_enrichment.rs:86-315 | the failing pass: a line that is not skipped names an entity of another file under the enriched file's uri |
| SweepExactness.SweepIsDisciplinedIff | src/file_enrichment.rs:86-315 | whatever the server and the text the traffic is disciplined, if and only if nothing a member can name lies in such a file that can be opened, or the pass never gets to look for it |
| SweepTheorems.EdgesAreGrounded | src/file_enrichment.rs:170-312 | relations and distinct edges seen correspond one to one; each leaves the innermost entity of its line from a reported column, and none is a self-edge |
| SweepMeaning.SeenIsWhatIsOwed | src/file_enrichment.rs:113-315 | a successful pass has seen every edge the server's answers owe the file, said without loops or order: definitions that meet an entity, and proven exports of module members; where files under one uri can be opened together or not at all, it has seen no other |
| SweepMeaning.BindingsMeaning | src/enrichment.rs:727-786 | the join returns the id of every export it can prove, and where aliases agree no other |
| SweepMeaning.NamesModuleIff | src/enrichment.rs:523-535 | a receiver names a module exactly when some definition is a file whose path is no suffix of the enriched one, nor the other way round |
| SweepMeaning.QueriedCountsIdentifiers | src/file_enrichment.rs:113-125 | `positions_queried` is the number of identifiers of the whole file, gated or not |
| SweepExactness.QueriedIsAskedIff | src/file_enrichment.rs:113-127 | a successful pass asks about every identifier of a line with a source, and `positions_queried` is their number if and only if no line without a source has one |
| SweepExactness.CountedButNotAsked | src/file_enrichment.rs:113-125 | a file without sources and with two words: two are counted, nothing is asked |
| SweepMeaning.UnownedFileIsSilent | src/file_enrichment.rs:118-125 | a file whose lines no entity holds sends nothing and succeeds, even if every request would fail |
| ProofRecording.ProofRecorder.constructor | src/proof.rs:280-287 | a recorder with its required languages and an empty history |
| ProofRecording.ProofRecorder.Entry | src/proof.rs:289-296 | the first entry of the language, added only if there is none |
| ProofRecording.ProofRecorder.RecordProbe | src/proof.rs:304-312 | a probe replaces provider, version and capabilities of its language only |
| ProofRecording.ProofRecorder.RecordGap | src/proof.rs:315-322 | the gap is appended with the right flag, the recorder stays where its history leads, and for a required language the gate refuses whatever follows |
| ProofRecording.ProofRecorder.FileAttempted | src/proof.rs:325-327 | counts one attempt for its language |
| ProofRecording.ProofRecorder.FileEnriched | src/proof.rs:330-334 | counts one success and its relations |
| ProofRecording.ProofRecorder.FileFailed | src/proof.rs:338-350 | counts one failure and keeps its detail; for a required language the gate refuses whatever follows |
| ProofRecording.ProofRecorder.FinishRecording | src/proof.rs:354-366 | nothing is lost or invented, each language's gaps keep their order, the form is sorted with one entry per language and no required language twice, gaps are flagged rightly, and the gate passes exactly when the recorder's history is citable |
| Recorder.VerifyCitable | src/proof.rs:188-237 | the loop collects every violation in order, and is Ok exactly when there is none |
| RecorderTheorems.RunTells | src/proof.rs:289-350 | after any run each language has at most one record, and record and gaps are what its own events give |
| RecorderTheorems.InterleavingIsInvisible | src/proof.rs:289-366 | recordings that agree language by language, and on the set of required languages, finish into equal proofs |
| RecorderTheorems.EntriesAreUnique | src/proof.rs:289-296 | a finished proof has at most one entry per language |
| RecorderTheorems.FinishedRecordIsFaithful | src/proof.rs:304-350 | a language has a record exactly when it was mentioned other than by a gap; it counts that language's events, keeps every failure in order and carries the last probe |
| RecorderTheorems.ReportMeaning | src/proof.rs:188-230 | what each reported violation means, and that none goes unreported |
| RecorderTheorems.LexIff | src/proof.rs:354-358 | slugs are ordered by prefix, or by the smaller character at the first difference |
| RecorderTheorems.GateIsExactIff | src/proof.rs:188-237 | on any record, the gate's verdict is right if and only if the record does not fool it: some required language has a gap, while none has a flagged one and each is properly enriched or has only gaps |
| RecorderTheorems.GateIsExact | src/proof.rs:188-237 | rightly flagged records never fool it: the gate passes exactly when every required language has no gap, a provider, the capability floor and no failed file |
| RecorderTheorems.UnflaggedGapPasses | src/proof.rs:192-212 | a record that fools it: an unflagged gap of a required language and nothing else |
| RecorderTheorems.RecorderFlags | src/proof.rs:315-322 | a recorder flags a gap exactly when its language is required |
| RecorderTheorems.RecordedGateIsExact | src/proof.rs:188-237 | for any recording the gate passes exactly when each required language has no gap event, no failed file and a last probe that meets the floor |
| RecorderTheorems.RefusalIsFinal | src/proof.rs:188-237 | after a gap or failed file of a required language every continuation is refused |
| RecorderTheorems.TotalIsConserved | src/proof.rs:175-177 | the proof's total of relations is the sum over the calls |
| RecorderTheorems.HasFailuresMeaning | src/proof.rs:180-182 | a finished recording shows a failure exactly when a gap or failed file was recorded |
| Provenance.SlugRoundTrip | src/registry.rs:60-75 | a capability's slug parses back to it, and nothing else does |
| Provenance.FromRelationEvidence | src/registry.rs:739-760 | the parsing loop computes the decoding function, rejections included |
| Provenance.DecodeMeaning | src/registry.rs:739-760 | a record decodes exactly when the tag comes first, every other part has an equals sign, a provider is named and the last capability named is known; the last part with a key wins |
| Provenance.RoundTripIff | src/registry.rs:724-760 | decoding an encoded provenance returns it if and only if its provider id has no semicolon |
| Provenance.DecodedIsStable | src/registry.rs:724-760 | whatever decodes, from any record, is encoded and decoded back unchanged |
| Provenance.DecodedHasPrefix | src/registry.rs:763-768 | every record that decodes passes the prefix check |
| Provenance.PrefixIff | src/registry.rs:763-768 | the prefix check passes exactly the rules that begin with the tag |
| Provenance.PrefixIsNotEnough | src/registry.rs:763-768 | and not the other way round |

## Left out

Of the client:

- JSON text and serde: a body is opaque bytes with a tag saying what it is, a reply a decoded value. A body that does not parse is one of the ways the reader stops.
- Frames with an integer id are taken to be replies (section 5 of the JSON-RPC 2.0 specification); the reader looks at nothing but the id.
- Request ids are unbounded integers; the wrap-around of the 64-bit counter is not modelled.
- Time: the reply wait's timeout is a step that may happen at any moment. Permit and acknowledgment waits have none, as in the source.
- Scheduling fairness: progress is stated as runs of the writer's and the holder's steps that exist and are bounded by a measure.
- The write slot's queue of waiting callers is unordered: any waiter may be granted the permit.
- JsonRpc.JsonRpcClient.WriterTask: runs without interference until the queue is empty, where the source would wait for more; interleavings with callers are in module Client.
- One document scope at a time, and other callers do not name its documents.
- Dropping the client, starting the server, the initialize handshake and its shutdown.
- Allocating a body buffer of whatever length the header claims.
- The stderr tail of `src/lifecycle.rs` and the cache of `src/cache.rs`, which would only add easy members.

Of the sweep:

- Unicode classification: letters, alphanumerics and white space are predicates of which only this is used: letters are alphanumeric, and quote, dot and backslash are not. The failing passes of SweepExactness also use that no letter or digit is white space, a line end, a slash or an asterisk, and that an underscore is not white space.
- Columns are character indexes without a bound; their cast to 32 bits and UTF-16 columns are not modelled. Line numbers are cast.
- Paths are strings: component normalisation, `strip_prefix` and lossy conversion are not modelled, a pass is given its uri and relative path.
- The call-hierarchy phase and the final close of the pass: both are the same with and without the gate. Module Cleanup has the close.
- Whether a didOpen is acknowledged is an oracle of the sweep; what an acknowledgment is worth on the wire is said by ClientDocuments.
- Relation ids, which hash the edge, confidence, which the evidence rule fixes, and the log lines.
- The `UsesType`, `Overrides`, `References` and `Calls` passes, `find_by_name`, and the other request shapes.

Of the recorder and the registry:

- Counters are unbounded naturals, where the source has 64 bits.
- A language is its slug; `LanguageId` belongs to another crate, and that its slugs differ is taken for granted.
- A gap's reason is its text. `summary` and display text.
- Provider tables, resolution, overrides and version probing; the other fields of an evidence record; stamping provenance onto relations.
