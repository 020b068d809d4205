# A model of the app server, the patch engine and the schema tools

This project models the parts of the repository whose behaviour is hardest to see from the code, and proves what they
are there to guarantee.

**The app server** (`Protocol`, `Server`, `Server*`, `Transport`, `Approvals`). Several client connections share one
processor task and one outbound router task, joined by bounded queues. `Server` is a labelled transition system: its
steps are the await-to-await sections of the tasks (open, receive, end of input, announce close, writer drain and
close, take event, act, register, drain wait, request close, purge, background emission, router control, router poll
and wake, router rewrite, router write, router flush, router stop). The router looks at the control queue and at the
outgoing queue in two steps, and holds one rewritten envelope between rewrite and write. Theorems about all runs are
in `ServerTheorems`, `ServerGuarantees`, `ServerEffects`, `ServerProgress` and `ServerStops`; they rest on one inductive
invariant, proved step by step in `ServerInvariants`, `ServerShutdown`, `ServerEarly` and `ServerIntake`, and on a second
one over it, proved in `ServerReplies`, `ServerSessions` and `ServerHolding`. `ServerEffects` says what reaches whom
without naming the functions that compute it: the reply a client gets is the one that was sent, a session is what its
own `initialize` asked for, a broadcast reaches exactly the connections that should have it. `Transport` holds the
operations that work in place (channels, the reader's enqueue, the router's connection map, the route table) and
proves that they are the steps of the transition system. `Approvals` is the callback table for server-to-client
requests and the decisions made from it.

**The patch engine** (`Text`, `Sorting`, `SeekSequence`, `Replacements`, `PlanMeaning`, `EditSafety`, `FileUpdate`,
`PatchParser`, `PatchRoundTrip`, `PatchText`, `PatchPrinting`, `PatchSource`, `PatchApply`, `PatchPreview`, `PatchPreviewTexts`,
`PatchPreviewExact`). The loops of the source are methods proved against functions; the main results are about those
functions: the search result, what a planned edit means, when edits are disjoint, what the backwards applier computes,
line endings, the language the parser accepts and its round trip, and agreement of preview and application. The parser is written over the questions it asks of a single
line (`Grammar`) and of the next chunk or hunk, so that the round trip is proved for every grammar and printer that
fit together and then for the real ones.

**Trees and generated text** (`ConfigEdits`, `TopLevelSplit`, `CanonicalJson`, `VariantTitles`). Path laws of config
edits and deep merge, stability of top-level splitting, canonical JSON, and fresh titles.

Where code and comments differ, the model follows the code:
- An end-of-file search looks only at the last possible position and ignores the cursor; its comment promises a
  search from there on (`code-rs/apply-patch/src/seek_sequence.rs:29-33`).
- A pure addition goes in front of a final empty line (`code-rs/apply-patch/src/lib.rs:837-851`).
- Both can make edits overlap. `EditSafety.EofCollision` and `EditSafety.TailCollision` give inputs,
  `EditSafety.ReplacementsDisjointIff` says exactly when it happens, chunk by chunk, and `EditSafety.ClearUpdatesSplice`
  names a simpler guard.

Where a property one would expect fails, the model says when it holds:
- With stdio, shutdown is meant to lose no pending reply (`code-rs/app-server/src/lib.rs:269-281`). The two looks of
  `select!` at its queues are not atomic, so the router can take a reply before it has been told of the reply's owner,
  and drops it. `ServerLostReply.FirstReplyCanBeLost` is such a run;
  `ServerGuarantees.StdioShutdownLosesOnlyEarlyReplies` shows that these are exactly the replies lost, and
  `ServerGuarantees.HeardMeansTold` that it cannot happen to a client that has heard from the server.
- A preview can disagree with application when hunks share paths; `PatchPreviewExact.TruthfulIff` has the exact
  condition on the paths and kinds of the hunks of a whole patch.
- Deep merge is not associative; `ConfigEdits.MergeAssociativeIff` has the exact condition.
- A move onto the same path loses the file; `PatchApply.UpdateLandsIff`.
- Some parse errors are off by one line; `PatchText.ChunkErrorPosition`.
- An update that changes nothing can still change the file: an empty last line is lost
  (`code-rs/apply-patch/src/lib.rs:767-804`); `FileUpdate.UnchangedIff` has the exact condition.

## Model

| member | source | states |
|---|---|---|
| `Protocol.InternalIdInjective` | code-rs/app-server/src/lib.rs:314-318 | two internal ids are equal only for the same connection and the same ordinal, as strings with decimal numbers |
| `Protocol.KeyIsInternal` | code-rs/app-server/src/lib.rs:441-443 | every id the server hands out is recognised as internal, so a stray reply under it is dropped and not broadcast |
| `Protocol.RewriteLaw` | code-rs/app-server/src/lib.rs:378-439 | what becomes of any envelope: the reply to a routed request leaves as the same kind of reply with the same body, addressed to the request's owner under the owner's id, and uses up that route alone; a reply under a reserved id without a route vanishes; all else passes as it is |
| `Transport.RequestRoutes.Accept` | code-rs/app-server/src/lib.rs:313-329 | the request is renamed to the internal id of its connection and ordinal, its route recorded under that id, and the counter advanced |
| `Transport.RequestRoutes.RewriteResponseRouting` | code-rs/app-server/src/lib.rs:378-439 | the envelope that leaves and the table left behind are those of the transition system's `Rewrite`: a routed reply becomes a message to its owner under the original id, an unrouted internal one vanishes, all else passes |
| `Transport.RequestRoutes.RemoveForConnection` | code-rs/app-server/src/lib.rs:445-451 | no route of the connection remains and every other route does |
| `Transport.Channel.TrySend` | code-rs/app-server/src/transport.rs:408-447 | sent, full or closed exactly as the buffer and receiver say; the buffer grows only when sent |
| `Transport.EnqueueIncomingMessage` | code-rs/app-server/src/transport.rs:408-447 | queued, refused with one overload error, dropped or lost exactly as the transition system's `Fate`; only a non-request waits; nothing else changes |
| `Transport.OutboundRouter.WriteFailed` | code-rs/app-server/src/transport.rs:530-553 | the write fails exactly for a closed writer or a full websocket writer, and otherwise appends one entry |
| `Transport.OutboundRouter.WriteEach` | code-rs/app-server/src/transport.rs:477-528 | all targets are written once in any order; the returned list is, without repetition, exactly the failing targets, and exactly those leave the map |
| `Transport.OutboundRouter.RouteOutgoingEnvelope` | code-rs/app-server/src/transport.rs:477-528 | the router waits exactly when a target's stdio writer is full; otherwise the call is the transition system's write step |
| `Transport.OutboundRouter.ForwardNotices` | code-rs/app-server/src/lib.rs:198-212 | a prefix of the backlog becomes closing events in order, the rest stays, and it stops only when empty, full or closed |
| `ServerInvariants.AccountAccept` | code-rs/app-server/src/lib.rs:313-329 | accepting a request keeps every accepted request in exactly one of routed, rewritten, purged |
| `ServerInvariants.AccountRewrite` | code-rs/app-server/src/lib.rs:378-439 | taking a routed reply out moves exactly its request from routed to rewritten |
| `ServerInvariants.AccountPurge` | code-rs/app-server/src/lib.rs:445-451 | a purge moves exactly the closed connection's routed requests to purged |
| `ServerTheorems.InvKept` | code-rs/app-server/src/lib.rs:150-360 | no step of any task, in any interleaving, breaks the eleven invariants (life cycle, routing, gate, capacity, holding, news, early replies, silence, stdio, intake, notices); the router looks at the control queue and at the outgoing queue in two separate steps |
| `ServerTheorems.RunKeepsInv` | code-rs/app-server/src/lib.rs:150-360 | every run from an invariant state ends in one |
| `ServerTheorems.ReachableInv` | code-rs/app-server/src/lib.rs:150-360 | every state any run of a fresh server reaches satisfies all eleven invariants |
| `ServerGuarantees.RepliesReachTheirOwner` | code-rs/app-server/src/lib.rs:307-343 | in every run: each reply in a writer queue is an overload refusal or answers that connection's own request under the client's id; no request is answered twice; no reply is broadcast |
| `ServerEffects.ReplyIsTheOneSent` | code-rs/app-server/src/lib.rs:378-439 | in every run each reply in a writer queue is the first reply sent under the internal id of its request, success or failure and body unchanged, with the id the client chose |
| `ServerGuarantees.RequestsConserved` | code-rs/app-server/src/lib.rs:378-451 | in every run: accepted = routed + rewritten + purged as counts, and each accepted request is in exactly one of the three |
| `ServerGuarantees.ClosedForGood` | code-rs/app-server/src/lib.rs:268-302 | once a close has purged a connection no continuation of the run routes a request of it again, even if it is closed twice |
| `ServerGuarantees.StdioShutdownLosesOnlyEarlyReplies` | code-rs/app-server/src/lib.rs:154-195 | in every stdio run, once the router has let a connection go or stopped: unless that writer is closed, the reply to each accepted request has been put in the writer queue under the client's id if and only if the router did not take it while the news of the connection was still in the control queue |
| `ServerGuarantees.EarlyIsLost` | code-rs/app-server/src/lib.rs:183-195 | in every run of either mode a reply taken that early never reaches a queue |
| `ServerGuarantees.ToldForGood` | code-rs/app-server/src/lib.rs:154-182 | once the router has been told of a connection it stays told, and no later step of any run takes a reply to it early |
| `ServerGuarantees.HeardMeansTold` | code-rs/app-server/src/lib.rs:154-195 | what a client can see: once it has been sent anything but an overload refusal, no later reply to it is taken early |
| `ServerEarly.EarlyExactly` | code-rs/app-server/src/lib.rs:154-195 | a reply counts as early exactly when some step of the run took it off the outgoing queue while its owner's opening was still in the control queue |
| `ServerLostReply.FirstReplyCanBeLost` | code-rs/app-server/src/lib.rs:154-195 | such a run exists: the first request of a healthy stdio connection is answered, nothing of the reply is routed or queued any more, and the open writer was never written to |
| `ServerGuarantees.NoticesInOrder` | code-rs/app-server/src/lib.rs:192-212 | in every run the failures seen are the notices sent followed by the backlog, and the notices sent are, in that order, among the closing events ever queued: none lost, none reordered |
| `ServerGuarantees.NoHandlerBeforeInitialize` | code-rs/app-server/src/message_processor.rs:117-219 | in every run, until a connection's initialize succeeds no handler runs for its requests: replacing the handler by any other leaves the step's result the same |
| `ServerGuarantees.GateHolds` | code-rs/app-server/src/message_processor.rs:117-219 | in every run: before its initialize succeeds a connection is only sent replies to its own requests and overload errors; initialize succeeds at most once per connection; flags shared with the router equal the session; only initialised connections listen |
| `ServerEffects.HandlerRuns` | code-rs/app-server/src/message_processor.rs:194-210 | in every run, once a connection's initialize has succeeded its ordinary request suspends the processor on exactly its handler |
| `ServerEffects.GateAnswers` | code-rs/app-server/src/message_processor.rs:117-219 | in every run an early request, a second initialize and an invalid request each get exactly one error, with its own text, under their own key |
| `ServerEffects.FirstInitialize` | code-rs/app-server/src/message_processor.rs:117-199 | in every run a first initialize gets exactly one success reply under its key, after which only warnings to that connection follow |
| `ServerEffects.ActionsTakeEffect` | code-rs/app-server/src/message_processor.rs:117-219 | what a handler sends is queued behind everything else, a subscription adds its own connection to the listeners, and nothing else touches either |
| `ServerEffects.SessionAsRequested` | code-rs/app-server/src/message_processor.rs:117-199 | in every run an idle processor's session is initialised exactly if an initialize of that connection has been taken, with the opt-outs the first one listed, and the router sees the same |
| `ServerGuarantees.IntakeFaithful` | code-rs/app-server/src/transport.rs:391-447 | in every run: what was queued for a connection is what its reader decoded and the queue accepted, in order; overload errors answer exactly the refused requests, in order; other messages are never refused or dropped while the processor lives; no queue exceeds its capacity |
| `ServerEffects.LossEndsReading` | code-rs/app-server/src/transport.rs:391-447 | in every run a message that found its channel closed is the last one read of its connection |
| `ServerGuarantees.WriteEffect` | code-rs/app-server/src/transport.rs:477-528 | one write appends exactly one copy to each target that can take it and to nobody else; exactly the failures leave the map |
| `ServerEffects.BroadcastReaches` | code-rs/app-server/src/transport.rs:460-528 | in every run a broadcast is appended once to each connection the router holds whose initialize succeeded, did not list the notification's verb and whose writer accepts, and to no other; exactly those meant that are closed, or full on a websocket, are disconnected; what is no notification is never skipped |
| `ServerEffects.AddressedReaches` | code-rs/app-server/src/transport.rs:477-502 | in every run an addressed message is appended once to its own connection, if the router holds it and did not opt out of it, and to no other |
| `ServerEffects.HeldExactly` | code-rs/app-server/src/lib.rs:154-182 | in every run the control queue leads the router to exactly the connections that are registered and neither closed nor failed |
| `ServerEffects.WebSocketStaysUp` | code-rs/app-server/src/lib.rs:268-302 | a websocket server never waits for replies at a close and never exits |
| `ServerEffects.GoodbyeIsSaid` | code-rs/app-server/src/transport.rs:293-390 | in every run a connection whose reader is gone has announced its close to the processor, unless that had exited |
| `ServerGuarantees.SlowPeerIsIsolated` | code-rs/app-server/src/transport.rs:530-553 | replacing one peer's writer by any other changes neither what another connection receives nor whether it is disconnected |
| `ServerProgress.NoMutualWait` | code-rs/app-server/src/lib.rs:150-215 | in no reachable state do processor and router wait on each other: when the processor waits for room or for answered routes, a router or stdout-writer step is enabled |
| `ServerProgress.ServiceRunBounded` | code-rs/app-server/src/lib.rs:150-215 | router and stdout-writer steps alone cannot go on for ever: such a run is no longer than a rank of its first state |
| `ServerProgress.EveryWaitEnds` | code-rs/app-server/src/lib.rs:150-215 | in every run, whatever router and stdout writer do on their own is bounded, and when they can do no more the processor's wait is over (for the route-drain wait: if the awaited replies are queued) |
| `ServerProgress.DrainWaitEndsIff` | code-rs/app-server/src/lib.rs:453-471 | in every run router and stdout writer end the route-drain wait by themselves if and only if every awaited reply is queued |
| `ServerStops.ShutdownCompletes` | code-rs/app-server/src/lib.rs:268-302 | from every reachable stdio state in which the end of input is announced and every routed request has its reply queued or about to be, processor, router and stdout writer can bring the server to a stop by themselves, within a number of steps read off the state |
| `Approvals.OutgoingMessageSender.SendRequest` | code-rs/app-server/src/outgoing_message.rs:94-114 | the id is fresh and the callback is recorded with its owner before the envelope is queued |
| `Approvals.OutgoingMessageSender.WithdrawRequest` | code-rs/app-server/src/outgoing_message.rs:130-134 | if the envelope cannot be queued the callback is withdrawn and its task cancelled, unless it was settled meanwhile |
| `Approvals.OutgoingMessageSender.NotifyClientResponse` | code-rs/app-server/src/outgoing_message.rs:144-181 | an answer settles the callback exactly when it comes from the owner or is unscoped; otherwise nothing changes |
| `Approvals.OutgoingMessageSender.NotifyClientError` | code-rs/app-server/src/outgoing_message.rs:187-222 | the same for an error, which cancels the waiting task |
| `Approvals.OutgoingMessageSender.ClearCallbacks` | code-rs/app-server/src/outgoing_message.rs:224-231 | right after the clear no callback of the connection exists, and all others are untouched |
| `Approvals.TableTellsEachStory` | code-rs/app-server/src/outgoing_message.rs:94-231 | over every run the shared table says about each request exactly what that request's own history says: requests do not influence one another |
| `Approvals.StoryHasCause` | code-rs/app-server/src/outgoing_message.rs:144-181 | an answered request was first asked of some connection and then answered by that very connection |
| `Approvals.SettledForGood` | code-rs/app-server/src/outgoing_message.rs:144-222 | a settled request never changes its outcome, so its task submits one decision |
| `Approvals.ApprovalsFailClosed` | code-rs/app-server/src/code_message_processor.rs:1832-1892 | over every run an approving decision is submitted only if a connection was asked and, after that, this very connection answered that request with an approving decision; errors, strangers, disconnects and malformed answers never approve |
| `Approvals.OwnerDecides` | code-rs/app-server/src/code_message_processor.rs:1669-1709 | conversely the owner's answer to an open request is what is submitted, and it approves exactly when the answer does |
| `Approvals.DecisionIsTheOwners` | code-rs/app-server/src/code_message_processor.rs:1832-1892 | over every run, for every settled request: a session-wide grant is submitted if and only if the owner answered so while the request was open, a single approval if and only if it approved or amended the policy, an abort if and only if it aborted, and a denial in every other case |
| `Approvals.SettledUnlessForeign` | code-rs/app-server/src/outgoing_message.rs:144-222 | everyone but a connection known not to be the owner settles a callback, and settling touches that callback alone |
| `Approvals.ForeignWordsIgnored` | code-rs/app-server/src/outgoing_message.rs:144-222 | an answer or error from another connection leaves the whole table as it was |
| `SeekSequence.MatchesWiden` | code-rs/apply-patch/src/seek_sequence.rs:34-107 | exact implies right-trimmed implies trimmed implies normalised, at every position |
| `SeekSequence.NormaliseExactly` | code-rs/apply-patch/src/seek_sequence.rs:76-94 | exactly which characters count as a dash, a single quote, a double quote or a space; every other stands for itself |
| `SeekSequence.StrictLevels` | code-rs/apply-patch/src/seek_sequence.rs:34-52 | the first comparison is equality, the second equality up to whitespace at the end |
| `SeekSequence.LenientLevels` | code-rs/apply-patch/src/seek_sequence.rs:53-107 | the third is equality of what whitespace at both ends leaves, the fourth that equality character by normalised character |
| `SeekSequence.Scan` | code-rs/apply-patch/src/seek_sequence.rs:40-52 | one search loop returns the leftmost match of its comparison from a position on |
| `SeekSequence.SeekLines` | code-rs/apply-patch/src/seek_sequence.rs:12-110 | the four loops with their early exits compute `Seek` |
| `SeekSequence.SeekIsLeftmostStrictest` | code-rs/apply-patch/src/seek_sequence.rs:12-110 | for a non-empty pattern: the leftmost position in range at the strictest level that matches anywhere in range, and no result exactly when nothing matches even normalised |
| `SeekSequence.EofIgnoresStart` | code-rs/apply-patch/src/seek_sequence.rs:29-33 | an end-of-file search succeeds only where the pattern ends with the file, whatever the start |
| `Replacements.LocateLines` | code-rs/apply-patch/src/lib.rs:865-907 | the search with its retry without a final empty line computes `Locate` |
| `Replacements.PlanChunk` | code-rs/apply-patch/src/lib.rs:817-908 | context search, pure addition and replacement compute the chunk's edit and the next cursor |
| `Replacements.ComputeReplacements` | code-rs/apply-patch/src/lib.rs:809-913 | the loop over the chunks computes `Compute`, errors included |
| `PlanMeaning.PlanMeans` | code-rs/apply-patch/src/lib.rs:817-908 | planning a chunk in terms of matching lines only: it fails for its context exactly when that line matches nowhere from the cursor; otherwise the old lines are sought behind the best match of the context, the edit is their best match from there, its new lines are the chunk's own less one carriage return each, and only the retry without a final empty line drops one |
| `PlanMeaning.StripCleans` | code-rs/apply-patch/src/lib.rs:761-763 | every line loses one carriage return at its end and nothing else |
| `Sorting.SortPermutes` | code-rs/apply-patch/src/lib.rs:910-910 | sorting neither loses nor invents an element |
| `Replacements.SortCorrect` | code-rs/apply-patch/src/lib.rs:910-910 | the list is sorted by start, and is disjoint exactly when the planned edits are pairwise apart |
| `EditSafety.PlanOneShape` | code-rs/apply-patch/src/lib.rs:817-908 | where one chunk's edit can lie relative to the cursor and the end of the file; the cursor never moves back |
| `EditSafety.PlanShape` | code-rs/apply-patch/src/lib.rs:809-913 | every planned edit is in bounds, and one found from the cursor lies behind every replacement planned before it |
| `EditSafety.ReplacementsDisjointIff` | code-rs/apply-patch/src/lib.rs:809-913 | the edits are always sorted, in bounds and a permutation of the planned ones; they are disjoint if and only if, walking the chunks with the cursor, each fits: an end-of-file chunk starts behind the lines replaced so far, an addition meets a final empty line that still stands, and after such an addition only that line is removed |
| `EditSafety.EofCollision` | code-rs/apply-patch/src/seek_sequence.rs:29-33 | a two-chunk patch whose end-of-file chunk overlaps the chunk before it |
| `EditSafety.TailCollision` | code-rs/apply-patch/src/lib.rs:837-851 | a two-chunk patch whose addition is swallowed by the replacement of the final empty line |
| `EditSafety.ReplaceInPlace` | code-rs/apply-patch/src/lib.rs:917-941 | removing line by line and inserting line by line is one replacement |
| `EditSafety.ApplyReplacements` | code-rs/apply-patch/src/lib.rs:917-941 | the backwards in-place loop computes `ApplyBackwards` |
| `EditSafety.ComputedIsApplicable` | code-rs/apply-patch/src/lib.rs:809-941 | whatever was planned, overlapping or not, applying it never indexes out of range |
| `EditSafety.ApplierRefinesSplice` | code-rs/apply-patch/src/lib.rs:917-941 | for disjoint edits the backwards in-place applier equals the left-to-right splice, and length = original - removed + inserted |
| `EditSafety.UntouchedLinesKept` | code-rs/apply-patch/src/lib.rs:917-941 | every line outside the edits is kept, moved by exactly what the edits in front of it add and remove |
| `EditSafety.SafeUpdatesSplice` | code-rs/apply-patch/src/lib.rs:809-941 | whenever every chunk fits, planning and applying is the left-to-right splice of disjoint edits |
| `EditSafety.ClearUpdatesSplice` | code-rs/apply-patch/src/lib.rs:809-941 | in particular when every end-of-file chunk has room for its old lines behind the cursor and no addition meets a file that ends in an empty line |
| `FileUpdate.DeriveNewContents` | code-rs/apply-patch/src/lib.rs:767-804 | the steps compute `NewContents`, errors included |
| `FileUpdate.CrLfPreserved` | code-rs/apply-patch/src/lib.rs:744-804 | for a file containing CRLF: every LF of the result follows a CR, the text is empty or ends in CRLF, and splitting it and stripping one CR per line gives the planned lines |
| `FileUpdate.LfPreserved` | code-rs/apply-patch/src/lib.rs:744-804 | for any other file: splitting the result at LF gives exactly the planned lines, and the text is empty or ends in LF |
| `FileUpdate.UnchangedIff` | code-rs/apply-patch/src/lib.rs:767-804 | an update without chunks gives back a file of terminated lines if and only if its last line is not empty, with either line ending; an empty last line is lost |
| `FileUpdate.LastLineTerminated` | code-rs/apply-patch/src/lib.rs:767-804 | a last line without terminator gets one |
| `PatchParser.ParseUpdateFileChunk` | code-rs/apply-patch/src/parser.rs:340-431 | the chunk parser computes `ParseChunk`: the chunk, the lines taken, or the error with its line |
| `PatchParser.ParseBodyLines` | code-rs/apply-patch/src/parser.rs:378-428 | the diff-line loop collects old and new lines and stops at the marker or the first other line |
| `PatchParser.ParseAddedLines` | code-rs/apply-patch/src/parser.rs:250-260 | the loop collects exactly the leading added lines, each with a line feed |
| `PatchParser.ParseUpdateChunks` | code-rs/apply-patch/src/parser.rs:291-313 | the chunk loop, which skips blank lines and stops at a marker, computes `ParseChunks` |
| `PatchParser.ParseOneHunk` | code-rs/apply-patch/src/parser.rs:245-338 | one hunk, the lines it takes, or its error |
| `PatchParser.ParseBody` | code-rs/apply-patch/src/parser.rs:154-183 | the hunk loop, with its running line number, computes `ParseHunks` |
| `PatchParser.ParsePatch` | code-rs/apply-patch/src/parser.rs:154-243 | boundary checks with the lenient heredoc fallback, then the body from line 2 |
| `PatchRoundTrip.BodyRound` | code-rs/apply-patch/src/parser.rs:378-428 | the diff lines of a chunk parse back to their old and new lines, whatever follows |
| `PatchRoundTrip.ChunksRound` | code-rs/apply-patch/src/parser.rs:291-313 | the chunks of a well-formed update parse back and take exactly their own lines |
| `PatchRoundTrip.HunksRound` | code-rs/apply-patch/src/parser.rs:154-183 | for every grammar that recognises what its printer writes, the printed hunk list parses back to the list |
| `PatchText.GrammarReadsPrinter` | code-rs/apply-patch/src/parser.rs:31-44 | the patch grammar recognises each kind of printed line as that kind and no other |
| `PatchText.LinesRoundTrip` | code-rs/apply-patch/src/parser.rs:154-183 | any spelling of a well-formed hunk list parses to exactly that list, in strict and lenient mode |
| `PatchText.TextRoundTrip` | code-rs/apply-patch/src/parser.rs:154-431 | the same on text: printing and parsing a well-formed hunk list gives it back |
| `PatchText.CrLfRoundTrip` | code-rs/apply-patch/src/parser.rs:154-183 | the same for text whose lines end in carriage return and line feed |
| `PatchText.FrameMeans` | code-rs/apply-patch/src/parser.rs:185-243 | which lines are the patch: those between the two markers, in lenient mode also inside a heredoc; otherwise which error there is |
| `PatchText.HeredocParses` | code-rs/apply-patch/src/parser.rs:207-243 | any spelling of a well-formed hunk list inside a heredoc parses to that list in lenient mode and fails in strict mode |
| `PatchText.DiffLinesSpelled` | code-rs/apply-patch/src/parser.rs:395-416 | a line is kept, added or removed by its first character; an empty one is kept |
| `PatchSource.HeadIff` | code-rs/apply-patch/src/parser.rs:245-277 | a line is a hunk header exactly when it is one of the three marks and a path, with any whitespace around it |
| `PatchSource.LinesIff` | code-rs/apply-patch/src/parser.rs:31-44 | exactly which lines are a move line, an added line, a context line, the end-of-file marker, blank, or a marker |
| `PatchSource.DiffIff` | code-rs/apply-patch/src/parser.rs:395-416 | exactly which lines are diff lines, and what they contribute |
| `PatchSource.BodyParsesIff` | code-rs/apply-patch/src/parser.rs:245-431 | the parser accepts exactly its grammar: a body parses to a hunk list if and only if it is a legal source of that list (headers, move lines, blank lines between chunks, a first chunk without context, end-of-file markers) |
| `PatchSource.PatchParsesIff` | code-rs/apply-patch/src/parser.rs:154-431 | the same for whole patches with their markers and, in lenient mode, a heredoc |
| `PatchPrinting.SpelledHunk` | code-rs/apply-patch/src/parser.rs:245-338 | every hunk with terminated contents has a spelling that means exactly that hunk |
| `PatchPrinting.PrintThenParse` | code-rs/apply-patch/src/parser.rs:154-431 | printing any printable hunk list and parsing the text gives the same list back, in strict and lenient mode |
| `PatchText.SpansCover` | code-rs/apply-patch/src/parser.rs:166-176 | a successful parse takes every body line exactly once and at least one per hunk |
| `PatchText.ChunkErrorPosition` | code-rs/apply-patch/src/parser.rs:366-416 | an error about a chunk's first diff line gives its true position if and only if the chunk has a header; otherwise it is one too high |
| `PatchText.ErrorsAreTrue` | code-rs/apply-patch/src/parser.rs:245-431 | every error about a body has a cause of its kind at a place in the body, with position and text as the cause has them: a line that is no header, an update without chunks, a chunk without a needed context line, or a chunk without a first diff line |
| `PatchApply.FileSystem.Update` | code-rs/apply-patch/src/lib.rs:698-723 | an update or move is applied as one step, or fails and changes nothing |
| `PatchApply.FileSystem.ApplyHunksToFiles` | code-rs/apply-patch/src/lib.rs:671-731 | success has the effect of all hunks and lists the affected paths; failure at hunk k leaves exactly the effect of the first k; an empty list is an error |
| `PatchApply.AffectedExactly` | code-rs/apply-patch/src/lib.rs:671-731 | the report names each added path as added, each deleted as deleted, each updated file under its destination as modified, one entry per hunk and no others |
| `PatchPreview.PreviewAgrees` | code-rs/apply-patch/src/lib.rs:357-400 | if every hunk reads what the preview reads, and the changes the preview keeps are the last word on every touched path, the preview of the whole patch succeeds exactly when application does, with the same error, and announces exactly the resulting files |
| `PatchPreview.OutcomesAgree` | code-rs/apply-patch/src/lib.rs:357-400 | if every hunk reads what the preview reads, preview and application succeed alike and fail with the same error |
| `PatchPreview.SeparateIsTruthful` | code-rs/apply-patch/src/lib.rs:357-400 | patches that name pairwise distinct paths are among those |
| `PatchPreview.PreviewSays` | code-rs/apply-patch/src/lib.rs:357-400 | what the preview keeps for a path is the last hunk on it: the added contents, the contents deleted, or the rewritten text with its destination |
| `PatchPreviewExact.TruthfulIff` | code-rs/apply-patch/src/lib.rs:357-400 | the condition is exact for whole patches: the previews of all patches with these paths and kinds of hunks are truthful, for all contents, chunks and files, if and only if every hunk reads what the preview reads and the kept changes are the last word on every touched path |
| `PatchPreviewExact.SelfMoveThenAdd` | code-rs/apply-patch/src/lib.rs:357-400 | an instance: a later add makes good even a move onto the same path, so that patch previews truthfully although its first hunk alone does not |
| `PatchApply.AnnouncedOnce` | code-rs/apply-patch/src/lib.rs:357-400 | a change map announces at most one resulting file system |
| `PatchApply.OthersUntouched` | code-rs/apply-patch/src/lib.rs:671-731 | paths the patch does not name keep their contents |
| `PatchPreviewExact.AddThenDelete` | code-rs/apply-patch/src/lib.rs:357-400 | an instance: adding then deleting a path applies but does not preview |
| `PatchApply.SelfMoveDeletes` | code-rs/apply-patch/src/lib.rs:705-717 | a move onto the same path writes the file and then removes it |
| `PatchApply.UpdateLandsIff` | code-rs/apply-patch/src/lib.rs:698-723 | a successful update leaves its new text at its destination if and only if it does not move the file onto itself |
| `ConfigEdits.EditThenGet` | code-rs/app-server/src/message_processor.rs:796-878 | after an edit its path holds the value, or the merge of what was there with it |
| `ConfigEdits.ReplaceByItself` | code-rs/app-server/src/message_processor.rs:796-833 | writing back what a path holds changes nothing |
| `ConfigEdits.EditTwice` | code-rs/app-server/src/message_processor.rs:784-878 | two edits at one path act as one replacement by their combined outcome |
| `ConfigEdits.LastWriterWins` | code-rs/app-server/src/message_processor.rs:796-833 | of two replacements at one path only the second counts |
| `ConfigEdits.UpsertIdempotent` | code-rs/app-server/src/message_processor.rs:835-878 | upserting the same value twice is upserting it once |
| `ConfigEdits.IncomparableMeansNoPrefix` | code-rs/app-server/src/message_processor.rs:796-833 | two paths are incomparable exactly when neither is a prefix of the other |
| `ConfigEdits.EditElsewhere` | code-rs/app-server/src/message_processor.rs:784-878 | an edit leaves every incomparable path unchanged |
| `ConfigEdits.EditsCommute` | code-rs/app-server/src/message_processor.rs:784-878 | edits at incomparable paths commute, whatever their strategies |
| `ConfigEdits.MergeMeaning` | code-rs/app-server/src/message_processor.rs:880-895 | deep merge path by path: right and left merged where both say something, right where only it does, otherwise left unless a value on the right cuts the path off |
| `ConfigEdits.MergeIdempotent` | code-rs/app-server/src/message_processor.rs:880-895 | merging the same tree in twice is merging it once |
| `ConfigEdits.MergeAssociativeIff` | code-rs/app-server/src/message_processor.rs:880-895 | merging three trees can be bracketed either way if and only if no value between two tables hides something the last table does not override |
| `ConfigEdits.CoversIff` | code-rs/app-server/src/message_processor.rs:880-895 | a tree overrides another entirely, key by key, if and only if merging it in gives that tree itself |
| `ConfigEdits.MergeNotAssociative` | code-rs/app-server/src/message_processor.rs:880-895 | an instance: a scalar between two tables |
| `ConfigEdits.ConfigFile.ApplyConfigEdits` | code-rs/app-server/src/message_processor.rs:645-757 | which outcome there is, in both directions: a path that is not absolute is invalid and one that is not the user's own file is read-only; then an unreadable file is invalid, a stale version conflicts, a file that does not parse is invalid, an empty key path is not found, an unprintable result is invalid, and a missing directory is reported; any error leaves the file unchanged; success writes the result of all edits in order |
| `ConfigEdits.SegmentsOfPath` | code-rs/app-server/src/message_processor.rs:796-803 | segments joined with dots are read back as those segments |
| `ConfigEdits.PathlessIff` | code-rs/app-server/src/message_processor.rs:796-803 | a key path has no segment exactly when it is nothing but dots |
| `ConfigEdits.LastEditDecides` | code-rs/app-server/src/message_processor.rs:684-691 | of any list of edits the last one decides what is at its path: its value, or that merged into what the others left |
| `ConfigEdits.EditsLeaveOthers` | code-rs/app-server/src/message_processor.rs:684-691 | a list of edits leaves every path incomparable with all of them unchanged |
| `ConfigEdits.RootMeans` | code-rs/app-server/src/message_processor.rs:673-682 | a file of nothing but whitespace counts as an empty table |
| `TopLevelSplit.SplitTopLevel` | code-rs/app-server-protocol/src/export.rs:675-694 | the scanning loop computes `SplitTop` |
| `TopLevelSplit.SplitPointIsInitial` | code-rs/app-server-protocol/src/export.rs:797-858 | wherever the scanner reports top level it is in its initial state |
| `TopLevelSplit.BracketedIsOnePart` | code-rs/app-server-protocol/src/export.rs:797-858 | a bracketed text is one part whatever delimiters it holds at any depth, if its own brackets and quotes match |
| `TopLevelSplit.QuotedIsOnePart` | code-rs/app-server-protocol/src/export.rs:797-858 | a quoted text is one part whatever delimiters and brackets it holds, if neither its own quote nor a backslash is among them |
| `TopLevelSplit.EscapesProtect` | code-rs/app-server-protocol/src/export.rs:797-858 | a character behind a backslash never ends the literal |
| `TopLevelSplit.ResplitIsStable` | code-rs/app-server-protocol/src/export.rs:671-694 | splitting any part again gives that part alone |
| `TopLevelSplit.JoinThenSplit` | code-rs/app-server-protocol/src/export.rs:239-248 | parts that cannot be split, joined with the separator of either filter, split into exactly those parts |
| `TopLevelSplit.FilterUnionStable` | code-rs/app-server-protocol/src/export.rs:239-248 | the rewritten union has exactly the kept arms, no filtered arm is left, and filtering twice is filtering once |
| `TopLevelSplit.FilterFieldsStable` | code-rs/app-server-protocol/src/export.rs:296-305 | the same for the fields of an object type, split at commas and semicolons and joined with a comma |
| `CanonicalJson.CanonIdempotent` | code-rs/app-server-protocol/src/schema_fixtures.rs:94-150 | canonicalising twice is canonicalising once, on every JSON tree |
| `CanonicalJson.CanonObject` | code-rs/app-server-protocol/src/schema_fixtures.rs:136-150 | an object keeps its keys, in sorted order, each with the canonical form of its value |
| `CanonicalJson.CanonArray` | code-rs/app-server-protocol/src/schema_fixtures.rs:94-135 | an array keeps its elements, each in canonical form, with their multiplicity |
| `CanonicalJson.CanonLeaf` | code-rs/app-server-protocol/src/schema_fixtures.rs:147-149 | anything else is left as it is |
| `CanonicalJson.ObjectKey` | code-rs/app-server-protocol/src/schema_fixtures.rs:152-170 | an object with distinct keys is sorted by its reference, without one by its title, and has no sort key without either |
| `CanonicalJson.CanonKeepsKey` | code-rs/app-server-protocol/src/schema_fixtures.rs:152-170 | canonicalising an element changes neither whether it has a sort key nor which |
| `CanonicalJson.PermutationsAgree` | code-rs/app-server-protocol/src/schema_fixtures.rs:94-150 | if every element of an array has a sort key, every permutation of it has the same canonical form (for an injective serialiser) |
| `CanonicalJson.UnkeyedKeepsOrder` | code-rs/app-server-protocol/src/schema_fixtures.rs:118-123 | an array with an element without a sort key keeps its order |
| `VariantTitles.TriedCount` | code-rs/app-server-protocol/src/export.rs:1222-1227 | the candidate names are pairwise distinct, so k tries use up k names |
| `VariantTitles.FreshTitle` | code-rs/app-server-protocol/src/export.rs:1222-1227 | the search passes over at most as many taken candidates as there are seen titles, and stops at the first free one |
| `VariantTitles.AnnotateVariantList` | code-rs/app-server-protocol/src/export.rs:1205-1243 | existing titles stay; every generated title is a candidate for its variant and differs from every other title of the list |

## Left out

- Sockets, stdin and stdout, websocket framing and JSON encoding: messages are typed values in queues.
- Real time, sleeps and the 10 ms poll of the route-drain wait: they are steps that become enabled.
- The two task loops are steps of a transition system and not one class, because their interleaving is the point; the operations they perform in place are the methods of `Transport`.
- Taking an envelope off the outgoing queue and rewriting it are one step; in the source the route table's lock is awaited in between, during which the router looks at nothing else.
- Transport.EnqueueIncomingMessage: a call that would suspend returns `AwaitingRoom` with nothing changed, instead of suspending.
- Transport.OutboundRouter.RouteOutgoingEnvelope: a call that would suspend on a full stdio writer returns `AwaitingWriter` before writing to anyone; with stdio there is only one connection to write to.
- Request handlers are arbitrary: they may reply to any accepted request any number of times and send to listening connections; what they compute is not modelled.
- ServerProgress.NoMutualWait: the route-drain wait is covered once the replies it waits for are queued, which is exactly when the router can end it (`DrainWaitEndsIff`); that every handler eventually replies is not claimed.
- ServerProgress.EveryWaitEnds: the same.
- ServerStops.ShutdownCompletes: some run stops; a handler that never replies keeps the route-drain wait waiting.
- Removal of listeners when a connection closes: the model lets a closed connection stay addressable, which only adds behaviour.
- Writers may close at any time, which covers every way a connection task ends.
- 64-bit counters (request ordinals, connection ids, callback ids) and 32-bit scanner depths do not wrap around.
- Approvals.OutgoingMessageSender.ClearCallbacks: claimed for the state right after the clear only; a listener task may insert a callback for a closed connection later, so no whole-run absence of callbacks is claimed.
- The callback table and the transition system are separate models: client responses reach the processor as messages whose effect on the table is the subject of `Approvals`.
- Heredoc extraction with Tree-sitter, unified diffs, shell parsing and working directories in front of the patch parser.
- Parser errors are constructors with their line and offending text; the wording of messages is not modelled.
- PatchPrinting.PrintThenParse: lines must not contain a line feed nor end in a carriage return, which `str::lines` would take for part of the line end.
- File-system failures other than a missing file, directory creation, and path resolution.
- PatchPreviewExact.TruthfulIff: exact over all contents, chunks and files at once, from paths and kinds of hunks alone; for a single patch and a single set of files a preview can also be right by chance, for instance where two texts happen to be equal.
- Config trees are values: the walk with a mutable cursor becomes a function on trees; arrays count as scalars; parsing, printing and the SHA-1 version are parameters of `ConfigFile`.
- ConfigEdits.ConfigFile.ApplyConfigEdits: a write that fails half way is not modelled; path comparison, readability and the directory are parameters.
- The filters of experimental methods and fields take any predicate on parts; `extract_method_from_arm`, `parse_property_name`, import pruning and `find_top_level_brace_span` are not modelled.
- JSON numbers are their printed text, and the serialiser is a parameter; the permutation law assumes that it is injective.
- VariantTitles.AnnotateVariantList: derived variant names, discriminator titles and the recursion of `annotate_schema` into children are left out, as easy members; a variant is its title and its proposed name.
- `build_schema_bundle`, the browser manager, backend client, login server, installers and scripts.
