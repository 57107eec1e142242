# Verified model of the agent runtime

A Dafny model of the stateful cores of the agent runtime and of the text transformations they rest on, with
machine-checked proofs about whole runs. The environment (what the language model replies, what tools return, the
clock, sockets, message authentication codes, ciphers) is arbitrary: every theorem holds for every choice of it.

`dafny verify dfyconfig.toml` checks the whole project.

| component | files | main results |
|---|---|---|
| ReAct loop | `LoopHistory.dfy`, `RefusalLaws.dfy`, `LoopTrail.dfy`, `LoopState.dfy`, `LoopOutcome.dfy`, `AgentLoop.dfy` | every run terminates within the turn limit, with the answer its replies call for; a call executes exactly if nothing speaks against it; the counters and windows mean what the full history says; records, results and executions are those of the history; results stay with their calls |
| Delivery queue | `DeliveryHeap.dfy`, `DeliveryModel.dfy`, `DeliveryLaws.dfy`, `DeliveryBounds.dfy`, `DeliveryQueue.dfy` | conservation, exact dispatch bounds, the retry schedule and crash recovery over every interleaving; the indexed heap refines the model |
| Context builder | `Conversation.dfy`, `CallGroups.dfy`, `ContextBuilder.dfy`, `SentHistory.dfy`, `RequestLaws.dfy`, `SentenceCompressor.dfy` | what is in every request, and in which order; the latest user message always survives; what is sent keeps results with their calls, however a run ended, and fits the budget; the compressor selects sentences |
| Discord gateway | `Gateway.dfy`, `GatewayLaws.dfy` | that it stops only for good reason, and otherwise comes back; resume, identify, shutdown, backoff and heartbeat laws under every interleaving with the heartbeat goroutines |
| Agent-to-agent adapter | `EvictionScan.dfy`, `PeerLimits.dfy`, `PeerAdapter.dfy`, `PeerLaws.dfy`, `EmptyKeys.dfy` | the sliding window, the nonce store and the session table over whole histories; exactly when eviction goes wrong |
| HTTP limiter | `WindowLimits.dfy`, `WindowHarm.dfy`, `WindowLimiter.dfy` | tight bounds on admissions, with and without harmful cleanups, and exactly when a cleanup can be noticed |
| Signed prompts and tagged content | `PromptBoundary.dfy`, `TrustBoundary.dfy` | exactly which signed prompts verify; tagged content comes back whole |
| Telegram formatter | `TelegramCleanup.dfy`, `TelegramFormatter.dfy`, `TelegramLines.dfy`, `TelegramLaws.dfy` | segments that factor input and output, exactly which text survives escaping, balanced fences |
| Text chunker | `TextChunker.dfy` | exactly when slicing fails and when the chunks cover every byte |

`Text.dfy` holds the string operations they share.

How the parts are built. A component that updates things in place is a class with methods, each proved against a
function or relation on values; the laws are then proved about those functions and about every run of them. Where the
full history matters (the loop, the gateway, the limiters), the history is a value the laws speak about, and the proof
shows that the short windows, flags and counters the code keeps stand for it.

## What the proofs found

- `recordToolExecution` drops a call without a tool name, so there is one execution record per pending call exactly
  when every call names a tool (`LoopTrail.RecordPerCallIff`).
- Failures are counted by the raw arguments, records carry the normalized ones. A run leaves at most two error records
  for a tool and an input that only one form of the arguments gives (`LoopTrail.RunLeavesAtMostTwoErrors`); with two
  forms there can be four (`LoopTrail.RewritingAllowsMoreErrors`).
- A run that ends inside a group leaves a call without all its results. No result is ever sent without its call
  (`SentHistory.RequestIsAttached`), but such a call goes out again as it was left, with the next user message, if the
  history fits (`SentHistory.FittingRequestIff`, `SentHistory.CutCallIsSent`).
- The scans for the oldest nonce and the oldest session use the empty string for "none found yet", and
  `EstablishSession` takes empty peer ids and nonces. A scan succeeds in every order of the map exactly if the entry
  with the empty key is not the one oldest (`EvictionScan.FindsOldestIff`); otherwise it may find anything, or nothing
  (`EvictionScan.AnyCanBeFound`). So an empty nonce that is older than a thousand others lets a replay pass, or hangs
  the capping loop with the lock held (`EmptyKeys.ReplayCanPass`, `EmptyKeys.OfferCanHang`), and with an empty peer id
  the session table has no bound (`PeerAdapter.BoundHoldsIff`, `EmptyKeys.SessionsAreUnbounded`).
- `ChunkText` with no overlap loses bytes: a character across a cut belongs to no chunk
  (`TextChunker.ZeroOverlapCanLose`); `TextChunker.CoverageIff` says exactly when nothing is lost. On text that is not
  valid UTF-8 a chunk may end before it starts and the slice fails (`TextChunker.ContinuationsBreak`); on valid text it
  never does (`TextChunker.ValidNeverBreaks`).
- The limiter's cleanup deletes a stale key from both tables. It can be noticed exactly when a key is stale in one
  table while its window in the other is running (`WindowLimits.UnnoticedIffHarmless`), and such a state is reachable
  (`WindowLimits.HarmIsReachable`).
- Twice the limit within one window length is never reached: the bound is twice the limit less one, and that one is
  reached (`WindowLimits.RequestsAreBounded`, `WindowLimits.BoundIsReached`). With harmful cleanups it is three times
  the limit less one, and that is reached too (`WindowHarm.EveryRunIsBounded`, `WindowHarm.HarmfulBoundIsReached`).
- A fatal close code stops the gateway only once the event loop reads it. Read in place of the greeting, it is retried
  like any other failure (`Gateway.FatalCloseIsFinal`, `Gateway.CloseBeforeGreetingIsRetried`).
- A timer heartbeat carries the sequence number that was the latest when its goroutine read it, which may be an old one
  by the time it is sent (`Gateway.HeartbeatCarriesItsReading`, `Gateway.HeartbeatCanBeOld`).
- Draining does not write the in-flight status, so a crash in flight costs one unrecorded dispatch: the dispatch bound
  is max(1, MaxAttempts) plus the crashes that caught the item in flight (`DeliveryModel.DispatchBound`), and it is
  reached for every limit and every number of crashes (`DeliveryBounds.DispatchBoundIsReached`).
- A signed prompt whose later section starts with newlines verifies only if the code of the section does not change
  when they are dropped (`PromptBoundary.SignedVerifiesIff`, `PromptBoundary.LeadingNewlinesCanFail`).
- `telegramEscapeText` does not escape backslashes. Read from left to right, escaped text gives back the text in every
  context exactly if it has none (`TelegramFormatter.ReadBackIff`).
- Removing a citation before formatting can make another, which stays (`TelegramCleanup.CleanupCanLeaveCitation`,
  `TelegramCleanup.CleanTwiceIff`).

## Model

| member | source | states |
|---|---|---|
| `AgentLoop.Loop.Run` | internal/agent/loop.go:250-344 | terminates for all replies, results and interrupts, in the final state, with at most MaxTurns model calls from a fresh loop; its history only grows and stays lawful; the records, the session's tool results and the outcomes drawn from the world since are exactly those of the history's new events, in order; only complete groups of calls and results are appended, the last one perhaps with the results of its first calls only, so that no result is ever without its call; the result, the reason and the phases are those the replies, the interrupts and the history call for, as `LoopOutcome.CloseAnswers` spells out |
| `LoopOutcome.CloseAnswers` | internal/agent/loop.go:250-344 | a run is aborted exactly by a cancellation; it exceeds the limit exactly past it, with what the assistant said last; it fails exactly on the model's last reply, with its message; finishing by itself it answers the content of the last reply drawn, unless that is blank; tool results are shown only when the assistant's last word is empty, after more than one turn; the model is asked again only after calls, filler or the continuation prefix; and every reason is true |
| `LoopOutcome.ConcludedAnswer` | internal/agent/loop.go:273-283 | what a finished run answers to a reply that is not blank is exactly its content |
| `LoopOutcome.BlankIsReplaced` | internal/agent/loop.go:615-623 | a blank reflection is replaced by what the tools returned, if that shows |
| `LoopOutcome.TurnKeepsPhases` | internal/agent/loop.go:286-343 | the model is asked to reflect exactly after the results of calls, otherwise to think, and thoughts are judged |
| `AgentLoop.Loop.LogIsLawful` | internal/agent/loop.go:151-176 | whatever the loop has done, its history is one the laws below speak about |
| `AgentLoop.Loop.Step` | internal/agent/loop.go:286-343 | one iteration either spends a turn within the limit or lowers the phase rank, or ends the run |
| `AgentLoop.Loop.Transition` | internal/agent/loop.go:1007-1036 | the state after each action; an idle streak at the threshold goes idle |
| `AgentLoop.Loop.Terminate` | internal/agent/loop.go:1039-1044 | the final state and its reason |
| `AgentLoop.Loop.Ask` | internal/agent/loop.go:383-399 | every turn counts; the model is asked exactly when the turn is within the limit |
| `AgentLoop.Loop.ThinkWith` | internal/agent/loop.go:383-521 | a limit error exactly past the limit; otherwise acting follows exactly the replies with tool calls, and filler never enters the session |
| `AgentLoop.Loop.Interpret` | internal/agent/loop.go:462-520 | the action and session for a reply; the run is over exactly when the no-progress limit is reached |
| `AgentLoop.Loop.ReflectWith` | internal/agent/loop.go:523-627 | thinking resumes exactly on the continuation prefix, acting on tool calls without it, otherwise it finishes with at most one message |
| `AgentLoop.Loop.DetectLoop` | internal/agent/loop.go:1294-1318 | the window's verdict equals "the last LoopWindow calls of the full history are all equal" |
| `AgentLoop.Loop.Decide` | internal/agent/loop.go:642-875 | the checks on counters give the refusal the full history calls for |
| `AgentLoop.Loop.Resolve` | internal/agent/loop.go:636-964 | a call executes exactly when nothing in the history speaks against it, and every counter then agrees with the longer history |
| `AgentLoop.Loop.NoteOutcome` | internal/agent/loop.go:1222-1235 | how each status changes the read-only streak |
| `AgentLoop.Loop.NoteFailure` | internal/agent/loop.go:880-886 | an execution error counts against its name and arguments |
| `AgentLoop.Loop.NoteSuccess` | internal/agent/loop.go:954-963 | a success of a protected call counts under the result's fingerprint, or the call's |
| `AgentLoop.Loop.Report` | internal/agent/loop.go:636-976 | one result and, for a named tool, one record, or the end of the run with at most one assistant message |
| `AgentLoop.Loop.ActOn` | internal/agent/loop.go:630-977 | observing means one result per pending call, in order, records likewise, and nothing left pending |
| `LoopTrail.RecordPerCallIff` | internal/agent/loop.go:1320-1343 | there is a record for every call, in order, exactly when every call names a tool |
| `LoopState.AllAnswered` | internal/agent/loop.go:630-977 | once every call of a list is answered, none is pending, whatever ids repeat |
| `AgentLoop.Loop.DetectNoProgress` | internal/agent/loop.go:1177-1204 | extends or restarts the streak so that it stays the one of the full list of outcomes |
| `AgentLoop.Loop.AtLimitIffStuck` | internal/agent/loop.go:1177-1204 | the counter reaches the limit exactly when the last replies, as many as the threshold, are tool-free and the same |
| `AgentLoop.Loop.RemindIfLong` | internal/agent/loop.go:290-294 | the reminder is appended every fourth turn from the eighth, and breaks no group |
| `LoopState.ActedGroupIsOneChunk` | internal/agent/topic.go:162-192 | a tool-calling message and the results acting appended are in one chunk, whatever surrounds them |
| `CallGroups.WellGroupedConcat` | internal/agent/loop.go:630-977 | appending complete groups to complete groups leaves complete groups |
| `LoopHistory.SummaryIsTrue` | internal/agent/loop.go:151-176 | the running summary counts what the history holds: model calls, calls considered, failures by key |
| `RefusalLaws.VerdictHasCause` | internal/agent/loop.go:636-876 | over every lawful history each verdict has its own cause and no earlier one: repetition, too much exploration, two failures, a tool not offered or unknown, unfit arguments, a replay, the policy |
| `RefusalLaws.ExecutedIsAllowed` | internal/agent/loop.go:690-876 | a call executes only if its tool is offered and known, its arguments are fit and the policy allows the tool with the arguments it runs with |
| `RefusalLaws.ExecutesIff` | internal/agent/loop.go:636-876 | a call executes exactly if none of these causes speaks against it |
| `RefusalLaws.StreakCountsExplorations` | internal/agent/loop.go:1206-1235 | the streak counts the read-only successes without progress since the last other outcome |
| `RefusalLaws.CountedIffRecorded` | internal/agent/loop.go:800-850 | a fingerprint counts as a success exactly if a protected call succeeded under it before |
| `LoopState.PriorResultsIff` | internal/agent/loop.go:1063-1080 | a result in the session counts exactly if it is the tool's, no error, and proves the fingerprint |
| `LoopState.SameProgressIff` | internal/agent/loop.go:1177-1204 | replies make the same progress exactly if route, skeleton and the number of results seen agree |
| `LoopTrail.OutcomeIsTold` | internal/agent/loop.go:880-963 | the result message carries the outcome as it is, the record the arguments the tool ran with |
| `LoopTrail.RefusalIsTold` | internal/agent/loop.go:642-876 | a refusal is an error to the model, unless it is a replay, and is recorded under its status |
| `LoopHistory.FailsAtMostTwice` | internal/agent/loop.go:669-688 | over a whole run the same name and arguments end in an execution error at most twice |
| `LoopTrail.RunLeavesAtMostTwoErrors` | internal/agent/loop.go:880-905 | a run from a fresh loop leaves at most two error records for a tool and an input that only one form of the arguments is normalized to |
| `LoopTrail.RewritingAllowsMoreErrors` | internal/agent/loop.go:669-688 | with two forms of the arguments for one input a lawful run leaves four |
| `LoopHistory.ProtectedCallsAreNotReplayed` | internal/agent/loop.go:805-850 | no protected call executes after a success recorded under its fingerprint |
| `LoopHistory.RepeatedCallIsNotExecuted` | internal/agent/loop.go:636-641 | a call is found looping exactly when it completes a window of identical calls, and then does not execute |
| `LoopHistory.ExplorationIsBounded` | internal/agent/loop.go:1206-1235 | on a direct turn the read-only streak never exceeds its threshold |
| `LoopHistory.StreakIsRun` | internal/agent/loop.go:1177-1204 | the kept streak reaches n exactly when the last n outcomes are equal and tool-free |
| `DeliveryHeap.Heap.Swap` | internal/channel/delivery.go:85-89 | exchanges two items and their indices and nothing else |
| `DeliveryHeap.Heap.Push` | internal/channel/delivery.go:90-94 | keeps heap order and index = position, and adds exactly the item |
| `DeliveryHeap.Heap.Pop` | internal/channel/delivery.go:95-103 | removes an earliest item, keeps order, positions and the rest as a multiset |
| `DeliveryHeap.Heap.FrontIsEarliest` | internal/channel/delivery.go:84-84 | heap order puts an earliest item in front |
| `DeliveryHeap.Heap.PopDue` | internal/channel/delivery.go:164-181 | returns exactly the due items in nondecreasing order and leaves only later ones |
| `DeliveryModel.FloorSecond` | internal/channel/delivery.go:312-342 | a persisted time is at most a second earlier |
| `DeliveryModel.RunKeepsInv` | internal/channel/delivery.go:132-268 | every run keeps the account of attempts, dispatches and crashes, and the shadow rows |
| `DeliveryModel.Conservation` | internal/channel/delivery.go:132-268 | after any run the items, each in one place, are exactly those accepted |
| `DeliveryModel.RunAccount` | internal/channel/delivery.go:164-211 | an item's dispatch and loss counts are those of the run |
| `DeliveryModel.DispatchBound` | internal/channel/delivery.go:192-211 | between replays an item is dispatched at most max(1, MaxAttempts) times, plus once per crash in flight |
| `DeliveryBounds.DispatchBoundIsReached` | internal/channel/delivery.go:192-211 | for every MaxAttempts and every n there is a run with n crashes in flight and max(1, MaxAttempts) + n dispatches |
| `DeliveryModel.OverIsOver` | internal/channel/delivery.go:184-247 | delivered items are never dispatched again, dead-lettered ones not until replayed |
| `DeliveryModel.PermanentErrorIsFinal` | internal/channel/delivery.go:62-77 | a permanent error never returns an item to pending |
| `DeliveryModel.LastDispatchRemembered` | internal/channel/delivery.go:164-211 | nothing but a dispatch, a crash or a replay changes when an item was last sent |
| `DeliveryModel.DispatchesAreSpaced` | internal/channel/delivery.go:44-59 | consecutive dispatches with no replay between and no crash in flight are at least the backoff delay apart, and with crashes while waiting still more than the delay less one second |
| `DeliveryLaws.RetriesKeepTheSchedule` | internal/channel/delivery.go:44-59 | after the first, second, third, fourth and any later failure, dispatches are at least 1 s, 5 s, 30 s, 5 min and 15 min apart, less one second after crashes while waiting |
| `DeliveryLaws.FailureSchedules` | internal/channel/delivery.go:192-211 | a failure counts, buries the item exactly on a permanent error or the last attempt, and otherwise makes it due again exactly so long after it |
| `DeliveryLaws.PermanentAnywhere` | internal/channel/delivery.go:62-77 | an error is permanent if one of the nine phrases stands anywhere in it, in upper or lower case |
| `DeliveryLaws.EnqueueIsIdempotent` | internal/channel/delivery.go:132-161 | a key that is pending swallows the item; otherwise it waits, due at once, and is written down |
| `DeliveryLaws.DrainTakesTheDue` | internal/channel/delivery.go:164-181 | exactly what waits and whose time has come is sent |
| `DeliveryLaws.ReplayStartsOver` | internal/channel/delivery.go:224-268 | a dead item starts over, due at once; nothing else is replayed |
| `DeliveryModel.CrashRefinement` | internal/channel/delivery.go:345-379 | after any run, recovery rebuilds exactly what was pending or in flight, unchanged, never later and less than a second earlier |
| `DeliveryModel.ReplayCannotDuplicate` | internal/channel/delivery.go:250-268 | after any run, the store says dead-letter exactly when no part of the queue will send the item |
| `DeliveryQueue.Queue.constructor` | internal/channel/delivery.go:116-123 | an empty queue over the given rows |
| `DeliveryQueue.Queue.Open` | internal/channel/delivery.go:116-123 | opening on the rows a crash left is the model's crash step |
| `DeliveryQueue.Queue.RecoverFromStore` | internal/channel/delivery.go:345-379 | every listed live row becomes one pending item with the row's values |
| `DeliveryQueue.Queue.EnqueueWithOptions` | internal/channel/delivery.go:132-161 | refines the enqueue step: a pending item with the key swallows it, otherwise it is accepted and persisted |
| `DeliveryQueue.Queue.FindKey` | internal/channel/delivery.go:136-145 | finds a pending item with the key exactly when the model has one |
| `DeliveryQueue.Queue.DrainReady` | internal/channel/delivery.go:164-181 | refines the drain step: every due item, and no other, goes in flight, in order |
| `DeliveryQueue.Queue.MarkDelivered` | internal/channel/delivery.go:184-189 | refines the deliver step |
| `DeliveryQueue.Queue.RequeueFailed` | internal/channel/delivery.go:192-211 | refines the fail step: buried, or pending again after the backoff |
| `DeliveryQueue.Queue.ReplayDeadLetter` | internal/channel/delivery.go:224-247 | refines the replay step, from memory first, otherwise from the store |
| `DeliveryQueue.Queue.ReplayDeadLetterFromStore` | internal/channel/delivery.go:250-268 | refines the replay step for an item only the store knows |
| `DeliveryQueue.SendAll` | internal/channel/delivery.go:414-435 | reports each item of a batch once, as the corresponding run of the model |
| `DeliveryQueue.ReportsAre` | internal/channel/delivery.go:414-435 | an unknown channel and a send with an error are reported as failures, anything else as delivered |
| `DeliveryQueue.WorkerDrain` | internal/channel/delivery.go:414-435 | a worker round is a drain followed by one report per drained item, and keeps the queue valid |
| `Conversation.ChunkConversationMessages` | internal/agent/topic.go:162-192 | the loop computes the chunks |
| `Conversation.FlattenOfChunks` | internal/agent/topic.go:162-192 | putting the chunks together gives back the conversation |
| `Conversation.ChunksAreChunks` | internal/agent/topic.go:162-192 | every chunk is a lone message or a tool-calling one with answers to its calls |
| `Conversation.GroupStaysTogether` | internal/agent/topic.go:162-192 | a tool-calling message with its answers lies in the one chunk that starts at the message |
| `Conversation.PartitionByTopic` | internal/agent/topic.go:108-146 | the loop with its open block computes the current side and the off-topic blocks |
| `Conversation.PartitionConserves` | internal/agent/topic.go:108-146 | both sides together are a permutation of the input, each in input order, and blocks are non-empty runs of one other tag |
| `Conversation.CurrentSideRechunks` | internal/agent/topic.go:162-201 | chunking the current side again never splits an original chunk |
| `Conversation.RechunkCoarsens` | internal/agent/topic.go:162-192 | chunking any list of chunks again only merges them |
| `CallGroups.ChunksAreGrouped` | internal/agent/topic.go:162-192 | chunking a conversation in which results follow their calls takes it apart into exactly its groups |
| `CallGroups.FirstChunkIs` | internal/agent/topic.go:162-192 | a message with calls takes along exactly the results right after it that name its calls; any other message is alone |
| `CallGroups.CutShortIsAttached` | internal/agent/loop.go:630-977 | however a run was cut short, every result it appended stands right after the call it answers |
| `CallGroups.GroupedConcatIff` | internal/agent/topic.go:162-192 | conversations put together are well grouped exactly if both are, when the second does not start with a result |
| `ContextBuilder.FindTopic` | internal/agent/context.go:262-268 | the tag of the latest tagged user message |
| `ContextBuilder.RenderChunk` | internal/agent/context.go:334-360 | a chunk's messages after compaction, and their cost |
| `ContextBuilder.SelectChunks` | internal/agent/context.go:322-393 | newest first within the budget, the latest user's chunk regardless, then back in chronological order |
| `ContextBuilder.ReverseInPlace` | internal/agent/context.go:385-389 | the array holds its old contents reversed |
| `ContextBuilder.BudgetHolds` | internal/agent/context.go:334-383 | the running total of a selection, less the latest user's chunk, is at most max(0, remaining) |
| `SentHistory.HistoryFitsBudget` | internal/agent/context.go:322-418 | for every history and budget the tokens of the history sent, reminder included, are at most max(0, remaining) plus the latest user's chunk |
| `ContextBuilder.TakenIsSubsequence` | internal/agent/context.go:334-393 | the history is a chronological subsequence of rendered chunks |
| `ContextBuilder.GroupIsSentWhole` | internal/agent/context.go:334-360 | a rendered group with call ids keeps every message, changed in content only |
| `SentHistory.HistoryIsAttached` | internal/agent/context.go:322-418 | of every conversation in which results stand with their calls, cut short or not, the history sent has no result without its call, and every call has its results exactly if every chunk taken has them: chunking, selection, rendering and reminder included |
| `SentHistory.RequestIsAttached` | internal/agent/context.go:168-465 | the same of the whole request, with the topic split, system material, summaries and compression |
| `SentHistory.FittingRequestIff` | internal/agent/context.go:168-465 | if all of the history fits, every call is sent with its results exactly if every call of the current topic has them |
| `SentHistory.CutCallIsSent` | internal/agent/context.go:168-465 | a call that a run left without all its results is sent without them with the next user message, for every such conversation without topics that fits |
| `ContextBuilder.SelectionKeepsLatest` | internal/agent/context.go:322-393 | selection keeps a non-blank latest user message as the last, with its exact content |
| `ContextBuilder.RemindedKeepsLastUser` | internal/agent/context.go:395-418 | the reminder does not change which user message is last |
| `ContextBuilder.ReminderSplitsNoChunk` | internal/agent/context.go:395-418 | the reminder lands between two sent chunks |
| `ContextBuilder.CompressContextMessages` | internal/agent/context_compress.go:75-100 | rewrites in place exactly the compressible messages other than the last user message |
| `ContextBuilder.CompressedKeepsLastUser` | internal/agent/context_compress.go:75-100 | the last user message is unchanged by compression |
| `ContextBuilder.Builder.BuildRequest` | internal/agent/context.go:168-465 | the request is the composition of all stages, and only the memory block is changed |
| `RequestLaws.RequestContents` | internal/agent/context.go:168-465 | every request starts with the system prompt, the memory, the memory index and the notes, each once, in order and as they are, then one summary per block of another topic, then the history, which compression may change in content only |
| `RequestLaws.EveryMessageIsPlaced` | internal/agent/context.go:262-290 | every message of the conversation is in the current topic or in a summarized block |
| `RequestLaws.CurrentTopicIs` | internal/agent/context.go:262-268 | the topic is the tag of the latest tagged user message |
| `RequestLaws.TaggedIsCurrentIff` | internal/agent/topic.go:108-146 | a chunk is current exactly if the first tag in it is the topic |
| `RequestLaws.StageIs` | internal/agent/context.go:26-40 | the stage by how far the history exceeds what is left: up to 1, 1.5, 2.5 and 4 times, and beyond |
| `RequestLaws.CompactSays` | internal/agent/context.go:486-517 | what a message of each role says at each stage; system messages are never rewritten |
| `RequestLaws.FillerIsTrimmed` | internal/agent/context.go:529-541 | the thirteen fillers are trimmed in any case and with any space around them |
| `RequestLaws.MessageIsSent` | internal/agent/context.go:338-352 | a message is sent with everything but its topic tag, or left out because nothing of it is left |
| `RequestLaws.SelectionIsGreedy` | internal/agent/context.go:334-383 | a part is left out only if it is empty or does not fit with the newer ones |
| `RequestLaws.ReminderIff` | internal/agent/context.go:395-418 | the reminder goes directly before the last user message, exactly in a long conversation and if it fits |
| `RequestLaws.CompressionTouchesOnly` | internal/agent/context_compress.go:75-112 | compression changes the content of a long user or assistant message other than the last user message, and nothing else |
| `RequestLaws.RequestFitsBudget` | internal/agent/context.go:168-418 | without compression the request and the tools cost no more than the budget and the latest user's chunk, unless the system material alone does |
| `RequestLaws.BudgetIs` | internal/agent/context.go:169-196 | the budget is the tier's, raised by a large prompt to the top tier at most |
| `RequestLaws.MemoryIsFitted` | internal/agent/context.go:216-226 | memory is compacted exactly when it takes more than a quarter of the budget |
| `ContextBuilder.LatestUserSurvives` | internal/agent/context.go:258-454 | for every history, material and budget, a non-blank latest user message is the last user message of the request, with its exact content |
| `SentenceCompressor.SplitSentences` | internal/agent/context.go:690-713 | sentences are trimmed, non-empty, disjoint spans of the text in order, with a gap between |
| `SentenceCompressor.SentencesAreUnique` | internal/agent/context.go:690-713 | the split is the only one of that kind |
| `SentenceCompressor.ExchangeSort` | internal/agent/context.go:650-677 | the exchange sort leaves a permutation in descending order of any key |
| `SentenceCompressor.TakeBest` | internal/agent/context.go:659-668 | the longest front of the ranking within the target, at least one sentence |
| `SentenceCompressor.SemanticCompress` | internal/agent/context.go:584-687 | returns distinct best sentences in original order joined by single spaces |
| `SentenceCompressor.CompressedToHalf` | internal/agent/context.go:584-687 | what is left are the best sentences in order, together at most half the text unless there is only one, and no room for some other |
| `SentenceCompressor.SelectionIsShort` | internal/agent/context.go:584-687 | such a selection, within half the input unless one sentence is kept, is never longer than the input even with its spaces |
| `Gateway.Client.HandleMessage` | internal/channel/discord_gateway.go:236-306 | the shared state, the action and the heartbeat reply for each frame, and the message it buffers |
| `Gateway.Client.ReadHello` | internal/channel/discord_gateway.go:162-180 | only a Hello starts the heartbeat goroutine and raises the flag; anything else fails the session |
| `Gateway.Client.SendHandshake` | internal/channel/discord_gateway.go:182-198 | resumes exactly with a session and a sequence number |
| `Gateway.Client.SessionOnce` | internal/channel/discord_gateway.go:200-230 | storing a frame's sequence number and acting on the frame are two steps; close codes are classified |
| `Gateway.Client.Recv` | internal/channel/discord.go:68-77 | hands out the oldest buffered message |
| `Gateway.Client.PushMessage` | internal/channel/discord.go:60-65 | a webhook's message goes to the end of the same buffer |
| `Gateway.Client.SettleSession` | internal/channel/discord_gateway.go:91-115 | what each ending does to the backoff and the session |
| `Gateway.Client.BeatOnce` | internal/channel/discord_gateway.go:417-445 | the goroutine's check, clear, reading of the sequence number and send as separate atomic steps |
| `Gateway.Client.RunGateway` | internal/channel/discord_gateway.go:64-117 | whatever the schedule, what happens is a run of the step system |
| `GatewayLaws.EndingIsHeeded` | internal/channel/discord_gateway.go:80-117 | in every run the next thing after the end of a session is what the ending calls for: it resumes, session kept, on a reconnect request, a resumable invalid session or a resumable close code; gives the session up when it is void; waits when the connection broke; stops on a cancellation or a fatal code |
| `GatewayLaws.NextHandshakeResumes` | internal/channel/discord_gateway.go:182-198 | after a request to resume the next handshake resumes the session of the latest READY with the latest number |
| `GatewayLaws.ResumptionIsReachable` | internal/channel/discord_gateway.go:107-109 | a dial that succeeds and a greeting lead to it |
| `GatewayLaws.StopHasCause` | internal/channel/discord_gateway.go:64-117 | the client never stops without a cancellation or a fatal close code |
| `GatewayLaws.ComesBack` | internal/channel/discord_gateway.go:64-117 | as long as it has not stopped, there is a way to a live session from every state of every run |
| `GatewayLaws.DialsTheResumeUrl` | internal/channel/discord_gateway.go:120-126 | it connects where the latest READY said, unless the session has been given up since |
| `GatewayLaws.FramesAreHeeded` | internal/channel/discord_gateway.go:236-306 | every READY is remembered, every message buffered, every acknowledgement noted |
| `GatewayLaws.HeartbeatGoesOn` | internal/channel/discord_gateway.go:417-445 | a goroutine whose last heartbeat is acknowledged sends the next one, otherwise it ends |
| `Gateway.HandshakesAreHonest` | internal/channel/discord_gateway.go:182-198 | a resume carries the session of the latest READY and the latest sequence since the last clear, an identify means one of them is missing, a heartbeat the server asks for carries the latest sequence |
| `Gateway.HeartbeatCarriesItsReading` | internal/channel/discord_gateway.go:435-443 | a timer heartbeat carries the number that was the latest when its goroutine read it, after its previous heartbeat |
| `Gateway.HeartbeatCanBeOld` | internal/channel/discord_gateway.go:435-443 | a number stored between the reading and the sending does not go out |
| `Gateway.ClearedIsReachable` | internal/channel/discord_gateway.go:435-443 | a run leads to where that can happen |
| `Gateway.MessagesAreConserved` | internal/channel/discord_gateway.go:299-345 | no message is lost, duplicated or reordered between its event, or its webhook, and its receiver, across sessions |
| `Gateway.SessionWasAnnounced` | internal/channel/discord_gateway.go:280-293 | a known session came with a READY, with no other READY and no clear since |
| `Gateway.SequenceWasReceived` | internal/channel/discord_gateway.go:236-242 | a known sequence number came with a frame, with no later number and no clear since |
| `Gateway.ClearForcesIdentify` | internal/channel/discord_gateway.go:258-271 | after a non-resumable invalid session or a reconnect action the next handshake is an Identify |
| `Gateway.FatalCloseIsFinal` | internal/channel/discord_gateway.go:204-218 | a fatal close code read by the event loop is followed by no further connection |
| `Gateway.CloseBeforeGreetingIsRetried` | internal/channel/discord_gateway.go:162-169 | any close in place of the greeting, fatal or not, is followed by a wait and another connection |
| `Gateway.GreetingIsReachable` | internal/channel/discord_gateway.go:150-162 | a run leads to where that can happen |
| `Gateway.WaitIsExponential` | internal/channel/discord_gateway.go:80-111 | the k-th failure in a row waits min(2^(k-1), 60) seconds |
| `GatewayLaws.WaitsAre` | internal/channel/discord_gateway.go:80-111 | the waits are 1, 2, 4, 8, 16 and 32 seconds, then a minute each |
| `Gateway.HeartbeatsAreAcknowledged` | internal/channel/discord_gateway.go:417-445 | in every session and at every moment timer heartbeats are at most the acknowledgements plus one, stale goroutines included |
| `PeerLimits.KeptIsEnough` | internal/channel/a2a.go:317-325 | pruning loses nothing: the kept timestamps stand for every attempt that passed |
| `PeerLimits.PassesIffBelowLimit` | internal/channel/a2a.go:309-332 | an attempt passes exactly when fewer than the limit passed in the minute up to it |
| `PeerLaws.PassesIffFewInTheMinute` | internal/channel/a2a.go:309-332 | an attempt passes exactly when fewer of the peer's attempts than the limit lie in the sixty seconds up to it |
| `PeerLimits.WindowIsBounded` | internal/channel/a2a.go:309-332 | in every minute at most the limit of a peer's attempts pass, whatever other peers do |
| `PeerLimits.AcceptedTwiceOnlyIf` | internal/channel/a2a.go:159-166 | a nonce is accepted again only after its lifetime, after a thousand others no older were in the store with it, or after the empty nonce was older than a thousand others at an offer |
| `PeerLimits.StaysStored` | internal/channel/a2a.go:362-385 | until then an accepted nonce stays in the store with its time |
| `PeerLimits.EntriesWereAccepted` | internal/channel/a2a.go:163-166 | every stored nonce was accepted, at the time it carries |
| `PeerLimits.NeverMisled` | internal/channel/a2a.go:370-384 | the last of these needs an offer of the empty nonce |
| `PeerLaws.RefusedOnlyIfLive` | internal/channel/a2a.go:159-166 | a nonce is refused only while it is stored and has not expired |
| `EvictionScan.FindsOldestIff` | internal/channel/a2a.go:334-342 | in every order of the map the scan finds an oldest entry exactly if there is one other than the empty key alone |
| `EvictionScan.AnyCanBeFound` | internal/channel/a2a.go:334-342 | otherwise every entry, and nothing, is found in some order |
| `EvictionScan.CappedIff` | internal/channel/a2a.go:370-384 | when the capping loop ends, the oldest entries are gone exactly if fewer than the cap are younger than the empty key, whatever the orders |
| `EvictionScan.RoundsCap` | internal/channel/a2a.go:370-384 | then every round drops an entry, so that the loop ends after as many rounds as there are surplus entries |
| `EvictionScan.CapCanHang` | internal/channel/a2a.go:370-384 | otherwise after any number of rounds it may still be over the cap |
| `PeerAdapter.RateWindow.Prune` | internal/channel/a2a.go:317-325 | the in-place filter leaves exactly the times after the cutoff, in order |
| `PeerAdapter.RateWindow.Admit` | internal/channel/a2a.go:309-332 | the window after an attempt, and whether it passes |
| `PeerAdapter.FindOldest` | internal/channel/a2a.go:334-342 | the loop computes the scan in some order, and finds an oldest entry exactly if there is one other than the empty key alone |
| `PeerAdapter.CapNonces` | internal/channel/a2a.go:370-384 | whatever the store, entries only go, in rounds of the scan; the loop is sure to end if fewer than the cap are younger than the empty nonce, and drops the oldest exactly then |
| `PeerAdapter.DropStale` | internal/channel/a2a.go:365-369 | exactly the entries within their lifetime remain |
| `PeerAdapter.Adapter.CheckRateLimit` | internal/channel/a2a.go:309-332 | the peer's window moves on and no other peer's changes |
| `PeerAdapter.Adapter.MakeRoom` | internal/channel/a2a.go:192-195 | below capacity nothing changes, at capacity what the scan finds goes |
| `PeerAdapter.RoomMadeIff` | internal/channel/a2a.go:334-347 | at capacity a least recently active session goes exactly if the one with the empty peer id is not the one oldest |
| `PeerAdapter.BoundHoldsIff` | internal/channel/a2a.go:192-206 | the table stays within the maximum in every order exactly if it is not full, or the peer is in it, or the session with the empty peer id is not the one oldest |
| `PeerLaws.JoinedHolds` | internal/channel/a2a.go:192-202 | a new session holds its key and counts as active now; of the others at most one goes |
| `PeerAdapter.Adapter.EstablishSession` | internal/channel/a2a.go:150-206 | limiter, then nonce, then key, for all peer ids and nonces; the windows and nonces stay those of the whole history of calls; it hangs only if the empty nonce is older than a thousand live ones; sessions stay within the maximum unless the table can overflow; what each outcome changes |
| `PeerAdapter.Adapter.AdapterIsLimited` | internal/channel/a2a.go:309-332 | after any calls of the adapter, in every minute at most the limit of a peer's attempts have passed |
| `PeerAdapter.Adapter.AdapterRemembers` | internal/channel/a2a.go:159-166 | after any calls of the adapter, a nonce was accepted twice only after its lifetime, when crowded out, or when the empty nonce misled the capping loop |
| `PeerAdapter.Adapter.Touch` | internal/channel/a2a.go:238-240 | traffic moves exactly the peer's session to the front of activity |
| `PeerAdapter.Adapter.CleanupExpired` | internal/channel/a2a.go:388-406 | exactly the live sessions and nonces remain |
| `PeerAdapter.SaltIsSymmetric` | internal/channel/a2a.go:248-264 | both peers compute the same salt |
| `PeerLaws.SaltIsOrdered` | internal/channel/a2a.go:248-264 | the key with the smaller first different byte comes first |
| `PeerLaws.SaltBindsBothKeys` | internal/channel/a2a.go:248-264 | for a hash without collisions the salt determines both keys |
| `PeerAdapter.PeersAgree` | internal/channel/a2a.go:179-190 | peers that agree on the shared secret derive the same session key |
| `EmptyKeys.ReplayCanPass` | internal/channel/a2a.go:159-166 | a run of offers in which the youngest nonce is accepted again at the same moment |
| `EmptyKeys.OfferCanHang` | internal/channel/a2a.go:370-384 | a run of offers after which the capping loop can go on for any number of rounds |
| `EmptyKeys.SessionsAreUnbounded` | internal/channel/a2a.go:192-206 | for every maximum and every number a run of joins that fills the table with that many sessions |
| `WindowLimits.WindowIsBounded` | internal/api/ratelimit.go:98-112 | no half-open interval of one window length admits twice the limit for a key |
| `WindowLimits.BoundIsReached` | internal/api/ratelimit.go:98-112 | twice the limit less one is reached, for every limit, every window from two up and every start |
| `WindowLimits.KeysAreIndependent` | internal/api/ratelimit.go:72-95 | what passes for a key in a run is what its own bucket admits of its own checks |
| `WindowLimits.ActorsGetFiveThousand` | internal/api/ratelimit.go:21-22 | at one moment a fresh actor gets five thousand requests through, and no more |
| `WindowLimits.ActorStopsFirst` | internal/api/ratelimit.go:72-95 | a request stopped by the actor's limit does not count for the address |
| `WindowLimits.RequestsAreBounded` | internal/api/ratelimit.go:72-112 | the bound over whole runs of requests with harmless cleanups anywhere, per address and per actor |
| `WindowHarm.EveryRunIsBounded` | internal/api/ratelimit.go:46-112 | with any cleanups, harmful ones too, no interval of one window length admits three times the limit, per address and per actor |
| `WindowHarm.HarmfulBoundIsReached` | internal/api/ratelimit.go:46-112 | three times the limit less one is reached, by an address and by an actor alike |
| `WindowLimits.CleanupIsInvisible` | internal/api/ratelimit.go:46-70 | harmless cleanups anywhere change no decision |
| `WindowLimits.SeparateKeysHideCleanups` | internal/api/ratelimit.go:46-70 | with addresses distinct from actor keys, no cleanup changes a decision |
| `WindowLimits.UnnoticedIffHarmless` | internal/api/ratelimit.go:53-65 | a cleanup goes unnoticed by all later requests exactly when no key is stale in one table and running in the other |
| `WindowLimits.HarmIsReachable` | internal/api/ratelimit.go:53-65 | two requests lead to a state where a cleanup does harm |
| `WindowLimiter.BucketTable.CheckBucket` | internal/api/ratelimit.go:98-112 | the bucket updated in place is the model's, and no other changes |
| `WindowLimiter.Limiter.Handle` | internal/api/ratelimit.go:72-95 | the actor's limit first, then the address's, as one step of the model |
| `WindowLimiter.Limiter.Sweep` | internal/api/ratelimit.go:53-65 | the two sweeps together are the model's cleanup step |
| `PromptBoundary.JoinSigned` | internal/agent/prompt.go:164-186 | the loop computes the signed join |
| `PromptBoundary.SignIsMarker` | internal/agent/prompt.go:190-195 | a signature is a full marker |
| `PromptBoundary.SignedOfBoth` | internal/agent/prompt.go:164-186 | signed sections are put together with an empty line between them |
| `PromptBoundary.UnmarkedIsAccepted` | internal/agent/injection.go:220-226 | text without markers is accepted |
| `PromptBoundary.ForgeryIsRejected` | internal/agent/injection.go:220-266 | text whose first marker does not carry the code of what precedes it is rejected |
| `PromptBoundary.VerifyBoundaries` | internal/agent/injection.go:220-266 | accepts exactly when every marker signs the section before it |
| `PromptBoundary.NextMarkerOfSection` | internal/agent/injection.go:213-240 | no match straddles a section edge: a section without markers is found whole |
| `PromptBoundary.SignedVerifiesIff` | internal/agent/injection.go:220-266 | a signed join of marker-free sections verifies exactly when no later section's code changes by dropping its leading newlines |
| `PromptBoundary.LeadingNewlinesCanFail` | internal/agent/injection.go:220-266 | two sections, the second changed in its code by dropping leading newlines, do not verify |
| `PromptBoundary.SignedVerifies` | internal/agent/prompt.go:164-195 | in particular when no section after the first starts with a newline |
| `TrustBoundary.VerifyOfTagged` | internal/agent/hmac_boundary.go:18-50 | verifying tagged content returns exactly the content, whatever it contains |
| `TrustBoundary.TaggedLooks` | internal/agent/hmac_boundary.go:18-25 | the content stands between two lines with its code |
| `TrustBoundary.AcceptedIff` | internal/agent/hmac_boundary.go:27-50 | exactly what is accepted: two boundary lines that carry the code of what is between |
| `TrustBoundary.DelimitersDoNotOverlap` | internal/agent/hmac_boundary.go:98-110 | a line's prefix and suffix cannot share characters, so extraction stays in bounds |
| `TrustBoundary.StripHmacBoundaries` | internal/agent/hmac_boundary.go:54-63 | the loop keeps exactly the other lines |
| `TrustBoundary.StripLeavesNoBoundary` | internal/agent/hmac_boundary.go:54-63 | no boundary line is left |
| `TrustBoundary.StripOfTagged` | internal/agent/hmac_boundary.go:18-63 | stripping undoes tagging, as far as stripping the content itself goes |
| `TelegramFormatter.EscapeText` | internal/channel/formatter.go:72-82 | the loop computes the escaped text |
| `TelegramFormatter.UnescapedOfEscaped` | internal/channel/formatter.go:70-82 | dropping a backslash before each special character gives back the text |
| `TelegramFormatter.SpecialsAreEscaped` | internal/channel/formatter.go:70-82 | every special character of the output directly follows a backslash |
| `TelegramFormatter.ReadBackIff` | internal/channel/formatter.go:70-82 | read from left to right, where a backslash hides the next character, escaped text is read as the text itself whatever follows it, exactly if the text has no backslash |
| `TelegramFormatter.ClosingIsFirst` | internal/channel/formatter.go:266-319 | a closing delimiter is found exactly at the first place the scan looks at that holds one |
| `TelegramFormatter.FindClosing` | internal/channel/formatter.go:268-281 | the loop finds it, for one delimiter |
| `TelegramFormatter.FindDoubleClosing` | internal/channel/formatter.go:285-298 | the loop finds it, for two in a row |
| `TelegramFormatter.FindClosingNotDoubled` | internal/channel/formatter.go:302-319 | the loop finds it, for one not doubled |
| `TelegramFormatter.MatchingIsFirst` | internal/channel/formatter.go:327-364 | a bracket is matched where the depth first comes to zero, and nowhere if it never does |
| `TelegramFormatter.ParseMarkdownLink` | internal/channel/formatter.go:323-367 | the link's parts and the position after it |
| `TelegramFormatter.SegmentIsSlice` | internal/channel/formatter.go:158-261 | whatever construct is chosen, its Markdown is the text at that position |
| `TelegramFormatter.SegmentsAreText` | internal/channel/formatter.go:151-264 | the segments' Markdown, put together, is the input |
| `TelegramFormatter.ConvertInline` | internal/channel/formatter.go:151-264 | terminates in bounds, and the output is the segments' Telegram renderings put together |
| `TelegramLaws.DoubledIsHalved` | internal/channel/formatter.go:171-240 | text between doubled asterisks, tildes or underscores is escaped between single ones |
| `TelegramLaws.SingleIsItalic` | internal/channel/formatter.go:196-240 | a single asterisk or underscore on both sides becomes underscores, a single tilde stays |
| `TelegramLaws.CodeStays` | internal/channel/formatter.go:160-168 | code in backticks stays as it is |
| `TelegramLaws.LinkStays` | internal/channel/formatter.go:242-254 | a link's text is escaped, its address is not |
| `TelegramLaws.OthersArePlain` | internal/channel/formatter.go:256-261 | any other character stands for itself, the eighteen special ones behind a backslash |
| `TelegramLines.ConvertLine` | internal/channel/formatter.go:125-146 | headers, quotes and plain lines |
| `TelegramLaws.HeaderIsBold` | internal/channel/formatter.go:125-135 | headers of three levels become bold |
| `TelegramLaws.FencedLinesStay` | internal/channel/formatter.go:90-110 | between fences lines stay as they are; the opening fence keeps its language, the closing one has none |
| `TelegramLines.Format` | internal/channel/formatter.go:84-120 | the loop computes the formatted text of the cleaned-up content |
| `TelegramLines.FencesAreBalanced` | internal/channel/formatter.go:90-117 | an even number of fence lines comes out of lines that start outside a fence |
| `TelegramLines.FormattedFencesAreBalanced` | internal/channel/formatter.go:84-120 | so does the final text, joined and trimmed |
| `TelegramLines.ConvertedIsNoFence` | internal/channel/formatter.go:111-111 | converting a line that is not a fence never makes one |
| `TelegramCleanup.UnchangedIffClean` | internal/channel/formatter.go:43-56 | the clean-up leaves a text alone exactly if no line is a marker, it holds no citation and no two blank lines in a row, and it is trimmed |
| `TelegramLaws.MarkersAre` | internal/channel/formatter.go:43-53 | lines that open with one of the five bracketed kinds, or as orchestration, are markers |
| `TelegramLaws.CitationsAre` | internal/channel/formatter.go:43-54 | a bracketed number goes, and the clean-up goes on behind it |
| `TelegramCleanup.PreprocessedIsTight` | internal/channel/formatter.go:43-56 | no text has two blank lines in a row after the clean-up, or white space around it |
| `TelegramCleanup.CleanTwiceIff` | internal/channel/formatter.go:43-56 | cleaning up twice is cleaning up once exactly if the first time leaves no marker line and no citation |
| `TelegramCleanup.CleanupCanLeaveCitation` | internal/channel/formatter.go:43-56 | a text whose clean-up leaves a citation |
| `TextChunker.FloorCharBoundary` | internal/agent/ingest.go:182-190 | of any text, the last position at or before another outside a run of continuation bytes; in valid text a character boundary at most three bytes back |
| `TextChunker.BoundaryIsNear` | internal/agent/ingest.go:182-190 | in valid UTF-8 a boundary is never more than three bytes away |
| `TextChunker.ChunkText` | internal/agent/ingest.go:130-179 | fails exactly when some chunk would end before it starts; otherwise chunks are numbered slices that follow each other at the step and end where they should |
| `TextChunker.ChunksStartApart` | internal/agent/ingest.go:138-176 | chunks start four bytes per token that does not overlap apart, at least one, from the front until the end is covered |
| `TextChunker.ChunkOfValid` | internal/agent/ingest.go:152-167 | in valid text a chunk is not empty, at most the maximum long, and ends on the last boundary within it |
| `TextChunker.ValidNeverBreaks` | internal/agent/ingest.go:152-167 | on valid text slicing never fails |
| `TextChunker.ContinuationsBreak` | internal/agent/ingest.go:152-167 | a text of continuation bytes alone fails at its second chunk |
| `TextChunker.CoverageIff` | internal/agent/ingest.go:130-179 | a long text loses no byte exactly when the overlap is at least one token, or zero with every cut on a boundary |
| `TextChunker.ZeroOverlapCanLose` | internal/agent/ingest.go:130-179 | a text of five bytes that loses one |

## Left out

- The model's replies, tool results, interrupts, clock readings, socket events and database listings are parameters; a
  clock never runs back, and where one call reads the clock several times the model reads it once.
- The MAC is any function to 64 hexadecimal digits; the hash, key derivation and key agreement are any functions, and
  agreement on the shared secret is an assumption of `PeerAdapter.PeersAgree`. Encryption, sending and receiving of
  agent-to-agent messages are not modelled beyond keeping the session alive.
- AgentLoop.Loop.Run: assumes `LoopWindow >= 1`, because `detectLoop` reads the first element of its window.
- Replay fingerprints, policy, tool surface, argument normalisation, filler detection, response skeletons and message
  wording in the loop are arbitrary functions; observers, traces, memory persistence, failing recorders and output
  sanitising are not modelled.
- Queue operations are atomic and database writes succeed. The creation time of an item is not modelled.
  `DeliveryModel.CrashRefinement` needs at most 2000 live rows, where the recovery query is cut off.
- Delivery ids are fresh; that the id generator makes them so is not modelled.
- Lower-casing covers ASCII letters, and lengths in the context builder count characters where the code counts bytes.
- Scores, ratios and budget percentages are reals. Memory compaction, smart compression, topic summaries and
  first-sentence extraction are arbitrary functions; tool definitions are their rendered text.
- A call that hangs in the capping loop is watched for a number of rounds; what other calls would find after one that
  hung is not modelled, as it holds the adapter's lock.
- The gateway's payloads are modelled by their decoded fields, a message by the fact that it passes the checks for
  bots and guilds; the gateway URL query string is left out.
- Each request to the HTTP limiter is one step with one clock reading; header parsing, address extraction and the
  reporting types beside the limiter are left out.
- The formatters for platforms other than Telegram are left out. Text is a sequence of characters, so invalid UTF-8 is
  outside it.
- TextChunker.ChunkText: does not model overflow of four times the token counts; reading and storing files is left out.
- Injection scoring, planners, intent classification, prompt section contents, registries, the command line, dashboards
  and HTTP handlers: tables of constants and plumbing.
