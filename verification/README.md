# Verified models of the agent toolkit's core

A Dafny model of the parts of the toolkit whose correctness does not show from reading one
function: two dynamic programs on strings, four concurrency protocols, a graph search, a
JSON data model addressed by pointers, the bookkeeping of an agent's tools, conversation and
turns, cursor paging, event histories with their wire format, an event converter, a token
bucket and a federated search. `dafny verify dfyconfig.toml` checks everything.

## How the model is organised

Code that updates state in place is modelled by methods and classes with loops and
`modifies` clauses, each proved against a specification; what the code promises is then
proved about that specification. The concurrency protocols are step systems: a state, an
enabledness condition and a successor for each atomic action, and theorems about every state
of every run, for any number of callers, calls, publishers or drainers and any interleaving.

| module | what it models |
|---|---|
| `EditDistance` | the two-row Levenshtein program, against the cost of edit scripts |
| `ContentSimilarity` | sparse longest common block, the Ratcliff/Obershelp recursion and its ratio |
| `FileQueue` | the reference-counted lock per path |
| `Subscriber` | the unbounded subscriber queue with its one-slot wake channel |
| `EventBus` | emit, drain and close around one buffered channel |
| `RollingPool` | the tool pool with serial barriers |
| `SurfaceTree` | the three-colour search for circular component references |
| `JsonPointer`, `Numerals`, `DataModel` | pointer syntax, decimal tokens and updates of a JSON tree (RFC 6901, sections 3 and 4) |
| `ToolRegistration` | the tool registry and steps that captured it |
| `Conversation`, `ToolPairs` | matching tool calls with tool results |
| `ContextTruncation` | where a conversation is cut to fit a token budget |
| `StreamAssembly` | coalescing streamed blocks, reassembling streamed tool calls |
| `AgentLoop`, `RunOutcomes`, `RepetitionRecovery`, `RepetitionGaps` | the turn loop, its budget, its outcomes and its ladder of nudges |
| `CallSignature` | the signature by which repeated tool calls are recognised |
| `Pagination` | cursor paging of the task list |
| `TaskHistory`, `EventStream` | event histories with replay; the SSE printer and parser (section 9.2 of the WHATWG HTML standard) |
| `Converter` | agent events to AG-UI events |
| `RateLimiter` | the token bucket per address |
| `Federation` | breadth-first search along registry referrals |

Models, tools, hooks, queues, clocks, schedulers and remote registries are arbitrary: they
are parameters, or free choices of a run. Floating point is modelled by `real`.

## Where the code does not do what its words say

Each item has a proof of the exact condition under which the promise holds, and an input or
a run on which it does not.

- `TruncateEngine` is documented to keep the first N messages and the last M tokens
  (agentcore/context_engine_truncate.go:11-16). Histories of up to three messages come back
  as they are. Of longer ones, when everything after the head fits in the budget, everything
  after the head is dropped (`RecentKeptIff`). With at least one message that is no system
  message but fewer than N, one of the first is always lost; with N or more, one is lost
  exactly when an orphaned tool result is among them and more messages follow
  (`FirstKeptIff`, `FirstKeptOfJustified`, `ProtectedOrphanIsLost`). Whole histories of more
  than three messages may go (`NothingIsLeft`, `EverythingMayBeDropped`).
- `EventBus.Close` is documented to return after all queued events are processed
  (agentcore/event.go:583). A call that finds the bus closed does so only if there is no
  event left to handle (`CloseKeepsPromiseIff`, `SecondCloseDoesNotWait`).
- The fallback of `findTailCutByTokens` can point at a tool result or past the end
  (`TailCutIsSound`, `FallbackMissesBoundary`).
- A surface that passes validation need not be the "valid component tree" of
  a2ui/validate.go:89-91: it is one exactly when every component but the root is referenced
  by exactly one component (`AcceptedIsTreeIff`, `AcceptedNeedNotBeTree`).
- "3+ turns in a row" (agentcore/agent.go:1022-1023, 1060-1061) counts only turns whose tool
  calls were executed, and for texts only those with a text; other turns in between do not
  reset the detectors. A nudge, or the stop for repetition, answers three consecutive turns
  exactly when the two turns before were such turns too (`NudgesAnswerThreeTurnsIff`,
  `StopsAnswerThreeTurnsIff`, `NudgedAcrossGaps`).
- Tool calls with different arguments are to be told apart (agentcore/agent.go:1063-1067).
  Where names hold no colon, two batches without a separator in any text are told apart
  (`SignatureTellsApart`). A batch is told from every other exactly when it is empty, or a
  single call whose text does not also read as two; two or more calls always share their signature with
  some single call whose arguments hold a separator (`ToldFromAllIff`, `BatchesMayCollide`).
- Coalescing streamed blocks does not depend on where a provider cuts them exactly when the
  first piece of a tool call names it, or is blank (`CutsDoNotMatterIff`,
  `NamelessPieceGoesAstray`).
- Updates reach a subscriber in the order in which they were queued. That is the order of
  their sequence numbers exactly when no publisher numbers and queues an update while
  another stands between the two (`QueuedInNumberOrderIff`, `NumberingOrderMayInvert`).
- The history counter survives a shutdown unchanged, and is then right only if it was zero
  (`TaskHistory.Server.Shutdown`). A client that asks for what came after a number it has
  seen gets it exactly when the task was not forgotten in between, or no retained number is
  hidden by its own (`ReplayIsRightIff`, `PurgedNumberHidesEvent`).
- The rate limiter's bound needs a positive capacity and a bucket that refills within the
  cleanup age (`BoundedIff`, `FirstRequestGetsIn`); purging is invisible exactly under the
  second condition (`TransparentIff`, `PurgeDoublesBurst`).

## Model

| member | source | states |
|---|---|---|
| EditDistance.LevenshteinDistance | fuzzy/fuzzy.go:121-168 | the result is the cost of some edit script from a to b, and no script is cheaper |
| EditDistance.CellIsLeast | fuzzy/fuzzy.go:139-154 | a cell of the recurrence never exceeds the cost of any edit script between its prefixes |
| EditDistance.CellIsReached | fuzzy/fuzzy.go:139-154 | some edit script costs exactly what the cell says |
| EditDistance.DistanceIsUnique | fuzzy/fuzzy.go:121-157 | the specification determines the distance |
| EditDistance.ZeroExactlyOnEqual | fuzzy/fuzzy.go:121-157 | distance 0 exactly on equal strings |
| EditDistance.Symmetric | fuzzy/fuzzy.go:121-157 | the distance is the same both ways |
| EditDistance.Triangle | fuzzy/fuzzy.go:121-157 | the triangle inequality |
| EditDistance.Bounds | fuzzy/fuzzy.go:121-157 | between the difference and the maximum of the lengths |
| ContentSimilarity.LongestMatch | agentcore/content_similarity.go:49-72 | returns a common contiguous block, none is longer, and it is the first of the longest |
| ContentSimilarity.MatchingCharCount | agentcore/content_similarity.go:30-42 | counts the bytes of the recursive decomposition around longest blocks |
| ContentSimilarity.GestaltIsUnique | agentcore/content_similarity.go:30-42 | that decomposition is determined by the two texts |
| ContentSimilarity.MatchesLieInA | agentcore/content_similarity.go:30-42 | the matched bytes are a subsequence of the first text |
| ContentSimilarity.MatchesLieInB | agentcore/content_similarity.go:30-42 | and the same bytes of the second |
| ContentSimilarity.CountBounded | agentcore/content_similarity.go:30-42 | the count is at most either length |
| ContentSimilarity.FullCountMeansEqual | agentcore/content_similarity.go:30-42 | it reaches both lengths exactly on equal texts |
| ContentSimilarity.ContentSimilar | agentcore/content_similarity.go:14-24 | two non-empty texts are similar exactly when twice the count reaches the threshold's share of their bytes; two empty texts are similar, one is not |
| ContentSimilarity.RatioRange | agentcore/content_similarity.go:14-24 | the ratio lies in [0, 1] and is 1 exactly on equal texts |
| ContentSimilarity.SameSplitsIff | agentcore/content_similarity.go:30-72 | swapping the texts gives the same splits exactly when at every split the block that starts first in one also starts first in the other |
| ContentSimilarity.SameSplitsSameCount | agentcore/content_similarity.go:30-42 | the counts then agree |
| ContentSimilarity.NotSymmetric | agentcore/content_similarity.go:14-72 | two texts whose count, and whose answer for some threshold, differ by direction |
| FileQueue.RunKeeps | filequeue/filequeue.go:32-56 | every reachable state keeps the invariant: live callers of a key share a lock, its count is their number, and owners are unique |
| FileQueue.MutualExclusion | filequeue/filequeue.go:32-56 | at most one caller is inside fn per key, though lock objects come and go |
| FileQueue.EntriesAreInUse | filequeue/filequeue.go:35-53 | an entry exists exactly while callers use the key, and counts them |
| FileQueue.KeepsItsKey | filequeue/filequeue.go:32-56 | from entering to leaving a caller works on the key it came with |
| FileQueue.WaitsForSameKeyOnly | filequeue/filequeue.go:32-56 | a waiting caller can take its lock exactly when no caller is inside fn with the same key |
| FileQueue.EmptyAtQuiescence | filequeue/filequeue.go:48-53 | the map is empty when no caller is inside |
| FileQueue.NoDeadlock | filequeue/filequeue.go:32-56 | while anyone is inside WithFile someone inside can move |
| Subscriber.DeliveryIsInOrder | a2a/server.go:126-166 | received, buffered, held and queued events together are the appended ones in order |
| Subscriber.NoLostWakeUp | a2a/server.go:126-160 | a non-empty queue is being drained or a wake token waits, unless a publisher is about to signal |
| Subscriber.QuietMeansDelivered | a2a/server.go:142-166 | when only new updates or a close are possible all publishers are through and everything appended was received |
| Subscriber.AllNumbersAreReceived | a2a/server.go:126-166 | on an open subscriber, at rest, every update that was numbered has been received, and none twice |
| Subscriber.InternalPathsEnd | a2a/server.go:142-166 | internal steps cannot go on for ever |
| Subscriber.QueuedInNumberOrderIff | a2a/server.go:1208-1226 | over every run updates are queued in number order exactly when no publisher numbers and appends while another stands between the two |
| Subscriber.TurnsKeepNumberOrder | a2a/server.go:1208-1226 | so they are when a publisher numbers only while no other has an update pending |
| Subscriber.NumberingOrderMayInvert | a2a/server.go:1208-1226 | a run that queues the second number before the first |
| EventBus.NeverPanics | agentcore/event.go:570-619 | no run sends on the closed channel or closes it twice |
| EventBus.HandledInOrder | agentcore/event.go:474-496 | handled events are the first accepted ones, in order |
| EventBus.DropsOnlyWhenFull | agentcore/event.go:570-581 | over a whole run the channel stays within its size, and handled, current and queued events are exactly those emitted on an open bus with room; at rest all others, and no more, are missing |
| EventBus.DrainWaitsForEarlier | agentcore/event.go:600-619 | a drain that queued its sentinel returns only after all events accepted before are handled |
| EventBus.DrainKeepsPromise | agentcore/event.go:596-619 | over a whole run a drain comes back from a closed bus, or after all events accepted before it started are handled |
| EventBus.DrainCanReturn | agentcore/event.go:600-619 | from every reachable state the dispatcher and the drain can bring the drain to its return |
| EventBus.ClosingCloseDrains | agentcore/event.go:584-594 | the close that shuts the bus returns after every accepted event is handled, and none is accepted later |
| EventBus.CloseCanReturn | agentcore/event.go:584-594 | from every reachable state the dispatcher and the close can bring the close to its return |
| EventBus.CloseKeepsPromiseIff | agentcore/event.go:583-594 | a returning close has all events handled exactly when it shut the bus itself, or no event is in the channel or in hand |
| EventBus.SecondCloseDoesNotWait | agentcore/event.go:583-594 | a run in which a second close returns with an event still queued |
| EventBus.WaitersAreServed | agentcore/event.go:474-619 | whoever waits for the dispatcher is not waiting for a stuck one |
| RollingPool.PoolWithinLimit | agentcore/executor.go:442-500 | pooled calls in flight never exceed the limit, though waiting and counting are separate critical sections |
| RollingPool.WaitsOnlyWithCause | agentcore/executor.go:470-508 | the walk waits for a slot only while the pool is full, and for an idle pool only while a pooled call runs |
| RollingPool.RunsAsChosen | agentcore/executor.go:490-508 | in every run a call found eligible runs in the pool and any other inline |
| RollingPool.BarrierRunsAlone | agentcore/executor.go:490-508 | a call that was not found eligible, or that runs inline, runs alone |
| RollingPool.StartsInModelOrder | agentcore/executor.go:490-509 | calls start in model order |
| RollingPool.ReturnsAllResults | agentcore/executor.go:442-511 | on return every call is over and slot i holds what call i produced last in the run, panics included |
| RollingPool.NoDeadlock | agentcore/executor.go:442-511 | no reachable state is stuck before the pool returns |
| RollingPool.EveryRunReturns | agentcore/executor.go:442-511 | a run for n calls has at most 15n + 7 steps, and one that cannot go on has returned |
| SurfaceTree.Search.Visit | a2ui/validate.go:125-141 | blackens the component and all that it leads to, and keeps the finish order topological while no error is found |
| SurfaceTree.Search.DetectCycles | a2ui/validate.go:116-153 | reports an error exactly when the reference graph on defined components has a cycle; every error closes one |
| SurfaceTree.ValidateSurfaceTree | a2ui/validate.go:92-112 | no errors exactly when there is a root, all types are known, all references are defined and there is no cycle |
| SurfaceTree.TopologicalMeansAcyclic | a2ui/validate.go:116-153 | a finish order in which references go down rules out cycles |
| SurfaceTree.GrayHit | a2ui/validate.go:132-134 | a reference to a component on the stack closes a real cycle |
| SurfaceTree.AcceptedPathsEnd | a2ui/validate.go:92-112 | no path through an accepted surface is longer than the surface is large |
| SurfaceTree.AcceptedIsTreeIff | a2ui/validate.go:89-112 | in an accepted surface every component is reached from the root in exactly one way if and only if each but the root is referenced by exactly one component |
| SurfaceTree.AcceptedNeedNotBeTree | a2ui/validate.go:89-112 | an accepted surface with a shared child and an orphan, which is no tree |
| JsonPointer.UnescapeUndoesEscape | a2ui/datamodel.go:25-37 | unescaping an escaped token gives it back |
| JsonPointer.EscapedHasNoSlash | a2ui/datamodel.go:32-37 | an escaped token holds no slash |
| JsonPointer.EscapeIs | a2ui/datamodel.go:32-37 | ~ is written ~0, / is written ~1, other characters stay, and texts are escaped piece by piece |
| JsonPointer.UnescapeIsOnePass | a2ui/datamodel.go:25-30 | on any text the two replacements come to reading ~1 as /, ~0 as ~ and all else as it is, once |
| JsonPointer.ParseUndoesJoin | a2ui/datamodel.go:13-50 | parsing a joined path gives the tokens back exactly when they are not the single empty token |
| JsonPointer.LeadingSlashIsOptional | a2ui/datamodel.go:8-23 | the two root paths hold no token, and a path may go without its leading slash |
| DataModel.GetData | a2ui/datamodel.go:54-75 | the loop computes the value at the parsed path, or that there is none |
| Numerals.DigitsIff | a2ui/datamodel.go:172-172 | a run of characters has the value n exactly when it is a decimal numeral of n, zeros in front allowed |
| DataModel.ArrayIndexIff | a2ui/datamodel.go:164-177 | a token names element i exactly when it is a numeral of i, with or without a sign, in the range of 64-bit integers; it appends exactly when it is - |
| DataModel.ElementByNumeral | a2ui/datamodel.go:54-75 | the numeral of i reads, sets and removes element i |
| DataModel.GetAfterSet | a2ui/datamodel.go:95-163 | reading what was set gives the value, and nothing after an append |
| DataModel.GetAfterUpdate | a2ui/datamodel.go:81-93 | the same for paths, the root included |
| DataModel.GetAfterRemove | a2ui/datamodel.go:95-163 | a removed key is gone; a removed array slot reads null |
| DataModel.GetAfterRemoval | a2ui/datamodel.go:81-93 | the same for paths; the removed root is null |
| DataModel.TargetAfterUpdate | a2ui/datamodel.go:123-158 | an array keeps its length under every update but an append, which adds at the end |
| DataModel.OthersUnchanged | a2ui/datamodel.go:95-163 | paths that diverge by key or resolved index keep their values |
| DataModel.SetWhatIsThere | a2ui/datamodel.go:95-163 | writing back what is there changes nothing |
| DataModel.LastSetWins | a2ui/datamodel.go:95-163 | the second of two updates of a path wins |
| DataModel.FailsOnlyInArrays | a2ui/datamodel.go:95-177 | an update fails exactly when an array on its way is given a token that names none of its elements |
| DataModel.RemovalOfNothingIff | a2ui/datamodel.go:77-163 | removing what is not there changes nothing exactly when the container it would be in is there; otherwise objects are built on the way, in place of scalars too |
| ToolRegistration.Registry.Register | agentcore/tool.go:50-57 | registers the tools one after another, each with a registration of its own |
| ToolRegistration.Registry.Unregister | agentcore/tool.go:79-86 | removes tool and registration of each name |
| ToolRegistration.Registry.CaptureStep | agentcore/tool_registration.go:56-64 | an open step holding every tool with its present registration |
| ToolRegistration.RegistrationStep.Close | agentcore/tool_registration.go:66-71 | the step is closed and holds nothing |
| ToolRegistration.RegistrationStep.Resolve | agentcore/tool_registration.go:75-95 | resolves a name against the step and the present registry |
| ToolRegistration.MapsShareKeys | agentcore/tool.go:50-86 | after any history the two maps have one key set |
| ToolRegistration.LastRegisteredIsThere | agentcore/tool.go:50-86 | after any history a name stands for the tool registered last under it, unless it was removed since |
| ToolRegistration.ResolvesIffUntouched | agentcore/tool_registration.go:56-95 | over any history an open step finds the tool its name stood for at the capture exactly when the name was neither registered nor removed since; other names are stale while registered, and unknown otherwise |
| ToolRegistration.SameToolAgainIsStale | agentcore/tool_registration.go:75-95 | removing and registering the very same tool makes the step stale |
| ToolPairs.SanitizeToolPairs | agentcore/compaction.go:509-529 | keeps all messages in order but the results no earlier assistant message asked for |
| ToolPairs.SanitizeRemovesOrphans | agentcore/compaction.go:509-529 | leaves no orphaned result, and changes nothing exactly when there was none |
| ToolPairs.SanitizeIsIdempotent | agentcore/compaction.go:509-529 | doing it again changes nothing |
| ToolPairs.NormalizeToolCallHistory | agentcore/message.go:153-187 | the two loops compute the normalized history |
| ToolPairs.NormalizeAnswers | agentcore/message.go:149-187 | afterwards every call with an ID has a result in the run of results right after it |
| ToolPairs.NormalizeFixes | agentcore/message.go:149-187 | a history comes back unchanged exactly when all its calls are answered |
| ToolPairs.NormalizeIsIdempotent | agentcore/message.go:149-187 | doing it again changes nothing |
| ToolPairs.NormalizeOnlyInserts | agentcore/message.go:149-187 | keeps every message in its order and only inserts made-up results |
| ToolPairs.GroupIsCompleted | agentcore/message.go:153-187 | behind the results of a message with calls comes one result for each call without one, in order, with its ID and name |
| ToolPairs.NormalizeKeepsJustified | agentcore/message.go:149-187 | makes no orphan and hides none |
| ToolPairs.SanitizeThenNormalize | agentcore/message.go:149-187 | after both, results and calls match both ways and either function is the identity |
| ContextTruncation.AlignBoundaryForward | agentcore/compaction.go:165-170 | the first place from the cut on that is not a tool result |
| ContextTruncation.ScanTail | agentcore/context_engine_truncate.go:89-103 | the place right after the last message that overflows the budget, the end when none does |
| ContextTruncation.FindTailCutByTokens | agentcore/compaction.go:172-197 | that place moved past tool results, or two after the head |
| ContextTruncation.TailIsLongest | agentcore/compaction.go:177-190 | the tail fits, or is one message too large; one message more would not fit |
| ContextTruncation.TailCutIsSound | agentcore/compaction.go:172-197 | the cut is inside the history and splits no run of results exactly when the fallback is not taken or happens to hit such a place |
| ContextTruncation.FallbackMissesBoundary | agentcore/compaction.go:192-194 | histories whose cut falls on a tool result, and past the end |
| ContextTruncation.FindHeadEnd | agentcore/context_engine_truncate.go:72-87 | the head ends after the protected messages, or after the system message when there are too few |
| ContextTruncation.TruncateEngine.Compress | agentcore/context_engine_truncate.go:64-125 | up to three messages stay, and so does a history all of which is head; otherwise head, notice and tail without orphans, the number of messages cut out, and the counter |
| ContextTruncation.RecentKeptIff | agentcore/context_engine_truncate.go:15-16 | what the user and the assistant said in any stretch after the head that fits is the end of what is returned, exactly for up to three messages, when something after the head overflows, or when neither spoke after the head |
| ContextTruncation.FirstKeptIff | agentcore/context_engine_truncate.go:14-15 | what is returned starts with the first N messages, system messages aside, exactly for up to three messages, for none but system messages, and for at least N when the N-th ends the history or none of the first is an orphan |
| ContextTruncation.FirstKeptOfJustified | agentcore/context_engine_truncate.go:14-15 | for a history without orphans, exactly for up to three messages, for none but system messages, and for at least N |
| ContextTruncation.ProtectedOrphanIsLost | agentcore/context_engine_truncate.go:110-120 | with one message to protect, a first tool result without its call, followed by three messages of the user, is lost |
| ContextTruncation.NothingIsLeft | agentcore/context_engine_truncate.go:64-125 | of a history of more than three messages without a leading system message, with too few messages to protect, that fits as a whole, only the notice is returned |
| ContextTruncation.EverythingMayBeDropped | agentcore/context_engine_truncate.go:64-125 | four short messages within the budget that are all dropped |
| ContextTruncation.TruncatedIsSound | agentcore/context_engine_truncate.go:110-120 | the result has no orphan, and starts with the head and the notice when the history had none |
| StreamAssembly.MergeContentBlocks | agentcore/blocks.go:214-246 | the in-place merge is the fold of its one-block step |
| StreamAssembly.MergeKeepsWhatIsSaid | agentcore/blocks.go:212-246 | the text of each kind, and all arguments, are conserved in order |
| StreamAssembly.MergeSettles | agentcore/blocks.go:212-246 | no two neighbours of the result could still be coalesced |
| StreamAssembly.SettledIffUnchanged | agentcore/blocks.go:212-246 | blocks come through unchanged exactly when nothing can be coalesced |
| StreamAssembly.CutsDoNotMatterIff | agentcore/blocks.go:212-246 | two pieces come to the same as the whole, after any blocks, exactly when the first names its tool call or is blank |
| StreamAssembly.PiecesMakeBlocks | agentcore/blocks.go:214-246 | blocks that are streamed piece by piece come out again, with text, arguments, names and last signature |
| StreamAssembly.AssembleToolCalls | agentcore/agent.go:1483-1517 | the calls for the indices that occur, ascending, each folded from its own fragments |
| StreamAssembly.FragmentsSpellCalls | agentcore/agent.go:1483-1517 | however calls are cut and interleaved, exactly those calls come out in order |
| AgentLoop.Agent.CheckRepetition | agentcore/agent.go:1022-1101 | the text and tool detectors do what their specification says, and push its nudges |
| AgentLoop.Agent.TakeTurn | agentcore/agent.go:784-1021 | one turn, by how the provider, the hooks and the tools behave |
| AgentLoop.Agent.RunLoop | agentcore/agent.go:667-1126 | the nested loops end with the outcome, the turn count, the status and the notes of the specified run |
| AgentLoop.TurnBudget | agentcore/agent.go:667-708 | every run takes at most MaxTurns turns, follow-ups included, and exceeds them only after all |
| AgentLoop.LastTurnIsAnnounced | agentcore/agent.go:710-717 | the wrap-up instruction is sent exactly in runs that reach the last turn |
| RunOutcomes.OutcomeTellsLastTurn | agentcore/agent.go:667-1126 | in every run all turns but the last go on, and the last is of the kind the outcome tells: an output is the content of the last turn, which makes no calls and after which no follow-up waits |
| AgentLoop.LadderIsClimbed | agentcore/agent.go:1041-1057 | nudges of a kind are numbered from 0 without gap, and there are at most MaxAttempts |
| AgentLoop.GivesUpAtTheTop | agentcore/agent.go:811-830 | a run stopped for repetition had all the nudges of one kind |
| CallSignature.SignatureIgnoresOrder | agentcore/agent.go:1134-1141 | batches of the same calls have one signature, in whatever order |
| CallSignature.SignatureTellsApart | agentcore/agent.go:1128-1141 | batches whose texts hold no separator have one signature exactly when they are the same calls, each as often |
| CallSignature.ToldFromAllIff | agentcore/agent.go:1128-1141 | a batch is told from all others exactly when it is empty, or a single call whose text does not read as two |
| CallSignature.SignatureIsNotEmpty | agentcore/agent.go:1134-1141 | a batch with calls never has the empty signature that marks a fresh detector |
| CallSignature.SingleCallsDiffer | agentcore/agent.go:1128-1141 | single calls have one signature exactly when they are equal, when names hold no colon |
| CallSignature.BatchesMayCollide | agentcore/agent.go:1128-1141 | different batches with one signature: through a separator in the arguments, and through a colon in a name |
| RepetitionRecovery.NudgesAreEarned | agentcore/agent.go:1022-1101 | every nudge, and being stopped, follows three equal values in a row among the plain tool turns, or a stream error |
| RepetitionGaps.NudgesAnswerThreeTurnsIff | agentcore/agent.go:1022-1101 | in every run a nudge answers three consecutive turns exactly when the two turns before were executed tool turns, for texts with a text |
| RepetitionGaps.StopsAnswerThreeTurnsIff | agentcore/agent.go:1022-1101 | so does the turn in which a run is stopped for repetition, unless the stream itself repeated there |
| RepetitionGaps.NudgedAcrossGaps | agentcore/agent.go:1060-1101 | a run that is nudged though no two of the repeated turns are consecutive |
| RepetitionGaps.RepetitionIsNoticed | agentcore/agent.go:1022-1101 | in every run, of three turns that show the same value with none showing another in between, one is nudged or the run is stopped at the third |
| RepetitionRecovery.NudgesTakeTime | agentcore/agent.go:1022-1101 | attempt a of a detector never comes before turn 3(a + 1), however turns are mixed |
| RepetitionRecovery.StuckModelIsStopped | agentcore/agent.go:1060-1101 | a model that repeats one signature gets each attempt once and is stopped at turn 3(MaxAttempts + 1), whatever its texts; with fewer turns it uses them up |
| RepetitionRecovery.StuckNudgesAre | agentcore/agent.go:1060-1101 | those nudges come at turns 3, 6, 9 and so on |
| Pagination.ListTasks | a2a/v1.go:1065-1132 | checks size and token, sorts, filters and cuts one page |
| Pagination.SortPermutes | a2a/v1.go:1091-1097 | sorting neither loses nor doubles a task |
| Pagination.SortOrders | a2a/v1.go:1091-1097 | with unique IDs strictly ordered: latest update first, then by ID |
| Pagination.LessIff | a2a/v1.go:1091-1097 | the order of IDs is the lexicographic one |
| Pagination.CursorCuts | a2a/v1.go:1294-1298 | in an ordered list the cursor of a task leaves exactly what comes after it |
| Pagination.PageIsNext | a2a/v1.go:1106-1125 | a page holds the first tasks past the cursor and its token leaves the others |
| Pagination.PageReportsTotal | a2a/v1.go:1098-1131 | whatever the token, a page holds only tasks updated since the given time, at most as many as its size, and reports the number of all such tasks |
| Pagination.PagesPartition | a2a/v1.go:1065-1132 | following the tokens over a fixed set gives the sorted matching tasks, cut into full pages, in just as many pages as needed |
| Pagination.PageCountIsCeiling | a2a/v1.go:1115-1125 | that number is total over size, rounded up |
| Pagination.FollowChanging | a2a/v1.go:1065-1132 | while tasks come, go and change between requests nothing is listed twice in one version, and a task that stays is listed |
| TaskHistory.Server.AppendEvent | a2a/server.go:1209-1220 | numbers, trims and appends; the counter stays the total of all histories |
| TaskHistory.Server.RecordTask | a2a/server.go:1124-1171 | appends a snapshot and evicts whole dated tasks, each at least as old as all that stay, until the total fits or none is old enough, however the clock moves on; the last one to go had to |
| TaskHistory.Server.PublishTaskUpdate | a2a/server.go:1208-1222 | appends an update without evicting |
| TaskHistory.Server.PurgeOldTasks | a2a/server.go:359-400 | forgets exactly the tasks whose last known update is before the cutoff |
| TaskHistory.Server.Replay | a2a/server.go:1040-1052 | the retained entries after a number, all of them for none |
| TaskHistory.Server.SendReplay | a2a/server.go:1054-1063 | what is sent of them ends with the first final event |
| TaskHistory.AllIsSentIff | a2a/server.go:1054-1063 | what is sent ends with the first final event; nothing is withheld exactly when no event but the last is final |
| TaskHistory.Server.Shutdown | a2a/server.go:558-568 | drops all tasks and leaves the counter, which is then right only if it was zero |
| TaskHistory.AppendedKeeps | a2a/server.go:1129-1137 | a history stays a contiguous run of numbers ending at the last, within the maximal length |
| TaskHistory.AppendedTrims | a2a/server.go:1129-1137 | no more is trimmed than the maximal length asks for, and from the front |
| TaskHistory.ReplayIsSuffix | a2a/server.go:1040-1052 | replay after k > 0 is the retained suffix, and complete exactly when nothing after k was trimmed |
| TaskHistory.TotalOfUpdate | a2a/server.go:1139-1139 | how the total changes with one history |
| TaskHistory.ReplayIsRightIff | a2a/server.go:1040-1052 | over any history of appends, evictions and purges a client that saw number k gets every newer retained event exactly when the task was not forgotten, nothing is retained, or k is below all retained numbers |
| TaskHistory.PurgedNumberHidesEvent | a2a/server.go:359-400 | a server run in which a purged task comes back and its new event is not replayed |
| EventStream.Decoder.ReadLine | a2a/client.go:993-1004 | takes one line off the stream |
| EventStream.Decoder.Next | a2a/client.go:993-1037 | takes the lines of the next event off the stream |
| EventStream.DecodeUndoesPrint | a2a/server.go:1097-1121 | decoding printed events and heartbeats gives exactly those events in order |
| EventStream.CutStreamLosesOnlyTail | a2a/client.go:993-1037 | a stream cut at any character decodes to a prefix of its events |
| EventStream.NextReadsEvent | a2a/client.go:993-1037 | an event with any ID and kind, and a text of any number of lines, is read back |
| EventStream.ReturnsDoNotMatter | a2a/client.go:1007-1008 | lines may end with or without a carriage return |
| Converter.EventConverter.CloseActiveMessage | agui/converter.go:124-135 | ends the open text message, if any |
| Converter.EventConverter.CloseActiveThinking | agui/converter.go:137-157 | ends the open reasoning message and thinking block, if any |
| Converter.EventConverter.ConvertMessageDelta | agui/converter.go:431-464 | a text delta closes open reasoning and goes to the open or a new text message; a thinking delta goes to reasoning |
| Converter.EventConverter.ConvertThinkingDelta | agui/converter.go:475-505 | opens or continues a reasoning message |
| Converter.EventConverter.ConvertEvent | agui/converter.go:184-429 | one agent event to the AG-UI events it becomes |
| Converter.OutputIsWellBracketed | agui/converter.go:124-505 | over every input run the output passes the monitor for fresh IDs, open messages and nesting |
| Converter.NothingOpenAtBoundaries | agui/converter.go:184-429 | after any event but a run start, a failover notice or a delta nothing is open |
| Converter.IdsAreFresh | agui/converter.go:49-59 | a message ID is started once |
| Converter.RefersToOpenMessage | agui/converter.go:431-505 | content and ends come after the start of their message and before its end |
| Converter.EndsOnce | agui/converter.go:124-157 | a message ends at most once |
| Converter.TextIsConserved | agui/converter.go:431-505 | emitted text and reasoning are exactly what was received |
| Converter.EventsAreConserved | agui/converter.go:184-429 | run, turn, tool and other events of the input can be read off the output, with what they carry, once and in order |
| Converter.OneMessageEach | agui/converter.go:431-505 | each stretch of text becomes one message and each stretch of reasoning one phase |
| RateLimiter.Limiter.Allow | a2a/ratelimit.go:77-98 | answers by the address's bucket and changes no other |
| RateLimiter.Limiter.PurgeStale | a2a/ratelimit.go:65-74 | drops exactly the buckets older than the cleanup age |
| RateLimiter.RequestAtLevel | a2a/ratelimit.go:77-98 | admitted exactly at level 1 or more, which it lowers by 1 |
| RateLimiter.BucketFills | a2a/ratelimit.go:88-97 | x tokens at s are the smaller of the capacity and x plus rate times (u - s) at u, and decide the request at u |
| RateLimiter.SpacedRequestsGetIn | a2a/ratelimit.go:65-98 | in every run requests at least 1/rate apart are all admitted, whenever purges run |
| RateLimiter.PurgeAtLevel | a2a/ratelimit.go:65-74 | purging keeps a level when buckets refill within the cleanup age |
| RateLimiter.AdmittedAtMost | a2a/ratelimit.go:65-98 | requests admitted over [s, t] are at most the level at s plus rate times (t - s) |
| RateLimiter.SaneRunsBounded | a2a/ratelimit.go:65-98 | at most capacity plus rate times length, in every window of every run |
| RateLimiter.SameLevelSameAnswers | a2a/ratelimit.go:65-98 | runs with and without purges answer alike |
| RateLimiter.TransparentIff | a2a/ratelimit.go:65-74 | purging changes no answer exactly when buckets refill within the cleanup age |
| RateLimiter.PurgeDoublesBurst | a2a/ratelimit.go:65-74 | a purge past the cleanup age lets a second full burst in |
| RateLimiter.BoundedIff | a2a/ratelimit.go:65-98 | the bound holds in all runs exactly when the capacity is positive and buckets refill within the cleanup age |
| RateLimiter.FirstRequestGetsIn | a2a/ratelimit.go:81-87 | without capacity the first request is still admitted |
| Federation.SearchFederated | ard/federation.go:24-87 | asks each registry at most once, at most MaxRegistries, only within MaxHops referrals, nearest first; with no more referrals received than that number none before a nearer one, and with registries to spare all within reach; fails exactly with the base, and stops early only for the deadline or a referral that does not parse |
| Federation.ReachedAll | ard/federation.go:46-87 | everything nearer than all that waits was asked at its shortest distance; when nothing waits, all within reach |
| Federation.Follow | ard/federation.go:77-84 | the referrals of a registry below the hop limit are queued in order, and cut off only when the queue is full |

## Left out

- HTTP, WebSocket and stdio transport, JSON text, authentication, webhooks, logging and metrics: input and output only.
- Providers, summaries, embeddings, hooks and tool bodies: arbitrary parameters of the model.
- Aliasing of the data model's maps and slices: the update in place of a2ui/datamodel.go is modelled on values, so a caller that keeps a reference to the old tree is not modelled.
- Aliasing of message and block slices, for the same reason: MergeContentBlocks edits the caller's last block, and Compress shares elements with its input.
- Integer width: lengths, token counts, sequence numbers and turns are unbounded; floating point is `real`.
- SurfaceTree.ValidateSurfaceTree: component properties are given as their list of references and the catalog as a set of known types; how references are read out of properties (a2ui/surface.go:150-225) is not modelled.
- FileQueue.MutualExclusion: a function that panics inside WithFile keeps the lock; fn is assumed to return.
- RollingPool.StartsInModelOrder: the order in which goroutines reach OnStart is up to the scheduler and is not ordered by the pool; eligibility is an arbitrary predicate.
- Registering and removing handlers on the event bus: handling an event is one opaque action.
- EventBus.WaitersAreServed: says that no waiter is stuck, not that a fair scheduler serves it in bounded time; a drain on a full buffer spins.
- TaskHistory.Server.RecordTask: recording is one atomic step; the code takes its locks one after another.
- TaskHistory.Server.PublishTaskUpdate: the sends to subscribers that follow the append are modelled in Subscriber.
- TaskHistory.Server.SendReplay: does not cover the gap between replay and live events.
- EventStream.Decoder.Next: read errors other than the end of the stream are not modelled, and events hold no carriage return.
- AgentLoop.Agent.RunLoop: compaction, checkpoints and persisted messages appear only through how a turn goes; steering messages pushed by others are not in the notes. The tool turn's detectors and one pass of each loop are methods of their own.
- AgentLoop.Agent.TakeTurn: the exits of a turn are told apart by outcome and status, not by the error they report; texts come normalized; the normalization itself (agentcore/retry.go:72-80) is not modelled.
- Pagination.ListTasks: page tokens are decoded values; base64, JSON and time formats are taken to be injective. A zero filter time counts as no filter.
- Federation.SearchFederated: endpoints come parsed and normalized, and a registry answers the same whatever page token it is given.
- Offset paging of push configurations (a2a/v1.go:478-502), plain reachability in a compiled graph (graph/introspect.go:43-54) and the embedding cache (agentcore/tool_selection.go): easier relatives of Pagination, Federation and SurfaceTree.
- findCutPoint and pruneOldToolResults (agentcore/compaction.go), summary-based compaction and admission checks of the executor (agentcore/executor.go:155-364).
- Tool-call, role and capability conversions of agui/converter.go:507-620: they only build values.
- Converter.EventsAreConserved: of custom events only the name is modelled, not the value they carry.
