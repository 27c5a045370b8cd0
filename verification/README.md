# Socrates edge runtime: a verified model

Socrates splits a language model over the devices of a small cluster. This project models the five
components that have to be right for that to work, in Dafny 4.11, and proves what they promise over every
input, every run and every interleaving. Two smaller pieces of arithmetic that feed them are included.

| component | files | what is proved |
|---|---|---|
| Scheduler | `Scheduler`, `Placement`, `PlacementChoice`, `Coverage`, `WorstFit`, `AutoSplit` | which plans are produced, which node and backend each shard gets, that plans never overcommit a node, that layers are covered exactly once, when greedy placement cannot fail, that the automatic split is always acceptable |
| Pipeline | `PipelinePass`, `Pipeline`, `PipelineLaws`, `PipelineRuns`, `PipelineEnds`, `PipelineOutcomes`, `PipelineGeneration`, `PipelineProgress` | that a sharded pass computes the unsharded model, and exactly when it succeeds; what a worker left alone emits and which pass every emitted token comes from; that under every interleaving each request is in one place, launches follow the queue, event streams keep their grammar and end as they should, and the dispatcher alone empties the queue |
| Wire framing | `Crc`, `CrcPolynomial`, `Framing`, `FrameLayout` | that the checksum is the IEEE remainder, that a receiver accepts exactly encoded messages, that any stream of messages survives any cutting into partial reads, and that damage within four consecutive bytes is always noticed |
| Membership and election | `Membership`, `MembershipLaws`, `Election`, `ClusterRuns` | that every member holds what was last given for it, that revisions are versions, that the election never sees a rollback, exactly when a restart never reuses a term, and that the leader is the highest alive member |
| Assignment store | `Json`, `JsonRoundTrip`, `PlanTables`, `PlanOrder`, `TokenLog`, `TokenLoads`, `AssignmentStore` | exactly when a printed plan header parses back, what every history of failing and succeeding saves leaves in the tables, and what loads return |
| Catalogue | `Catalog` | that the context estimate is the longest window that fits the memory |

`Core` holds the shared vocabulary and `Sequences` sorting, sums and selections.

Code that changes things step by step is modelled by classes, methods and loops (`Connection`,
`InferencePipeline`, `BullyElection`, `MembershipService`, `SqliteAssignmentStore`, the scheduling loops).
Each method is proved to follow a specification function or relation, and the theorems are about runs of
those. Sorting is "some sorted permutation", and stable where the code's is, so no result depends on how else
ties are broken. Clocks, random tokens, plan ids, the cutting of the byte stream, the outcome of a pass and the
failure of an SQL statement are parameters that take every value.

`dafny verify dfyconfig.toml` checks everything.

## Where the code and its promises differ

Each of these is stated and proved: the exact condition under which the code does what is expected, and an
input or a run on which it does not.

- A plan lists its stages by layers, but they come back from the store in placement order
  (`PlanOrder.ScheduledPlanLoadsInPlacementOrder`). The order a pass needs survives exactly if in the input
  shards whose layers come first are more sensitive, or equally sensitive and listed first
  (`PlanOrder.ScheduledOrderKeptIff`, `PlanOrder.ScheduledPlanComesBackReversed`).
- The interface says that a load returns the most recently committed plan. It does so, header and stages,
  exactly if every other stored plan for the model and revision has a smaller term, no string of the header has
  a quote or a line break, and both unsigned numbers are below 2^63 (`PlanTables.LastSaveComesBackIff`). Between
  equal terms, which plans of one leadership share, either may be returned (`PlanTables.EqualTermsMayLoadOlder`).
- Terms are compared as signed numbers, so the greatest is loaded exactly if they do not lie on both sides of
  2^63 (`PlanTables.GreatestTermIff`, `PlanTables.StraddlingTermsLoadSmaller`).
- Stages are looked up under the plan id parsed from the header text, so a plan gets its own stages back
  exactly if its id has no quote and no line break (`PlanTables.StagesRestoredIff`,
  `PlanTables.LosesStages`).
- Extraction stops at the first quote even if it is escaped, and a line break comes back as the letter n, so
  a string survives exactly if it has neither (`JsonRoundTrip.ValueRestoredIff`, `JsonRoundTrip.QuotedIsCut`).
- A failed save leaves nothing on disk, but if its rollback fails as well the connection goes on seeing the
  plan row that was written and no later save succeeds (`AssignmentStore.SqliteAssignmentStore.SavePlan`).
- A token append whose position query fails while it is stepped is not checked at all
  (`TokenLog.StepKeepsContiguousIff`, `TokenLog.UnansweredCheckLeavesGap`).
- A range load compares positions and the count as signed numbers. Whatever is stored, it returns what was asked
  for exactly if nothing lies on the other side of 2^63 from the start or the count is reached before that
  matters, and a count of 2^31 or more does not cut (`TokenLoads.LoadAfterRunIff`, `TokenLoads.IgnoredBounds`).
- If earlier answers of the store were at least every term announced until then, starting an election never
  leads to a reused term exactly if this answer is, too (`ClusterRuns.RestartIsSafeIff`). A store that keeps what it is given qualifies
  (`ClusterRuns.FaithfulStoreCovers`); the runtime's own store always answers zero
  (`ClusterRuns.ForgetfulStoreReusesTerms`).
- A stream is documented to end in one terminal event. A request that is over got exactly one, unless it was
  dropped, which happens only after a stop request (`PipelineEnds.TerminalIffNotDropped`,
  `PipelineEnds.CancelledRequestIsDroppedSilently`).
- `Completed` means that all tokens were produced, unless a stop was requested
  (`PipelineRuns.CompletedMeansFull`); then it can come after any number (`PipelineEnds.StopCompletesEarly`).
- An iteration of the dispatcher shortens a non-empty queue exactly if the mode is not immediate and it can take
  a request alone or the batch limit is positive (`PipelineRuns.IterationShortensIff`, `PipelineEnds.ZeroLimitStalls`).
- The code's frame buffer ends before the checksum, and that buffer is sent: such a frame is accepted exactly if
  the next four bytes on the stream happen to be its checksum (`Framing.AsSentAcceptedIff`,
  `Framing.AsSentBackToBack`).
- The bound on the method length is right exactly if the length field is below 2^32 - 4
  (`Framing.GuardIsRightIff`, `Framing.GuardPassesHugeLength`).

## Model

| member | source | states |
|---|---|---|
| Crc.ComputeCrc32 | src/transport/grpc_transport.cpp:89-98 | the shift-and-xor loop over a buffer computes the checksum, which is the IEEE remainder by `CrcPolynomial.ChecksumIsRemainder` |
| Crc.RoundInjective | src/transport/grpc_transport.cpp:93-95 | one shift-xor round loses no information |
| Crc.StateKeepsDifference | src/transport/grpc_transport.cpp:91-96 | registers that differ keep differing, whatever common data follows |
| Crc.StateOfShortData | src/transport/grpc_transport.cpp:91-96 | at most four bytes act on the register as one 32-bit word xored in before all their rounds |
| Crc.BurstChangesChecksum | src/transport/grpc_transport.cpp:89-98 | strings of equal length that differ only within four consecutive bytes never share a checksum |
| Crc.ChecksumHoldsIffResidue | src/transport/grpc_transport.cpp:247-249 | a trailer is the checksum of the data exactly if data and trailer together leave one fixed register value |
| CrcPolynomial.PolynomialIsGenerator | src/transport/grpc_transport.cpp:94 | the constant of the code is the IEEE generator with exponents 32, 26, 23, 22, 16, 12, 11, 10, 8, 7, 5, 4, 2, 1, 0, reflected |
| CrcPolynomial.DivisionIsFold | src/transport/grpc_transport.cpp:91-96 | long division of a message shifted up by 32 can be done bit by bit on 32 coefficients |
| CrcPolynomial.StateIsRemainder | src/transport/grpc_transport.cpp:91-96 | for every start value and every data the register is the reflected remainder of the data, shifted up by 32 with the start value added, by the generator |
| CrcPolynomial.ChecksumIsRemainder | src/transport/grpc_transport.cpp:89-98 | the checksum is the complement of the remainder of the data with its first 32 bits complemented |
| CrcPolynomial.ResidueOfChecked | src/transport/grpc_transport.cpp:247-249 | a trailer is the checksum exactly if data and trailer leave the register at 0xDEBB20E3 |
| CrcPolynomial.CheckValue | src/transport/grpc_transport.cpp:89-98 | the checksum of the nine digits is 0xCBF43926, the check value of the standard |
| Framing.FieldRoundTrip | src/transport/grpc_transport.cpp:100-124 | reading back a little-endian field returns the value written, for every width and every value that fits |
| Framing.ChecksumRoundTrip | src/transport/grpc_transport.cpp:141-142 | the checksum written byte by byte reads back as the same register |
| Framing.EncodeFrame | src/transport/grpc_transport.cpp:127-144 | the buffer filled in place is magic, length, type, sequence, deadline, payload and the checksum of all of it |
| Framing.HeaderFields | src/transport/grpc_transport.cpp:219-227 | every header field of a frame decodes to what was encoded |
| FrameLayout.FieldIsEncoded | src/transport/grpc_transport.cpp:100-124 | every byte string is the little-endian encoding of the value it reads as |
| FrameLayout.WireLayout | src/transport/grpc_transport.cpp:127-144 | byte for byte: the magic letters, and at offsets 4, 8, 12, 20 and 28 the length, type, sequence number, deadline and payload, then the checksum of all of it |
| Framing.Connection.ReadFully | src/transport/grpc_transport.cpp:210-217 | however the stream is cut into partial reads, the loop gets exactly the next bytes, or fails exactly if there are too few |
| Framing.Connection.RecvFrame | src/transport/grpc_transport.cpp:206-250 | the receive call, over any cutting of the stream, accepts, rejects and consumes as the cut-independent receiver does |
| Framing.ReceiveWire | src/transport/grpc_transport.cpp:206-250 | a sent frame at the head of a stream is accepted whole and exactly its payload plus 32 bytes are consumed |
| FrameLayout.AcceptedIffEncoded | src/transport/grpc_transport.cpp:206-250 | for every byte stream: a receive call succeeds exactly if the stream starts with the encoding of some message of at most 64 MiB |
| FrameLayout.RefusalLeaves | src/transport/grpc_transport.cpp:219-245 | where a refused call leaves the stream: at its end, after the header, or after the trailer |
| Framing.StreamRoundTrip | src/transport/grpc_transport.cpp:127-144 | for every list of messages of at most 64 MiB, repeated receive calls recover exactly those messages in order |
| Framing.EnvelopeSplits | src/transport/grpc_transport.cpp:711-722 | the length-prefixed method envelope splits back into method name and payload |
| Framing.RequestsRoundTrip | src/transport/grpc_transport.cpp:484-502 | end to end: the server hands on exactly the requests that were sent, with their sequence numbers, in order |
| FrameLayout.RequestsHaveTypeZero | src/transport/grpc_transport.cpp:484-502 | a request travels as message type 0 |
| FrameLayout.OtherTypesAreIgnored | src/transport/grpc_transport.cpp:710-711 | a frame of any other type is never handed on as a request |
| Framing.Connection.Serve | src/transport/grpc_transport.cpp:691-745 | the server loop over any cutting of the stream hands on exactly the requests for registered methods, in order |
| Framing.GuardIsRightIff | src/transport/grpc_transport.cpp:714-717 | the bound on the method length, added in 32 bits, decides whether the name lies in the payload exactly if the length is below 2^32 - 4 |
| Framing.GuardPassesHugeLength | src/transport/grpc_transport.cpp:716-717 | for every length from 2^32 - 4 up, a payload that passes the bound although the name does not fit |
| Framing.AsSentAcceptedIff | src/transport/grpc_transport.cpp:131-143 | the buffer as the code sizes and sends it is accepted exactly if the next four bytes of the stream are its checksum |
| Framing.AsSentBackToBack | src/transport/grpc_transport.cpp:499-503 | as sent, a frame alone is refused, and one followed by another is accepted exactly if its checksum is the magic number |
| Framing.TruncationRejected | src/transport/grpc_transport.cpp:215-245 | a frame whose stream ends early is never accepted |
| Framing.BurstRejected | src/transport/grpc_transport.cpp:219-249 | damage within four consecutive bytes that leaves the length field alone is always rejected: in the header, payload, checksum or across them |
| Scheduler.FindCompatibleBackend | src/scheduler/memory_scheduler.cpp:31-59 | the nested scans find the first compatible offer or none |
| Scheduler.FirstCompatibleIsFirst | src/scheduler/memory_scheduler.cpp:36-57 | the answer is the kind of an offer that meets both lists, and no offer before it does; without an answer none does |
| Scheduler.CompatibleIff | src/scheduler/memory_scheduler.cpp:38-56 | an offer meets the lists exactly if its kind is listed and it has a required unit, an empty list asking for nothing |
| Scheduler.EstimateIsFirstUsable | src/scheduler/memory_scheduler.cpp:70-85 | the first benchmark for backend and quantization with a rate or a latency decides, the rate first; without one the shard's own estimate stands |
| Scheduler.BuildNodeSlots | src/scheduler/memory_scheduler.cpp:101-113 | one slot for each alive member with a profile, with its available memory |
| Scheduler.ChooseSlot | src/scheduler/memory_scheduler.cpp:241-266 | with links the node used last is tried first; then the first slot that fits |
| Scheduler.PlaceShard | src/scheduler/memory_scheduler.cpp:197-273 | a placement step on some sorted arrangement of the slots, or none possible on one |
| Scheduler.CheckLayers | src/scheduler/memory_scheduler.cpp:276-308 | the verdict of the contiguity walk over some sorted arrangement of the ranges |
| Scheduler.ScheduleCore | src/scheduler/memory_scheduler.cpp:149-314 | every answer is the outcome of a run of placement steps over a sensitivity order of the shards; which inputs are refused without shards and without members; a plan carries the input's model, revision, fence and boundaries and is valid for five minutes |
| Scheduler.CreatePlan | src/scheduler/memory_scheduler.cpp:324-329 | the same from the membership snapshot |
| Placement.RunIsBalanced | src/scheduler/memory_scheduler.cpp:184-274 | in every state of every run, per node: reserved plus remaining equals available, through every re-sort |
| Placement.StagesArePermutationOfShards | src/scheduler/memory_scheduler.cpp:219-236 | the stages are exactly the shards, each once, with the bytes it requires |
| Placement.OrdinalsArePermutation | src/scheduler/memory_scheduler.cpp:220 | the ordinals are 0 to n-1 in some order |
| Placement.NoOvercommit | src/scheduler/memory_scheduler.cpp:211-217 | on no node do the stages of a plan reserve more than it offered |
| Placement.EveryStageIsSupported | src/scheduler/memory_scheduler.cpp:213-229 | each stage runs on an alive profiled member, on the first of its offers that meets the shard's backend and compute-unit lists, with the estimate for it |
| Placement.ExhaustedMeansNothingFits | src/scheduler/memory_scheduler.cpp:268-273 | a resource-exhausted error names a shard that no slot could take at that point |
| PlacementChoice.StepChoosesBest | src/scheduler/memory_scheduler.cpp:197-266 | with links a node used last that can take the shard gets it; otherwise no node that can take it has more memory left; that node alone pays exactly the shard's need |
| PlacementChoice.RunChoosesBest | src/scheduler/memory_scheduler.cpp:184-274 | so does every placement of every run, for every input with unique node ids |
| PlacementChoice.UnlayeredFirst | src/scheduler/memory_scheduler.cpp:310-311 | in a plan the stages without layers come first |
| Coverage.AcceptedIffTiling | src/scheduler/memory_scheduler.cpp:289-307 | for forward ranges the walk accepts exactly if every layer lies in exactly one range and none outside |
| Coverage.ExactCoverage | src/scheduler/memory_scheduler.cpp:276-308 | if any shard has layers, every layer of a plan lies in exactly one stage, even with empty or backward input ranges |
| Coverage.LayerVerdictIffPartition | src/scheduler/memory_scheduler.cpp:184-308 | forward layered input: no plan unless the ranges partition the model, and no refusal other than memory if they do |
| Coverage.ComplaintIsFirst | src/scheduler/memory_scheduler.cpp:289-307 | the walk complains about the first range that does not start where the one before ended, naming both, or about the end |
| Coverage.DuplicatesAreRefused | src/scheduler/memory_scheduler.cpp:185-195 | a range is refused as a duplicate only if two shards have it, and in a planned input no two do |
| WorstFit.RichestIsChosen | src/scheduler/memory_scheduler.cpp:198-201 | with all nodes compatible and no links, a shard goes to a node of greatest remaining memory |
| WorstFit.SpreadStaysBounded | src/scheduler/memory_scheduler.cpp:183-274 | in every state of every run the gap between richest and poorest node stays within the larger of the initial gap and the largest requirement |
| WorstFit.PoolShrinksByNeed | src/scheduler/memory_scheduler.cpp:217 | after n placements the pooled memory is the initial pool less what the first n shards need |
| WorstFit.EnoughSlackNeverExhausts | src/scheduler/memory_scheduler.cpp:183-274 | placement cannot fail for memory if the pool exceeds the total need by (nodes - 1) times one byte less than the largest requirement |
| WorstFit.SlackIsTight | src/scheduler/memory_scheduler.cpp:268-273 | for every node count and requirement there is an input one byte short of that slack on which planning always fails |
| AutoSplit.GenerateShards | src/runtime/edge_runtime.cpp:522-549 | the two loops and the correction give the i-th eligible member the i-th share of the layers and the last one the rest |
| AutoSplit.EligibleAreAlive | src/runtime/edge_runtime.cpp:522-524 | eligible are exactly the alive members with a profile, in order |
| AutoSplit.GeneratedShards | src/runtime/edge_runtime.cpp:525-536 | each shard asks for half of its member's available memory, the CPU and the llama.cpp backend, under names made from its id |
| AutoSplit.SplitIsEven | src/runtime/edge_runtime.cpp:538-549 | every shard gets the quotient of layers by shards, in order, and the last one the remainder on top |
| AutoSplit.SplitIsPartition | src/runtime/edge_runtime.cpp:538-549 | with 1 to T eligible members the ranges are non-empty and partition the T layers |
| AutoSplit.SplitIsAccepted | src/runtime/edge_runtime.cpp:515-552 | planning an automatic split answers with a plan or resource exhaustion, never with a layer error; there are as many shards as slots |
| AutoSplit.TooManyMembersFails | src/runtime/edge_runtime.cpp:538-552 | with more members than layers, and at least three, planning always fails |
| AutoSplit.OneShardPerSlot | src/runtime/edge_runtime.cpp:522-536 | there are as many shards as slots, each slot that of the eligible member in its place with its available memory |
| PipelinePass.ExecutePass | src/pipeline/inference_pipeline.cpp:676-721 | the stage loop answers and hands on as the two functions say that the next four results are about |
| PipelinePass.PassFollowsStages | src/pipeline/inference_pipeline.cpp:676-721 | each stage is handed what the one before it put out, until the last stage, a stop or a failing stage |
| PipelinePass.PassSucceedsIff | src/pipeline/inference_pipeline.cpp:676-721 | a pass succeeds exactly if there is a stage, no stop is seen before any stage and every stage succeeds on what it is handed; it then carries the last stage's token |
| PipelinePass.PassFailsWithFirst | src/pipeline/inference_pipeline.cpp:676-721 | otherwise it answers with the first failing stage's own error, or as cancelled at the first stop |
| PipelinePass.UnstoppedPassCompletes | src/pipeline/inference_pipeline.cpp:676-721 | a pass that is not stopped and whose stages answer completes |
| PipelinePass.HandedIsPrefix | src/pipeline/inference_pipeline.cpp:686-717 | in a sequence of adjoining stages, each stage that runs is handed the result of all layers before its own |
| PipelinePass.PlanIsInSequence | src/scheduler/memory_scheduler.cpp:276-313 | every successful plan of layered shards lists adjoining stages from layer 0 to the last, whatever the placement order was |
| PipelinePass.ShardingPreservesMeaning | src/pipeline/inference_pipeline.cpp:676-721 | for every plan of forward layered shards: every stage is handed the result of the layers before its own; a pass that is not stopped and whose stages answer completes; a completed pass has computed all layers of the model in order, however it was sharded and placed |
| Pipeline.InferencePipeline.AdmitRequest | src/pipeline/inference_pipeline.cpp:177-189 | the first part of a generate call is the admission step of the state machine |
| Pipeline.InferencePipeline.PushRequest | src/pipeline/inference_pipeline.cpp:191-198 | the queue push is one step |
| Pipeline.InferencePipeline.RemoveFromQueue | src/pipeline/inference_pipeline.cpp:325-340 | cancelling a queued request is one step: it leaves the queue with a failure event, others keep their order |
| Pipeline.InferencePipeline.CollectBatch | src/pipeline/inference_pipeline.cpp:427-482 | the first critical section of a dispatcher iteration, up to the timed wait, is one step |
| Pipeline.InferencePipeline.CollectAfterWait | src/pipeline/inference_pipeline.cpp:474-484 | the critical section after the timed wait is one step |
| Pipeline.InferencePipeline.DispatchNextRequest | src/pipeline/inference_pipeline.cpp:488-500 | launching one collected request, or dropping it if it was cancelled meanwhile, is one step |
| PipelineLaws.AdmissionFollowsMode | src/pipeline/inference_pipeline.cpp:177-189 | in immediate mode a request starts at once; otherwise it is announced as queued and waits; no other request changes |
| PipelineLaws.RemovalFails | src/pipeline/inference_pipeline.cpp:325-340 | a cancelled request still in the queue leaves it with a failure event, and the others keep their order |
| PipelineLaws.RemovalOfGone | src/pipeline/inference_pipeline.cpp:325-340 | cancelling a request that is no longer queued leaves the queue and every stream alone |
| PipelineLaws.ConfigIsSet | src/pipeline/inference_pipeline.cpp:129-131 | a new configuration replaces the old one and nothing else |
| PipelineLaws.GatherFills | src/pipeline/inference_pipeline.cpp:458-465 | collecting takes a prefix of short requests, the active ones in order, and stops only at a full batch, an empty queue or a long request |
| PipelineLaws.CollectLaw | src/pipeline/inference_pipeline.cpp:427-469 | the first critical section: nothing in immediate mode, one request alone in serial mode or if the first is long, otherwise as much as can be collected |
| PipelineLaws.CollectMoreLaw | src/pipeline/inference_pipeline.cpp:469-484 | the section after the wait fills the batch up as far as possible and sends it on |
| PipelineLaws.DispatchLaw | src/pipeline/inference_pipeline.cpp:488-500 | a collected request is launched with a Started event, or dropped without one if it was cancelled; no other request changes |
| PipelineLaws.BatchesUseSnapshots | src/pipeline/inference_pipeline.cpp:435-436 | in every run each batch was collected under a configuration that was current before |
| Pipeline.RunGeneration | src/pipeline/inference_pipeline.cpp:727-806 | the generation loop, with any interference before each read of the flags, is a trace of worker steps that ends finished; the token at position i is the one its pass produced |
| PipelineRuns.RunKeepsInvariant | src/pipeline/inference_pipeline.cpp:421-500 | under every interleaving of generate, cancel, configuration, dispatcher and worker steps the queue, placement, batch and stream invariants hold |
| PipelineRuns.ExactlyOnePlace | src/pipeline/inference_pipeline.cpp:325-500 | each enqueued request is in exactly one of launched, in hand, pending, removed, dropped; and is launched at most once |
| PipelineRuns.LaunchesFollowQueue | src/pipeline/inference_pipeline.cpp:421-500 | launches happen in the order of enqueuing |
| PipelineRuns.BatchesAreShort | src/pipeline/inference_pipeline.cpp:448-482 | no batch exceeds the size limit of the configuration it was collected under or holds a long-context request |
| PipelineRuns.IterationShortensIff | src/pipeline/inference_pipeline.cpp:435-467 | an iteration on a non-empty queue shortens it exactly if the mode is not immediate and a request can be taken alone or the batch limit is positive |
| PipelineRuns.StreamsFollowGrammar | src/pipeline/inference_pipeline.cpp:342-381 | every stream is at most one Queued, then Started, tokens 0 to k-1 equal to the token history, k within the maximum, at most one terminal event numbered k, nothing after |
| PipelineRuns.CompletedMeansFull | src/pipeline/inference_pipeline.cpp:727-806 | a Completed event carries the number of tokens, and that is the maximum unless a stop was requested |
| PipelineRuns.TraceKeepsStream | src/pipeline/inference_pipeline.cpp:727-806 | every trace of a worker with any interference keeps the stream grammar it was opened with |
| PipelineEnds.TerminalIffNotDropped | src/pipeline/inference_pipeline.cpp:325-381 | in every interleaving, a terminal event was sent exactly to the requests that are over and not dropped, as their last event and only terminal one; a dropped request had been asked to stop |
| PipelineEnds.CancelledRequestIsDroppedSilently | src/pipeline/inference_pipeline.cpp:461 | a run in which a request cancelled in the queue is dropped with no event but Queued |
| PipelineEnds.StopCompletesEarly | src/pipeline/inference_pipeline.cpp:731-750 | for every maximum and every smaller count, a run in which a stop request makes the stream complete after that many tokens |
| PipelineOutcomes.AloneLeaves | src/pipeline/inference_pipeline.cpp:731-750 | a worker left alone completes a stopped or full request and fails an inactive one, with no further token |
| PipelineOutcomes.AloneProduces | src/pipeline/inference_pipeline.cpp:727-806 | otherwise it emits the token of every pass until the first that fails, and fails there; if none fails it completes with the maximum |
| PipelineOutcomes.UndisturbedCompletes | src/pipeline/inference_pipeline.cpp:727-806 | a request that is never cancelled and whose passes all yield a token ends in Completed with exactly those tokens |
| PipelineOutcomes.StepMovesOneWorker | src/pipeline/inference_pipeline.cpp:421-500 | in every reachable state a step leaves every worker and history alone except its own |
| PipelineOutcomes.TokenHasPass | src/pipeline/inference_pipeline.cpp:765-803 | in every run the token at position i of a history was yielded by the pass that ran when i tokens were there |
| PipelineOutcomes.TerminalHasCause | src/pipeline/inference_pipeline.cpp:727-806 | in every run a finished stream ends in Completed exactly if no pass failed and the request was active when its worker left the loop, otherwise in Failed |
| PipelineGeneration.WorkerFollowsPasses | src/pipeline/inference_pipeline.cpp:757-806 | a worker over the passes of a plan emits the token of each pass, or its position if the pass has none, until the first pass that fails, and fails there; if none fails it completes |
| PipelineGeneration.GenerationComputesModel | src/pipeline/inference_pipeline.cpp:676-806 | across scheduler, pass and worker: for every plan of forward layered shards an undisturbed request completes with its maximum of tokens, each from a last stage that computed the whole model on the inputs of its pass |
| PipelineEnds.ZeroLimitStalls | src/pipeline/inference_pipeline.cpp:457-467 | a run after which, with batch limit zero, a dispatcher iteration on a non-empty queue changes nothing |
| PipelineProgress.DispatcherDrainsQueue | src/pipeline/inference_pipeline.cpp:421-500 | from every reachable state, serial or with a positive limit, a bounded number of dispatcher steps alone empties the queue and launches exactly the requests still active, in order |
| PipelineProgress.WorkerFinishes | src/pipeline/inference_pipeline.cpp:727-806 | whatever its passes yield, a worker left alone finishes within three steps for each token left and three more |
| Election.HighestIsHighest | src/cluster/bully_election.cpp:49-62 | the candidate is an alive id with none above it, and there is none exactly if nobody is alive |
| Election.MaxAlive | src/cluster/bully_election.cpp:49-62 | collecting and maximising finds that candidate |
| Election.LessIff | src/cluster/bully_election.cpp:49-62 | ids are compared letter by letter, a prefix being smaller |
| Election.SnapshotLaw | src/cluster/bully_election.cpp:47-83 | an accepted snapshot with another highest id gives it the next term, stored before it is announced, a fence with term, token and revision, and a lease of thirty seconds; otherwise term, fence and lease stay |
| Election.RefusalLaw | src/cluster/bully_election.cpp:40-46 | a stopped election and an older revision change nothing |
| Election.BullyElection.Start | src/cluster/bully_election.cpp:22-38 | starting takes over the stored term and is refused while running |
| Election.BullyElection.UpdateMembership | src/cluster/bully_election.cpp:40-84 | a snapshot moves state, stored terms and announcements by the specification's step; older revisions are refused |
| Membership.MembershipService.Start | src/cluster/membership_service.cpp:30-44 | starting is refused exactly while running |
| Membership.MembershipService.Stop | src/cluster/membership_service.cpp:110-119 | a stopped service refuses sightings but still has its callback |
| Membership.MembershipService.ObservePeer | src/cluster/membership_service.cpp:46-78 | refused exactly unless running; otherwise a sighting changes the table and, through the callback, the election, as the composed step says |
| Membership.MembershipService.SetCapability | src/cluster/membership_service.cpp:80-90 | a profile is given as the specification's step says, which stores it with its member by `MembershipLaws.OperationLaw`, and fails exactly if there is none |
| Membership.MembershipService.SetModels | src/cluster/membership_service.cpp:92-99 | model presence replaces that of every member and emits a snapshot |
| Membership.MembershipService.SetLocalRole | src/cluster/membership_service.cpp:137-145 | a role change emits exactly if the role differs |
| Membership.MembershipService.PromoteJoiningMembers | src/cluster/membership_service.cpp:121-135 | all joining members become alive, with one new revision if there was one |
| Membership.MembershipService.Liveness | src/cluster/membership_service.cpp:173-194 | a tick suspects every alive member unseen for more than ten whole seconds, one revision each, and emits nothing |
| MembershipLaws.OperationLaw | src/cluster/membership_service.cpp:46-194 | field by field what each operation does to each member: identity, state, role, profile, models and last sighting change exactly as named and stay otherwise; a tick suspects an alive member exactly from eleven seconds on |
| MembershipLaws.JoinLaw | src/cluster/membership_service.cpp:46-78 | a newcomer joins exactly on an authenticated sighting of an unknown id by a running service, as a leech with no profile and no models |
| MembershipLaws.RevisionLaw | src/cluster/membership_service.cpp:46-194 | an operation that takes effect raises the revision by one and emits; a tick raises it by one for each member it suspects and emits nothing |
| MembershipLaws.MembersHoldWhatWasGiven | src/cluster/membership_service.cpp:46-145 | in every state of every run each member holds the profile, models and role last given for it since it joined, and the time it was last seen |
| MembershipLaws.StoppedServiceSeesNobody | src/cluster/membership_service.cpp:110-119 | in every run, until it is started again a stopped service takes up nobody and suspects nobody |
| MembershipLaws.StoppedElectionIsSilent | src/cluster/bully_election.cpp:94-97 | in every run, until it is started again a stopped election stores and announces nothing |
| ClusterRuns.RevisionIsVersion | src/cluster/membership_service.cpp:46-145 | in the life of a service revisions never fall and equal revisions mean equal tables |
| ClusterRuns.TableStaysGood | src/cluster/membership_service.cpp:46-78 | ids stay unique and non-empty, each was authenticated on first sight, and members are only ever joining, alive or suspect |
| ClusterRuns.ChangeAllowsMoves | src/cluster/membership_service.cpp:46-194 | a step moves members only from joining to alive and between alive and suspect |
| ClusterRuns.MembersKeepPlace | src/cluster/membership_service.cpp:46-145 | in the life of a service members keep their place and identity |
| ClusterRuns.AliveWasSeenRecently | src/cluster/membership_service.cpp:173-194 | with a clock that never goes back and ticks at most d apart, every alive member was last seen less than 11 s + d ago |
| ClusterRuns.AcceptedLeaderStands | src/cluster/bully_election.cpp:47-83 | after each accepted snapshot the leader is the highest alive id, or none if nobody is alive |
| ClusterRuns.LeaseIsNotRenewed | src/cluster/bully_election.cpp:64-81 | as long as a leader stays, its lease and fence are those of its election, however often it is confirmed |
| ClusterRuns.NeverARollback | src/runtime/edge_runtime.cpp:62-69 | composed with the membership service the election never sees a revision rollback |
| ClusterRuns.AliveLeaderIsHighest | src/runtime/edge_runtime.cpp:62-69 | at every point after the first snapshot a leader that is still alive is the highest alive id, although ticks change the table silently |
| ClusterRuns.ElectionIsSafe | src/cluster/bully_election.cpp:22-84 | over whole runs, with new elections and reboots of the whole runtime, if the answers at each start cover what was announced: terms never decrease, a term determines leader and token, and each announced term was stored before |
| ClusterRuns.FaithfulStoreCovers | src/cluster/bully_election.cpp:34-37 | a store that keeps what it is given always gives such answers |
| ClusterRuns.RestartIsSafeIff | src/cluster/bully_election.cpp:22-84 | from every state reached with covering answers, starting an election on an answer of the store stays safe in every continuation exactly if this answer, too, is at least every announced term |
| ClusterRuns.ReusesTerm | src/cluster/bully_election.cpp:67-79 | from every state started on a lower answer, a path on which a term is announced again or undercut |
| ClusterRuns.ForgetfulStoreReusesTerms | src/runtime/edge_runtime.cpp:151-163 | with a store that always answers zero a rebooted runtime announces term one again with another token |
| Json.JsonEscape | src/persistence/sqlite_assignment_store.cpp:20-40 | the loop escapes character by character |
| Json.JsonExtractString | src/persistence/sqlite_assignment_store.cpp:43-65 | find, scan to the quote and unescape yield what the extraction function says for every text and key |
| Json.JsonExtractInt | src/persistence/sqlite_assignment_store.cpp:68-82 | find, skip blanks and convert yield what the extraction function says |
| Json.AfterIsFirst | src/persistence/sqlite_assignment_store.cpp:45-50 | a key search finds the first occurrence, or none exactly if there is none |
| Json.ParseExamples | src/persistence/sqlite_assignment_store.cpp:78-81 | concrete numbers: signs and white space are taken, no digit is no number |
| JsonRoundTrip.ClampIsNearest | src/persistence/sqlite_assignment_store.cpp:79 | a number beyond 64 signed bits becomes the nearer end of the range |
| JsonRoundTrip.DecimalDigits | src/persistence/sqlite_assignment_store.cpp:98 | concrete numbers are printed in decimal |
| JsonRoundTrip.MillisecondsAreCut | src/persistence/sqlite_assignment_store.cpp:85-88 | the issue time is cut to whole milliseconds towards zero |
| JsonRoundTrip.HeaderLayout | src/persistence/sqlite_assignment_store.cpp:84-109 | the printed header, name by name and separator by separator |
| JsonRoundTrip.PlanToJson | src/persistence/sqlite_assignment_store.cpp:84-109 | the text appended part by part is the list of fields that the theorems are about |
| JsonRoundTrip.ValueRestoredIff | src/persistence/sqlite_assignment_store.cpp:20-65 | for one string escape-then-extract is the identity exactly if it has no quote and no line break |
| JsonRoundTrip.QuotedIsCut | src/persistence/sqlite_assignment_store.cpp:51-52 | a string with a quote is never restored |
| JsonRoundTrip.FindKey | src/persistence/sqlite_assignment_store.cpp:45-50 | a key search finds its own field and no other, whatever the values before it are |
| JsonRoundTrip.TextRestoredIff | src/persistence/sqlite_assignment_store.cpp:43-65 | in every list of fields with different names a string comes back exactly if it has no quote and no line break, whatever the other fields are |
| JsonRoundTrip.NumberRestored | src/persistence/sqlite_assignment_store.cpp:68-82 | and a number comes back saturated at the signed range, whatever the other fields are |
| JsonRoundTrip.StringsRestoredIff | src/persistence/sqlite_assignment_store.cpp:84-133 | for every header each of the four strings comes back exactly if it has no quote and no line break |
| JsonRoundTrip.NumbersParsed | src/persistence/sqlite_assignment_store.cpp:84-133 | for every header the numbers come back saturated at the signed range, and the issue time to the millisecond |
| JsonRoundTrip.HeaderRestoredIff | src/persistence/sqlite_assignment_store.cpp:84-133 | print-then-parse restores the header exactly if the strings are restorable and both unsigned numbers are below 2^63 |
| PlanTables.TablesHoldLastSaved | src/persistence/sqlite_assignment_store.cpp:211-297 | after any run of saves, under each id the tables hold exactly the rows of the plan last committed under it |
| PlanTables.TablesAreConsistent | src/persistence/sqlite_assignment_store.cpp:211-297 | every plan row is a last committed plan, ids are unique, and every stage row belongs to a stored plan |
| PlanTables.StoredColumns | src/persistence/sqlite_assignment_store.cpp:231-244 | each column of a plan row is that of the plan last committed under its id |
| PlanTables.StoredStageColumns | src/persistence/sqlite_assignment_store.cpp:265-284 | each stage row carries id and model of a stored plan and the columns of one of its stages |
| PlanTables.NewestRowIsNewestSaved | src/persistence/sqlite_assignment_store.cpp:309-323 | the rows the plan query may answer with are exactly those of committed plans of greatest term |
| PlanTables.LoadReturnsNewestSaved | src/persistence/sqlite_assignment_store.cpp:301-354 | a load returns a stored plan of greatest fence term with exactly its saved stage columns by ordinal, and its own header exactly if that is restorable |
| PlanTables.IdRestoredIff | src/persistence/sqlite_assignment_store.cpp:325 | the parsed id is the plan's own exactly if it has no quote and no line break |
| PlanTables.StagesRestoredIff | src/persistence/sqlite_assignment_store.cpp:325-351 | a plan gets its own stages back from every load that finds its row, in every store, exactly if its id has no quote and no line break |
| PlanTables.LosesStages | src/persistence/sqlite_assignment_store.cpp:325-351 | for every other id, a store in which a load may find the row of the plan and returns the stages of another plan |
| PlanTables.GreatestTermIff | src/persistence/sqlite_assignment_store.cpp:311-314 | the loaded term is the greatest exactly if the stored terms do not lie on both sides of 2^63 |
| PlanTables.StraddlingTermsLoadSmaller | src/persistence/sqlite_assignment_store.cpp:311-314 | of any two plans with terms on both sides of 2^63 the one with the smaller term is loaded |
| PlanTables.OnlyAnswerIff | src/persistence/sqlite_assignment_store.cpp:309-323 | at any point a stored plan is the only possible answer exactly if every other one for its model and revision has a smaller term |
| PlanTables.LastSaveIsLoadedIff | src/persistence/sqlite_assignment_store.cpp:309-323 | the row of the plan saved last is the one every load finds exactly if every other stored plan for its model and revision has a smaller term |
| PlanTables.ComesBackIff | src/persistence/sqlite_assignment_store.cpp:325-351 | a stored plan whose row is found comes back, header and stages, exactly if its strings have no quote and no line break and its unsigned numbers are below 2^63 |
| PlanTables.LastSaveComesBackIff | include/socrates/persistence/assignment_store.h:43-54 | the plan saved last is what every load returns exactly under both conditions |
| PlanTables.EqualTermsMayLoadOlder | src/persistence/sqlite_assignment_store.cpp:311-314 | of any two plans with equal terms the one saved first may be returned |
| PlanOrder.PlanOrderKeptIff | src/persistence/sqlite_assignment_store.cpp:327-351 | with distinct ordinals the stages come back in plan order exactly if the plan lists them by ordinal |
| PlanOrder.OrdinalOrderIff | src/persistence/sqlite_assignment_store.cpp:327-351 | the loaded ordinals ascend exactly if they do not lie on both sides of 2^31 |
| PlanOrder.ScheduledPlanLoadsInPlacementOrder | src/scheduler/memory_scheduler.cpp:184-311 | across scheduler and store: a scheduled plan comes back in the order its shards were placed |
| PlanOrder.ScheduledOrderKeptIff | src/scheduler/memory_scheduler.cpp:171-174 | across scheduler and store: a scheduled plan of layered shards comes back in the order a pass needs exactly if in the input shards whose layers come first are more sensitive, or equally sensitive and listed first |
| PlanOrder.ScheduledPlanComesBackReversed | src/scheduler/memory_scheduler.cpp:171-311 | an input, a plan scheduled from it, and the fact that no load returns it in order |
| AssignmentStore.SqliteAssignmentStore.SavePlan | src/persistence/sqlite_assignment_store.cpp:211-297 | whichever statement fails, a failed save changes nothing on disk, and nothing the connection sees unless the rollback fails too; a save succeeds exactly if no statement fails and no transaction is left over |
| AssignmentStore.SqliteAssignmentStore.LoadPlan | src/persistence/sqlite_assignment_store.cpp:301-354 | errors, empty answers and loaded plans, the last being a prefix of a load from a newest row |
| AssignmentStore.SqliteAssignmentStore.AppendToken | src/persistence/sqlite_assignment_store.cpp:358-390 | the verdict and the new table; an append that is not accepted changes nothing |
| AssignmentStore.SqliteAssignmentStore.EraseTokenHistory | src/persistence/sqlite_assignment_store.cpp:427-437 | erasure empties that request's history and no other, and leaves the plans |
| AssignmentStore.SqliteAssignmentStore.LoadTokenHistory | src/persistence/sqlite_assignment_store.cpp:394-423 | the answer is the ascending selection cut to the count, record by record with position and token, and the slice asked for exactly if the bounds are right; with answered checks the rows are the tokens kept |
| AssignmentStore.TokenComesBack | src/persistence/sqlite_assignment_store.cpp:413-421 | a row reads back as the token that was stored, without its session |
| TokenLog.StepKeepsContiguousIff | src/persistence/sqlite_assignment_store.cpp:358-390 | a step keeps every history consecutive, except that a row let in by an unanswered check must happen to be the next one |
| TokenLog.RunKeepsContiguous | src/persistence/sqlite_assignment_store.cpp:358-437 | for every sequence of appends, erasures and failures with answered checks, each request's positions are consecutive |
| TokenLog.PositionsAreOneInterval | src/persistence/sqlite_assignment_store.cpp:362-377 | the positions count up from the first append modulo 2^64, without repetition; one plain interval exactly if they do not reach 2^64 |
| TokenLog.AcceptedIsStoredIff | src/persistence/sqlite_assignment_store.cpp:378-389 | an accepted append stores its token, except a second one at position 2^63 |
| TokenLog.VerdictLaw | src/persistence/sqlite_assignment_store.cpp:358-390 | an append is refused as a gap exactly if the answered check finds a greatest position that is not just below, and fails exactly if a statement does |
| TokenLog.TableIsSimpleLog | src/persistence/sqlite_assignment_store.cpp:358-437 | for every run with answered checks the table holds, row for row, the first token and each token offered at the next position since the last erasure, until position 2^63 is reached from below |
| TokenLoads.LoadIsSliceIff | src/persistence/sqlite_assignment_store.cpp:394-423 | whatever is stored, a load returns the slice asked for exactly if the bounds are right |
| TokenLoads.RunKeepsKey | src/persistence/sqlite_assignment_store.cpp:378-389 | for every run and every failure a request and a position name one row |
| TokenLoads.LoadAfterRunIff | src/persistence/sqlite_assignment_store.cpp:358-437 | for every run, every failure included, a load returns the slice asked for exactly if the bounds are right |
| TokenLoads.SmallBoundsAreRight | src/persistence/sqlite_assignment_store.cpp:408-410 | positions and a start below 2^63 and a count below 2^31 are right bounds |
| TokenLoads.IgnoredBounds | src/persistence/sqlite_assignment_store.cpp:408-410 | for every history length, loads from the other side of 2^63 or with a large count that do not return the slice asked for |
| TokenLoads.LoadReturnsKeptSliceIff | src/persistence/sqlite_assignment_store.cpp:358-437 | end to end: after every run with answered checks a load returns the slice of the tokens kept since the last erasure exactly if the bounds are right |
| TokenLog.UnansweredCheckLeavesGap | src/persistence/sqlite_assignment_store.cpp:362-376 | two accepted appends, the second with an unanswered check, that leave a gap |
| Catalog.TotalRamGb | src/runtime/model_catalog.cpp:17-27 | the loop sums the memory of alive participants with a profile |
| Catalog.ParticipantCount | src/runtime/model_catalog.cpp:29-38 | the loop counts alive participants, in 32 bits |
| Catalog.MemberCounts | src/runtime/model_catalog.cpp:17-38 | a member counts if it is alive and participates, with the total memory of its profile in GiB |
| Catalog.ClusterAddsUp | src/runtime/model_catalog.cpp:17-38 | memory and participants add up over the members |
| Catalog.RunnableIff | src/runtime/model_catalog.cpp:139-147 | a model is runnable exactly if some option asks for no more memory and devices than there are |
| Catalog.AvailableModels | src/runtime/model_catalog.cpp:131-149 | exactly the entries with a runnable option are listed, in catalogue order |
| Catalog.BestOption | src/runtime/model_catalog.cpp:165-174 | a runnable option that asks for the most memory, or none exactly if the model is not runnable |
| Catalog.EstimateContextWindow | src/runtime/model_catalog.cpp:151-238 | insufficient exactly if the model is not listed; otherwise, where the arithmetic is defined, the longest window: weights, keys and values fit in 70% of the average device memory, and one token more does not or is beyond the model |
| Catalog.FitsInTotal | src/runtime/model_catalog.cpp:186-200 | the number of devices cancels: weights and 4096 bytes for each token and layer fit in 70% of the memory of the cluster |
| Catalog.ComputableIff | src/runtime/model_catalog.cpp:186-210 | the arithmetic is defined exactly if there is a device and a layer and fewer than 2^32 tokens fit |
| Catalog.LargerBatchNeverLonger | src/runtime/model_catalog.cpp:202-210 | the estimate does not grow with the batch size |
| Catalog.MoreRamNeverShorter | src/runtime/model_catalog.cpp:186-200 | at a fixed device count the estimate does not shrink with more memory |

## Left out

- Framing.EncodeFrame: the code's buffer has no room for the checksum it then writes, and only the buffer is sent; the model gives it the four bytes the receiver expects.
- Framing.StreamRoundTrip: holds of frames with their checksum; `Framing.AsSentAcceptedIff` says what becomes of frames as the code sends them.
- Framing.RequestsRoundTrip: likewise of frames with their checksum.
- Framing.Connection.Serve: where the 32-bit bound on the method length is wrong the code reads outside the payload, which the model leaves out as a refusal. Responses and stream frames are not modelled.
- Framing.Connection.RecvFrame: a read error and the end of the stream are the same event; the timeout parameter, which the code does not use, is dropped.
- Scheduler.ScheduleCore: every caller asks for the slots to be sorted before each shard, so the flag is not modelled; scores and times are real numbers.
- WorstFit.EnoughSlackNeverExhausts: memory requirements are added in 64 bits as in the code; the pool and the total need are exact sums.
- AutoSplit.GenerateShards: the member count is exact, where the code narrows it to 32 bits.
- PipelineGeneration.GenerationComputesModel: the outputs of a pass are moved out before it returns, so passes after the first start from what is left of them, as in the code.
- PipelinePass.ShardingPreservesMeaning: stages are functions on tensors; the outputs of the answer itself are moved out before the return, so the claim is about what each stage is handed and computes.
- Pipeline.InferencePipeline.PushRequest: request ids are unique; the second read of the queue's back, which decides which handle a concurrent caller gets, and stopping the dispatcher are not modelled.
- PipelineRuns.RunKeepsInvariant: replanning and node loss, which emit events of their own, are not steps of the machine.
- Pipeline.RunGeneration: the local generation loop, which calls the inference backend, is not modelled.
- Membership.MembershipService.SetModels: revisions and terms are unbounded numbers.
- Election.BullyElection.UpdateMembership: fencing tokens and the time are arbitrary inputs.
- AssignmentStore.SqliteAssignmentStore.AppendToken: whether a token appended while a left-over transaction is open reaches the disk is not modelled.
- AssignmentStore.SqliteAssignmentStore.LoadPlan: enumerations are kept as such, not as their integer columns. The lookup of a single assignment by node is not modelled; it would add only an easy member.
- JsonRoundTrip.HeaderRestoredIff: the issue time is a signed number of microseconds.
- Catalog.EstimateContextWindow: arithmetic is over the reals; with no device, no layer or a quotient of 2^32 or more the language leaves the result open, and so does the model. The descriptive text is not modelled.
- Tensor encoding is not modelled: the size field is overwritten by the digest, so decoding does not invert encoding.
- Inference backends, TLS, sockets, discovery, certificates, profilers, the manifest reader, tracing, command lines and bindings are foreign calls or plumbing.
