/** Scheduler, pass and worker together: generation over a plan computes the unsharded model, token by token. */
module PipelineGeneration {
  import opened Core
  import opened PipelinePass
  import Scheduler
  import opened Pipeline
  import PipelineRuns
  import opened PipelineProgress
  import opened PipelineOutcomes

  /** What passes over the stages are given: the surroundings of the pass for each position, the first inputs, and
      what is left of the outputs once they were moved out, which is what later passes start from. */
  datatype Passes<!T> = Passes(env: nat -> Surroundings<T>, stages: seq<Stage>, initial: T, drained: T)

  function InputOf<T>(p: Passes<T>, i: nat): T {
    if i == 0 then p.initial else p.drained
  }

  function PassFor<T>(p: Passes<T>, i: nat): Result<StageResult<T>, PassError> {
    PassAnswer(p.env(i), p.stages, 0, InputOf(p, i), p.drained)
  }

  /** The worker's reading of a pass: a result without a token counts as its position, cast to 32 bits. */
  function TokenOf<T>(result: StageResult<T>, i: nat): int {
    if result.token.Some? then result.token.value else ToI32(i % TWO_32)
  }

  function Outcomes<T>(p: Passes<T>): nat -> Outcome {
    (i: nat) => if PassFor(p, i).Err? then PassFailed else Produced(TokenOf(PassFor(p, i).value, i))
  }

  /** A worker over the passes emits the token of each pass until the first that fails, and fails there; if none
      fails it completes with the maximum. */
  lemma {:induction false} WorkerFollowsPasses<T>(r: Request, opening: seq<Event>, p: Passes<T>, n: nat, j: nat)
    requires PipelineRuns.GenerationStream(r, opening)
    requires r.worker == AtLoop && r.history == [] && r.active && !r.stopRequested
    requires n >= 3 * r.maximumNewTokens + 3 && j <= r.maximumNewTokens
    requires forall i :: 0 <= i < j ==> PassFor(p, i).Ok?
    requires j < r.maximumNewTokens ==> PassFor(p, j).Err?
    ensures var e := Worked(r, Outcomes(p), n);
            && e.worker == Finished(if j == r.maximumNewTokens then Completed(j) else Failed(j))
            && |e.history| == j
            && forall i :: 0 <= i < j ==> e.history[i].token == TokenOf(PassFor(p, i).value, i)
  {
    hide Worked, PassFor, TokenOf;
    AloneProduces(r, opening, Outcomes(p), n, j);
  }

  /** The token comes from the last stage, which was handed the result of the layers before its own and put out
      the result of all layers on the inputs of the pass. */
  ghost predicate ComputesModel<T>(p: Passes<T>, i: nat, layer: (nat, T) -> T, total: nat, token: int) {
    && p.stages != []
    && var last := p.stages[|p.stages| - 1];
    && last.body.layers.Some?
    && var ran := RunStage(p.env(i), |p.stages| - 1, last, ApplyLayers(layer, 0, last.body.layers.value.start, InputOf(p, i)));
    && ran.Ok? && ran.value.outputs == ApplyLayers(layer, 0, total, InputOf(p, i)) && token == TokenOf(ran.value, i)
  }

  /** End to end: for every plan of forward layered shards, however sharded and placed, a request that is not
      cancelled and whose passes are not hindered completes with its maximum of tokens, and each of them is the token
      of a last stage that has computed the whole model on the inputs of its pass. */
  lemma {:induction false} GenerationComputesModel<T(!new)>(
    inp: Scheduler.Input, plan: Plan, order: seq<Shard>, run: seq<Scheduler.Config>,
    p: Passes<T>, layer: (nat, T) -> T, r: Request, opening: seq<Event>, n: nat)
    requires Scheduler.Outcome(inp, Ok(plan), order, run) && AllLayered(inp)
    requires p.stages == plan.stages
    requires forall i :: 0 <= i < r.maximumNewTokens ==>
               StagesApplyLayers(p.env(i), p.stages, layer) && Unhindered(p.env(i), p.stages)
    requires PipelineRuns.GenerationStream(r, opening)
    requires r.worker == AtLoop && r.history == [] && r.active && !r.stopRequested
    requires n >= 3 * r.maximumNewTokens + 3
    ensures var e := Worked(r, Outcomes(p), n);
            && e.worker == Finished(Completed(r.maximumNewTokens))
            && |e.history| == r.maximumNewTokens
            && forall i :: 0 <= i < |e.history| ==> ComputesModel(p, i, layer, inp.totalLayers, e.history[i].token)
  {
    hide Worked, Scheduler.Outcome, AllLayered, StagesApplyLayers, Unhindered, ComputesModel, TokenOf, PassFor;
    forall i: nat | i < r.maximumNewTokens
      ensures PassFor(p, i).Ok? && ComputesModel(p, i, layer, inp.totalLayers, TokenOf(PassFor(p, i).value, i))
    {
      PassComputesModel(inp, plan, order, run, p, layer, i);
    }
    WorkerFollowsPasses(r, opening, p, n, r.maximumNewTokens);
  }

  lemma {:induction false} PassComputesModel<T(!new)>(
    inp: Scheduler.Input, plan: Plan, order: seq<Shard>, run: seq<Scheduler.Config>,
    p: Passes<T>, layer: (nat, T) -> T, i: nat)
    requires Scheduler.Outcome(inp, Ok(plan), order, run) && AllLayered(inp)
    requires p.stages == plan.stages
    requires StagesApplyLayers(p.env(i), p.stages, layer) && Unhindered(p.env(i), p.stages)
    ensures PassFor(p, i).Ok? && ComputesModel(p, i, layer, inp.totalLayers, TokenOf(PassFor(p, i).value, i))
  {
    ShardingPreservesMeaning(inp, plan, order, run, p.env(i), layer, InputOf(p, i), p.drained);
    PassSucceedsIff(p.env(i), p.stages, InputOf(p, i), p.drained);
    hide Scheduler.Outcome, AllLayered, StagesApplyLayers, Unhindered, Handed, PassAnswer, ApplyLayers, RunStage;
    var h := Handed(p.env(i), p.stages, 0, InputOf(p, i));
    var last := |p.stages| - 1;
    assert Ran(p.env(i), p.stages, 0, h, last) == RunStage(p.env(i), last, p.stages[last], h[last]);
  }
}
