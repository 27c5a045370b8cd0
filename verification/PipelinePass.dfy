/** One pipeline pass over the stages of a plan, and the central law of the system: splitting a model
    into stages and placing them on nodes does not change what it computes. */
module PipelinePass {
  import opened Core
  import opened Sequences
  import opened Scheduler
  import opened Coverage
  import opened Placement

  datatype PassError = Cancelled | Internal | StageFailed(code: int)

  datatype StageResult<T> = StageResult(outputs: T, token: Option<int>)

  /** Everything the pass does not control: when a stop is noticed, and what local and remote stages answer. */
  datatype Surroundings<!T> = Surroundings(
    localNode: NodeId,
    stopped: nat -> bool,
    local: (nat, Stage, T) -> Result<StageResult<T>, PassError>,
    remote: (nat, Stage, T) -> Result<StageResult<T>, PassError>)

  function RunStage<T>(env: Surroundings<T>, i: nat, stage: Stage, input: T): (r: Result<StageResult<T>, PassError>)
    ensures stage.node == env.localNode ==> r == env.local(i, stage, input)
    ensures stage.node != env.localNode ==> r == env.remote(i, stage, input)
  {
    if stage.node == env.localNode then env.local(i, stage, input) else env.remote(i, stage, input)
  }

  /** The inputs handed to the stages from `i` on, as far as the pass gets. */
  function Handed<T>(env: Surroundings<T>, stages: seq<Stage>, i: nat, input: T): (h: seq<T>)
    requires i <= |stages|
    ensures |h| <= |stages| - i
    decreases |stages| - i
  {
    if i == |stages| || env.stopped(i) then []
    else
      match RunStage(env, i, stages[i], input)
      case Err(_) => [input]
      case Ok(result) => [input] + Handed(env, stages, i + 1, result.outputs)
  }

  /** The answer of a pass that has reached stage `i`.  The outputs of the last stage are moved out
      before the result is returned, so the caller sees `drained` in their place. */
  function PassAnswer<T>(env: Surroundings<T>, stages: seq<Stage>, i: nat, input: T, drained: T)
    : Result<StageResult<T>, PassError>
    requires i <= |stages|
    decreases |stages| - i
  {
    if i == |stages| then Err(Internal)
    else if env.stopped(i) then Err(Cancelled)
    else
      match RunStage(env, i, stages[i], input)
      case Err(e) => Err(e)
      case Ok(result) =>
        if i == |stages| - 1 then Ok(StageResult(drained, result.token))
        else PassAnswer(env, stages, i + 1, result.outputs, drained)
  }

  lemma StageOfPass<T>(env: Surroundings<T>, stages: seq<Stage>, i: nat, input: T, drained: T)
    requires i < |stages|
    ensures var r, h := PassAnswer(env, stages, i, input, drained), Handed(env, stages, i, input);
            if env.stopped(i) then r == Err(Cancelled) && h == []
            else match RunStage(env, i, stages[i], input)
              case Err(e) => r == Err(e) && h == [input]
              case Ok(result) =>
                && h == [input] + Handed(env, stages, i + 1, result.outputs)
                && (i < |stages| - 1 ==> r == PassAnswer(env, stages, i + 1, result.outputs, drained))
                && (i == |stages| - 1 ==> r == Ok(StageResult(drained, result.token)) && h == [input])
  {
  }

  lemma NoStages<T>(env: Surroundings<T>, input: T, drained: T)
    ensures PassAnswer(env, [], 0, input, drained) == Err(Internal) && Handed(env, [], 0, input) == []
  {
  }

  lemma Regroup<T>(a: seq<T>, x: T, b: seq<T>)
    ensures a + ([x] + b) == (a + [x]) + b
  {
  }

  /** The stage loop of the code; `handed` records what every stage received. */
  method ExecutePass<T>(env: Surroundings<T>, stages: seq<Stage>, inputs: T, drained: T)
    returns (r: Result<StageResult<T>, PassError>, handed: seq<T>)
    ensures r == PassAnswer(env, stages, 0, inputs, drained)
    ensures handed == Handed(env, stages, 0, inputs)
  {
    hide PassAnswer, Handed;
    var current := inputs;
    handed := [];
    NoStages(env, inputs, drained);
    for i := 0 to |stages|
      invariant i < |stages| || stages == []
      invariant PassAnswer(env, stages, 0, inputs, drained) == PassAnswer(env, stages, i, current, drained)
      invariant Handed(env, stages, 0, inputs) == handed + Handed(env, stages, i, current)
    {
      StageOfPass(env, stages, i, current, drained);
      if env.stopped(i) {
        return Err(Cancelled), handed;
      }
      Regroup(handed, current, Handed(env, stages, i, current)[1..]);
      handed := handed + [current];
      var result := if stages[i].node == env.localNode then env.local(i, stages[i], current)
                    else env.remote(i, stages[i], current);
      if result.Err? {
        return result, handed;
      }
      current := result.value.outputs;
      if i == |stages| - 1 {
        return Ok(StageResult(drained, result.value.token)), handed;
      }
    }
    r := Err(Internal);
  }

  // ---------------------------------------------------------------------------------------------
  // What a pass answers
  // ---------------------------------------------------------------------------------------------

  /** `h` lists what the stages from `i` on were handed: each stage is handed what the one before it put out, no
      stop is noticed before any of them, and the list ends at the last stage, at a stop or at a stage that
      fails. */
  ghost predicate HandedOn<T(!new)>(env: Surroundings<T>, stages: seq<Stage>, i: nat, input: T, h: seq<T>) {
    && i + |h| <= |stages|
    && (h != [] ==> h[0] == input)
    && (forall k :: i <= k < i + |h| ==> !env.stopped(k))
    && (forall j :: 0 <= j < |h| - 1 ==> Ran(env, stages, i, h, j).Ok?)
    && (forall j :: 0 < j < |h| ==> HandedOver(env, stages, i, h, j))
    && (i + |h| < |stages| ==> (h != [] && Ran(env, stages, i, h, |h| - 1).Err?) || env.stopped(i + |h|))
  }

  function Ran<T>(env: Surroundings<T>, stages: seq<Stage>, i: nat, h: seq<T>, j: nat): Result<StageResult<T>, PassError>
    requires j < |h| && i + |h| <= |stages|
  {
    RunStage(env, i + j, stages[i + j], h[j])
  }

  ghost predicate HandedOver<T(!new)>(env: Surroundings<T>, stages: seq<Stage>, i: nat, h: seq<T>, j: nat)
    requires 0 < j < |h| && i + |h| <= |stages|
  {
    var before := Ran(env, stages, i, h, j - 1);
    before.Ok? && h[j] == before.value.outputs
  }

  /** The answer that follows from what the stages were handed: the last stage's token if all of them succeeded,
      the error of a stage that failed, and otherwise that there were no stages or that a stop was noticed. */
  ghost predicate Answers<T(!new)>(env: Surroundings<T>, stages: seq<Stage>, i: nat, h: seq<T>, drained: T, r: Result<StageResult<T>, PassError>)
    requires i + |h| <= |stages|
  {
    if h != [] && Ran(env, stages, i, h, |h| - 1).Err? then r == Err(Ran(env, stages, i, h, |h| - 1).error)
    else if i == |stages| then r == Err(Internal)
    else if i + |h| < |stages| then r == Err(Cancelled)
    else r == Ok(StageResult(drained, Ran(env, stages, i, h, |h| - 1).value.token))
  }

  lemma {:induction false} PassFollowsStages<T(!new)>(env: Surroundings<T>, stages: seq<Stage>, i: nat, input: T, drained: T)
    requires i <= |stages|
    ensures var h := Handed(env, stages, i, input);
            HandedOn(env, stages, i, input, h) && Answers(env, stages, i, h, drained, PassAnswer(env, stages, i, input, drained))
    decreases |stages| - i
  {
    var h := Handed(env, stages, i, input);
    if i < |stages| && !env.stopped(i) {
      var first := RunStage(env, i, stages[i], input);
      if first.Ok? {
        PassFollowsStages(env, stages, i + 1, first.value.outputs, drained);
        hide RunStage;
        var rest := Handed(env, stages, i + 1, first.value.outputs);
        assert h == [input] + rest;
        HandedOneMore(env, stages, i, input, rest);
        AnswersOneMore(env, stages, i, input, rest, drained, PassAnswer(env, stages, i, input, drained));
      }
    }
  }

  lemma {:induction false} HandedOneMore<T(!new)>(env: Surroundings<T>, stages: seq<Stage>, i: nat, input: T, rest: seq<T>)
    requires i < |stages| && !env.stopped(i) && RunStage(env, i, stages[i], input).Ok?
    requires HandedOn(env, stages, i + 1, RunStage(env, i, stages[i], input).value.outputs, rest)
    ensures HandedOn(env, stages, i, input, [input] + rest)
  {
    var h := [input] + rest;
    assert Ran(env, stages, i, h, 0) == RunStage(env, i, stages[i], input);
    hide RunStage, Ran, HandedOver;
    forall j | 0 < j < |h|
      ensures HandedOver(env, stages, i, h, j)
    {
      OverShift(env, stages, i, input, rest, j);
    }
    forall j | 0 <= j < |h| - 1
      ensures Ran(env, stages, i, h, j).Ok?
    {
      if j > 0 {
        RanShift(env, stages, i, input, rest, j - 1);
      }
    }
    if rest != [] {
      RanShift(env, stages, i, input, rest, |rest| - 1);
    }
  }

  lemma RanShift<T(!new)>(env: Surroundings<T>, stages: seq<Stage>, i: nat, input: T, rest: seq<T>, j: nat)
    requires j < |rest| && i + 1 + |rest| <= |stages|
    ensures Ran(env, stages, i, [input] + rest, j + 1) == Ran(env, stages, i + 1, rest, j)
  {
    hide RunStage;
    assert ([input] + rest)[j + 1] == rest[j];
  }

  lemma OverShift<T(!new)>(env: Surroundings<T>, stages: seq<Stage>, i: nat, input: T, rest: seq<T>, j: nat)
    requires 0 < j <= |rest| && i + 1 + |rest| <= |stages|
    requires Ran(env, stages, i, [input] + rest, 0).Ok? && rest[0] == Ran(env, stages, i, [input] + rest, 0).value.outputs
    requires j > 1 ==> HandedOver(env, stages, i + 1, rest, j - 1)
    ensures HandedOver(env, stages, i, [input] + rest, j)
  {
    hide Ran;
    assert ([input] + rest)[j] == rest[j - 1];
    if j > 1 {
      RanShift(env, stages, i, input, rest, j - 2);
    }
  }

  lemma AnswersOneMore<T(!new)>(env: Surroundings<T>, stages: seq<Stage>, i: nat, input: T, rest: seq<T>, drained: T, r: Result<StageResult<T>, PassError>)
    requires i < |stages| && i + 1 + |rest| <= |stages| && RunStage(env, i, stages[i], input).Ok?
    requires if i + 1 < |stages| then Answers(env, stages, i + 1, rest, drained, r)
             else r == Ok(StageResult(drained, RunStage(env, i, stages[i], input).value.token))
    ensures Answers(env, stages, i, [input] + rest, drained, r)
  {
    hide RunStage;
    var h := [input] + rest;
    if rest != [] {
      assert Ran(env, stages, i, h, |h| - 1) == Ran(env, stages, i + 1, rest, |rest| - 1);
    }
  }

  /** A pass succeeds exactly when there is a stage, no stop is noticed before any stage and every stage succeeds
      on what it is handed.  It then carries the last stage's token. */
  lemma {:induction false} PassSucceedsIff<T(!new)>(env: Surroundings<T>, stages: seq<Stage>, input: T, drained: T)
    ensures var r, h := PassAnswer(env, stages, 0, input, drained), Handed(env, stages, 0, input);
            && (r.Ok? <==> |h| == |stages| > 0 && (forall j :: 0 <= j < |stages| ==> !env.stopped(j) && Ran(env, stages, 0, h, j).Ok?))
            && (r.Ok? ==> r.value == StageResult(drained, Ran(env, stages, 0, h, |stages| - 1).value.token))
            && (stages == [] ==> r == Err(Internal))
  {
    PassFollowsStages(env, stages, 0, input, drained);
    hide RunStage, PassAnswer, Handed;
    var h := Handed(env, stages, 0, input);
    if |h| == |stages| > 0 && Ran(env, stages, 0, h, |h| - 1).Ok? {
      forall j | 0 <= j < |stages|
        ensures !env.stopped(j) && Ran(env, stages, 0, h, j).Ok?
      {
      }
    }
  }

  /** No stop is noticed and every stage answers. */
  ghost predicate Unhindered<T(!new)>(env: Surroundings<T>, stages: seq<Stage>) {
    && (forall j :: 0 <= j < |stages| ==> !env.stopped(j))
    && (forall j, y :: 0 <= j < |stages| ==> RunStage(env, j, stages[j], y).Ok?)
  }

  /** A pass that is not stopped and whose stages answer completes. */
  lemma {:induction false} UnstoppedPassCompletes<T(!new)>(env: Surroundings<T>, stages: seq<Stage>, input: T, drained: T)
    requires stages != [] && Unhindered(env, stages)
    ensures PassAnswer(env, stages, 0, input, drained).Ok?
  {
    PassFollowsStages(env, stages, 0, input, drained);
    hide RunStage, PassAnswer, Handed;
    var h := Handed(env, stages, 0, input);
    assert h != [] ==> Ran(env, stages, 0, h, |h| - 1) == RunStage(env, |h| - 1, stages[|h| - 1], h[|h| - 1]);
  }

  /** A pass that does not succeed answers with the first thing that went wrong. */
  lemma {:induction false} PassFailsWithFirst<T(!new)>(env: Surroundings<T>, stages: seq<Stage>, input: T, drained: T)
    requires stages != [] && PassAnswer(env, stages, 0, input, drained).Err?
    ensures var r, h := PassAnswer(env, stages, 0, input, drained), Handed(env, stages, 0, input);
            && (forall j :: 0 <= j < |h| - 1 ==> !env.stopped(j) && Ran(env, stages, 0, h, j).Ok?)
            && (if h != [] && Ran(env, stages, 0, h, |h| - 1).Err? then r == Err(Ran(env, stages, 0, h, |h| - 1).error)
                else |h| < |stages| && env.stopped(|h|) && r == Err(Cancelled))
  {
    PassFollowsStages(env, stages, 0, input, drained);
    hide RunStage, PassAnswer, Handed;
  }

  // ---------------------------------------------------------------------------------------------
  // Layers
  // ---------------------------------------------------------------------------------------------

  /** Layers `from` up to `to` applied in order: what one unsharded stage computes. */
  function ApplyLayers<T>(layer: (nat, T) -> T, from: nat, to: nat, x: T): T
    decreases to - from
  {
    if from >= to then x else ApplyLayers(layer, from + 1, to, layer(from, x))
  }

  /** One layer is applied once, and none leaves the input alone. */
  lemma ApplyOne<T>(layer: (nat, T) -> T, i: nat, x: T)
    ensures ApplyLayers(layer, i, i + 1, x) == layer(i, x)
    ensures ApplyLayers(layer, i, i, x) == x
  {
  }

  lemma {:induction false} ApplyInTwoParts<T>(layer: (nat, T) -> T, a: nat, b: nat, c: nat, x: T)
    requires a <= b <= c
    ensures ApplyLayers(layer, b, c, ApplyLayers(layer, a, b, x)) == ApplyLayers(layer, a, c, x)
    decreases b - a
  {
    if a < b {
      ApplyInTwoParts(layer, a + 1, b, c, layer(a, x));
    }
  }

  /** Whoever runs a stage applies the stage's layers to what it was handed. */
  ghost predicate StagesApplyLayers<T(!new)>(env: Surroundings<T>, stages: seq<Stage>, layer: (nat, T) -> T) {
    forall i: nat, y: T :: i < |stages| && stages[i].body.layers.Some? && RunStage(env, i, stages[i], y).Ok? ==>
      RunStage(env, i, stages[i], y).value.outputs
        == ApplyLayers(layer, stages[i].body.layers.value.start, stages[i].body.layers.value.endExclusive, y)
  }

  /** The stages are layered, follow each other without gap and end at `total`. */
  ghost predicate InSequence(stages: seq<Stage>, total: nat) {
    && stages != []
    && (forall i :: 0 <= i < |stages| ==> stages[i].body.layers.Some? && stages[i].body.layers.value.Valid())
    && stages[0].body.layers.value.start == 0
    && (forall i :: 0 < i < |stages| ==> stages[i].body.layers.value.start == EndOf(stages[i - 1]))
    && EndOf(stages[|stages| - 1]) == total
  }

  function EndOf(s: Stage): nat {
    if s.body.layers.Some? then s.body.layers.value.endExclusive else 0
  }

  /** Stage by stage, what is handed on is the model applied so far. */
  lemma {:induction false} HandedIsPrefix<T(!new)>(
    env: Surroundings<T>, stages: seq<Stage>, total: nat, layer: (nat, T) -> T, x: T, i: nat, y: T, drained: T)
    requires InSequence(stages, total)
    requires StagesApplyLayers(env, stages, layer)
    requires i < |stages|
    requires y == ApplyLayers(layer, 0, stages[i].body.layers.value.start, x)
    ensures var h := Handed(env, stages, i, y);
            forall j :: i <= j < i + |h| ==> h[j - i] == ApplyLayers(layer, 0, stages[j].body.layers.value.start, x)
    ensures PassAnswer(env, stages, i, y, drained).Ok? ==>
              var h := Handed(env, stages, i, y);
              var last := |stages| - 1;
              && |h| == |stages| - i
              && RunStage(env, last, stages[last], h[last - i]).Ok?
              && RunStage(env, last, stages[last], h[last - i]).value.outputs == ApplyLayers(layer, 0, total, x)
    decreases |stages| - i
  {
    var range := stages[i].body.layers.value;
    assert range.Valid();
    if !env.stopped(i) && RunStage(env, i, stages[i], y).Ok? {
      var z := RunStage(env, i, stages[i], y).value.outputs;
      ApplyInTwoParts(layer, 0, range.start, range.endExclusive, x);
      assert z == ApplyLayers(layer, 0, range.endExclusive, x);
      if i + 1 < |stages| {
        assert stages[i + 1].body.layers.value.start == EndOf(stages[i]);
        HandedIsPrefix(env, stages, total, layer, x, i + 1, z, drained);
        var rest := Handed(env, stages, i + 1, z);
        var h := Handed(env, stages, i, y);
        assert h == [y] + rest;
        forall j | i <= j < i + |h|
          ensures h[j - i] == ApplyLayers(layer, 0, stages[j].body.layers.value.start, x)
        {
          if j > i {
            assert h[j - i] == rest[j - (i + 1)];
          }
        }
      } else {
        assert Handed(env, stages, i + 1, z) == [];
      }
    }
  }

  // ---------------------------------------------------------------------------------------------
  // Every successful plan is in sequence
  // ---------------------------------------------------------------------------------------------

  ghost predicate AllLayered(inp: Input) {
    forall s :: s in inp.shards ==> s.body.layers.Some? && s.body.layers.value.Valid()
  }

  lemma {:induction false} RangesOfLayered(stages: seq<Stage>)
    requires forall i :: 0 <= i < |stages| ==> stages[i].body.layers.Some?
    ensures |RangesOf(stages)| == |stages|
    ensures forall i :: 0 <= i < |stages| ==> RangesOf(stages)[i] == stages[i].body.layers.value
    decreases |stages|
  {
    if stages != [] {
      RangesOfLayered(stages[1..]);
    }
  }

  lemma {:induction false} ChainIsSequence(ranges: seq<LayerRange>, from: U32, total: U32)
    requires ranges != []
    requires Chain(ranges, from, total) == None
    ensures ranges[0].start == from
    ensures forall i :: 0 < i < |ranges| ==> ranges[i].start == ranges[i - 1].endExclusive
    ensures ranges[|ranges| - 1].endExclusive == total
    decreases |ranges|
  {
    if |ranges| > 1 {
      ChainIsSequence(ranges[1..], ranges[0].endExclusive, total);
      forall i | 0 < i < |ranges|
        ensures ranges[i].start == ranges[i - 1].endExclusive
      {
        assert i == 1 || ranges[1..][i - 1].start == ranges[1..][i - 2].endExclusive;
      }
    } else {
      assert ranges[1..] == [];
    }
  }

  lemma StagesCarryShardLayers(inp: Input, plan: Plan, order: seq<Shard>, run: seq<Config>)
    requires Outcome(inp, Ok(plan), order, run)
    requires AllLayered(inp)
    ensures plan.stages != []
    ensures forall i :: 0 <= i < |plan.stages| ==>
      plan.stages[i].body.layers.Some? && plan.stages[i].body.layers.value.Valid()
  {
    forall i | 0 <= i < |plan.stages|
      ensures plan.stages[i].body.layers.Some? && plan.stages[i].body.layers.value.Valid()
    {
      var shard := EveryStageIsSupported(inp, plan, order, run, plan.stages[i]);
    }
    var placed := PlacedInOrder(inp, plan, order, run);
    PermutationMembers(plan.stages, placed);
  }

  lemma RangesAreSorted(stages: seq<Stage>, ranges: seq<LayerRange>)
    requires Sorted(stages, EarlierStage)
    requires |ranges| == |stages|
    requires forall i :: 0 <= i < |stages| ==> stages[i].body.layers == Some(ranges[i])
    ensures Sorted(ranges, EarlierStart)
  {
    forall i, j | 0 <= i < j < |ranges|
      ensures !EarlierStart(ranges[j], ranges[i])
    {
      assert !EarlierStage(stages[j], stages[i]);
    }
  }

  lemma {:induction false} PlanIsInSequence(inp: Input, plan: Plan, order: seq<Shard>, run: seq<Config>)
    requires Outcome(inp, Ok(plan), order, run)
    requires AllLayered(inp)
    ensures InSequence(plan.stages, inp.totalLayers)
  {
    var stages := plan.stages;
    assert Sorted(stages, EarlierStage);
    assert inp.shards != [] && SlotsOf(inp.members) != [];
    hide Outcome, SlotsOf;
    StagesCarryShardLayers(inp, plan, order, run);
    RangesOfLayered(stages);
    var ranges := RangesOf(stages);
    hide RangesOf;
    RangesAreSorted(stages, ranges);
    hide EarlierStage, EarlierStart;
    PlanTiles(inp, plan, order, run);
    TilingIsAccepted(ranges, 0, inp.totalLayers);
    hide Chain;
    ChainIsSequence(ranges, 0, inp.totalLayers);
  }

  lemma {:induction false} PlanTiles(inp: Input, plan: Plan, order: seq<Shard>, run: seq<Config>)
    requires Outcome(inp, Ok(plan), order, run)
    requires inp.shards != [] && SlotsOf(inp.members) != []
    requires AllLayered(inp)
    ensures Tiles(RangesOf(plan.stages), 0, inp.totalLayers)
  {
    hide Outcome, SlotsOf, RangesOf, Sum;
    var placed := PlacedInOrder(inp, plan, order, run);
    assert inp.shards[0] in inp.shards;
    LayerVerdictIffPartition(inp, Ok(plan), order, run);
    forall l: nat
      ensures Sum(RangesOf(plan.stages), CoverAt(l)) == if 0 <= l < inp.totalLayers then 1 else 0
    {
      RangeCountIsStageCount(plan.stages, l);
      StageCountIsShardCount(inp, order, placed, plan.stages, l);
    }
  }

  lemma SequenceStarts(stages: seq<Stage>, total: nat)
    requires InSequence(stages, total)
    ensures stages != []
    ensures forall i :: 0 <= i < |stages| ==> stages[i].body.layers.Some?
    ensures stages[0].body.layers.value.start == 0
  {
  }

  /** Sharding preserves meaning.  For every successful plan of forward layered shards, whatever the
      sensitivity order and the placement: every stage that runs is handed exactly the result of the
      layers before its own, a pass that is not stopped and whose stages answer completes, and when the
      pass completes, the last stage has computed the whole model. */
  lemma {:induction false} ShardingPreservesMeaning<T(!new)>(
    inp: Input, plan: Plan, order: seq<Shard>, run: seq<Config>,
    env: Surroundings<T>, layer: (nat, T) -> T, x: T, drained: T)
    requires Outcome(inp, Ok(plan), order, run)
    requires AllLayered(inp)
    requires StagesApplyLayers(env, plan.stages, layer)
    ensures forall i :: 0 <= i < |plan.stages| ==> plan.stages[i].body.layers.Some?
    ensures var h := Handed(env, plan.stages, 0, x);
            forall i :: 0 <= i < |h| ==> h[i] == ApplyLayers(layer, 0, plan.stages[i].body.layers.value.start, x)
    ensures Unhindered(env, plan.stages) ==> PassAnswer(env, plan.stages, 0, x, drained).Ok?
    ensures PassAnswer(env, plan.stages, 0, x, drained).Ok? ==>
              var h := Handed(env, plan.stages, 0, x);
              var last := |plan.stages| - 1;
              && |h| == |plan.stages| > 0
              && RunStage(env, last, plan.stages[last], h[last]).Ok?
              && RunStage(env, last, plan.stages[last], h[last]).value.outputs
                 == ApplyLayers(layer, 0, inp.totalLayers, x)
  {
    assert ApplyLayers(layer, 0, 0, x) == x;
    hide Outcome, Handed, PassAnswer, ApplyLayers, AllLayered, StagesApplyLayers, InSequence, RunStage, Unhindered;
    PlanIsInSequence(inp, plan, order, run);
    SequenceStarts(plan.stages, inp.totalLayers);
    if Unhindered(env, plan.stages) {
      UnstoppedPassCompletes(env, plan.stages, x, drained);
    }
    HandedIsPrefix(env, plan.stages, inp.totalLayers, layer, x, 0, x, drained);
    var h := Handed(env, plan.stages, 0, x);
    assert forall i :: 0 <= i < |h| ==> h[i - 0] == h[i];
  }
}
