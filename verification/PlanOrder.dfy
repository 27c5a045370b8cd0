/** In which order the stages of a plan come back from the store. */
module PlanOrder {
  import opened Core
  import opened Sequences
  import opened Scheduler
  import opened Placement
  import opened PipelinePass
  import opened PlanTables

  ghost predicate DistinctOrdinals(stages: seq<Stage>) {
    forall i, j :: 0 <= i < j < |stages| ==> stages[i].ordinal != stages[j].ordinal
  }

  /** The stages come back in plan order exactly when the plan lists them by (signed) ordinal. */
  lemma {:induction false} PlanOrderKeptIff(p: Plan, loaded: seq<LoadedStage>)
    requires multiset(loaded) == multiset(Map(p.stages, ColumnsOf))
    requires Sorted(loaded, SignedBefore)
    requires DistinctOrdinals(p.stages)
    ensures loaded == Map(p.stages, ColumnsOf)
            <==> forall i, j :: 0 <= i < j < |p.stages| ==> ToI32(p.stages[i].ordinal) < ToI32(p.stages[j].ordinal)
  {
    var columns := Map(p.stages, ColumnsOf);
    hide Map;
    if loaded == columns {
      forall i, j | 0 <= i < j < |p.stages|
        ensures ToI32(p.stages[i].ordinal) < ToI32(p.stages[j].ordinal)
      {
        assert !SignedBefore(loaded[j], loaded[i]);
        assert p.stages[i].ordinal != p.stages[j].ordinal;
      }
    }
    if forall i, j :: 0 <= i < j < |p.stages| ==> ToI32(p.stages[i].ordinal) < ToI32(p.stages[j].ordinal) {
      forall i, j | 0 <= i < j < |columns|
        ensures SignedBefore(columns[i], columns[j])
      {
        assert ToI32(p.stages[i].ordinal) < ToI32(p.stages[j].ordinal);
      }
      SortedIsUnique(columns, loaded, SignedBefore);
    }
  }

  /** Ascending signed ordinals are ascending ordinals exactly when they do not straddle 2^31. */
  lemma {:induction false} OrdinalOrderIff(stages: seq<LoadedStage>)
    requires Sorted(stages, SignedBefore)
    ensures (forall i, j :: 0 <= i < j < |stages| ==> stages[i].ordinal <= stages[j].ordinal)
            <==> !(exists a, b :: a in stages && b in stages && a.ordinal < TWO_31 <= b.ordinal)
  {
    if a, b :| a in stages && b in stages && a.ordinal < TWO_31 <= b.ordinal {
      var i :| 0 <= i < |stages| && stages[i] == a;
      var j :| 0 <= j < |stages| && stages[j] == b;
      assert SignedBefore(stages[j], stages[i]);
      assert j < i;
    } else {
      forall i, j | 0 <= i < j < |stages|
        ensures stages[i].ordinal <= stages[j].ordinal
      {
        assert !SignedBefore(stages[j], stages[i]);
        assert stages[i] in stages && stages[j] in stages;
      }
    }
  }

  /** A scheduled plan is listed by layers but comes back in the order its shards were placed: loaded stage
      `j` is the `j`-th shard of the sensitivity order. */
  lemma {:induction false} ScheduledPlanLoadsInPlacementOrder(
    inp: Input, plan: Plan, order: seq<Shard>, run: seq<Config>, loaded: seq<LoadedStage>)
    requires Outcome(inp, Ok(plan), order, run)
    requires |inp.shards| <= TWO_31
    requires multiset(loaded) == multiset(Map(plan.stages, ColumnsOf))
    requires Sorted(loaded, SignedBefore)
    ensures |loaded| == |order|
    ensures forall j :: 0 <= j < |loaded| ==>
              && loaded[j].ordinal == j && loaded[j].shard == order[j].body.id
              && loaded[j].reserved == Required(order[j], inp.reserve)
  {
    hide Outcome, Map, Required, SignedBefore, Sorted;
    var placed := PlacedInOrder(inp, plan, order, run);
    MapOfPermutation(plan.stages, placed, ColumnsOf);
    var columns := Map(placed, ColumnsOf);
    AscendingColumns(placed);
    SortedIsUnique(columns, loaded, SignedBefore);
  }

  lemma AscendingColumns(placed: seq<Stage>)
    requires |placed| <= TWO_31
    requires forall j :: 0 <= j < |placed| ==> placed[j].ordinal == j % TWO_32
    ensures Ascending(Map(placed, ColumnsOf), SignedBefore)
  {
    hide Map;
    assert forall j :: 0 <= j < |placed| ==> placed[j].ordinal == j;
  }

  /** The order in which the shards were placed is also the order of their layers. */
  ghost predicate ByLayers(order: seq<Shard>) {
    forall i, j :: 0 <= i < j < |order| && order[i].body.layers.Some? && order[j].body.layers.Some?
                   ==> order[i].body.layers.value.start <= order[j].body.layers.value.start
  }

  /** Shards whose layers come first are more sensitive, or equally sensitive and listed first. */
  ghost predicate SensitiveByLayers(shards: seq<Shard>) {
    forall i, j :: 0 <= i < |shards| && 0 <= j < |shards| && Before(shards[i], shards[j]) ==>
      MoreSensitive(shards[i], shards[j]) || (!MoreSensitive(shards[j], shards[i]) && i < j)
  }

  predicate Before(a: Shard, b: Shard) {
    a.body.layers.Some? && b.body.layers.Some? && a.body.layers.value.start < b.body.layers.value.start
  }

  /** A scheduled plan of layered shards comes back in plan order, which is the order a pass needs, exactly
      when in the input shards whose layers come first are more sensitive, or equally sensitive and listed
      first. */
  lemma {:induction false} ScheduledOrderKeptIff(
    inp: Input, plan: Plan, order: seq<Shard>, run: seq<Config>, loaded: seq<LoadedStage>)
    requires Outcome(inp, Ok(plan), order, run)
    requires AllLayered(inp)
    requires |inp.shards| <= TWO_31
    requires multiset(loaded) == multiset(Map(plan.stages, ColumnsOf))
    requires Sorted(loaded, SignedBefore)
    ensures loaded == Map(plan.stages, ColumnsOf) <==> SensitiveByLayers(inp.shards)
  {
    var placed := PlacedInOrder(inp, plan, order, run);
    PlanIsInSequence(inp, plan, order, run);
    assert SortedArrangement(order, inp.shards, MoreSensitive) && Stable(order, inp.shards, MoreSensitive);
    hide Outcome, AllLayered, Map, SignedBefore, SortedArrangement, Sorted, InSequence, Stable, ByLayers, SensitiveByLayers;
    MapOfPermutation(plan.stages, placed, ColumnsOf);
    AscendingColumns(placed);
    assert SortedArrangement(loaded, Map(placed, ColumnsOf), SignedBefore) by {
      ArrangementOf(loaded, Map(placed, ColumnsOf), SignedBefore);
    }
    SortedIsUnique(Map(placed, ColumnsOf), loaded, SignedBefore);
    SequenceAscends(plan.stages, inp.totalLayers);
    SameOrderIff(plan.stages, order, placed);
    StartsAreDistinct(plan.stages, order, placed);
    SensitivityDecides(order, inp.shards);
  }

  lemma ArrangementOf<T>(s: seq<T>, original: seq<T>, less: (T, T) -> bool)
    requires multiset(s) == multiset(original) && Sorted(s, less)
    ensures SortedArrangement(s, original, less)
  {
  }

  /** No two shards start at the same layer. */
  ghost predicate DistinctStarts(order: seq<Shard>) {
    forall i, j :: 0 <= i < |order| && 0 <= j < |order| && i != j ==> Before(order[i], order[j]) || Before(order[j], order[i])
  }

  lemma {:induction false} StartsAreDistinct(stages: seq<Stage>, order: seq<Shard>, placed: seq<Stage>)
    requires multiset(stages) == multiset(placed)
    requires Ascending(stages, EarlierStage)
    requires forall i :: 0 <= i < |stages| ==> stages[i].body.layers.Some?
    requires |placed| == |order| <= TWO_31
    requires forall j :: 0 <= j < |placed| ==> placed[j].body == order[j].body && placed[j].ordinal == j % TWO_32
    ensures DistinctStarts(order)
  {
    PermutationMembers(stages, placed);
    hide EarlierStage, Ascending;
    forall i, j | 0 <= i < |order| && 0 <= j < |order| && i != j
      ensures Before(order[i], order[j]) || Before(order[j], order[i])
    {
      assert placed[i] in stages && placed[j] in stages;
      assert placed[i].ordinal == i % TWO_32 == i && placed[j].ordinal == j % TWO_32 == j;
      OneIsEarlier(stages, placed[i], placed[j]);
    }
  }

  lemma OneIsEarlier(stages: seq<Stage>, x: Stage, y: Stage)
    requires Ascending(stages, EarlierStage)
    requires x in stages && y in stages && x != y && x.body.layers.Some? && y.body.layers.Some?
    ensures var a, b := x.body.layers.value.start, y.body.layers.value.start; a < b || b < a
  {
    var a :| 0 <= a < |stages| && stages[a] == x;
    var b :| 0 <= b < |stages| && stages[b] == y;
    assert EarlierStage(stages[a], stages[b]) || EarlierStage(stages[b], stages[a]);
  }

  /** Two elements of a stably sorted list that the order does not tell apart are listed as in the original. */
  lemma {:induction false} StableOrder(order: seq<Shard>, shards: seq<Shard>, i: nat, j: nat, a: nat, b: nat)
    requires Stable(order, shards, MoreSensitive) && DistinctStarts(order)
    requires i < j < |order| && a < |shards| && b < |shards| && shards[a] == order[i] && shards[b] == order[j]
    requires order[i].sensitivity == order[j].sensitivity
    ensures a < b
  {
    var keep := Alike(order[i], MoreSensitive);
    hide DistinctStarts, Alike, Filter, MoreSensitive;
    EqualIsAlike(order[i], order[i]);
    EqualIsAlike(order[i], order[j]);
    assert Filter(order, keep) == Filter(shards, keep);
    hide Stable;
    OrderOfKept(order, shards, keep, i, j, a, b);
  }

  lemma {:induction false} OrderOfKept(order: seq<Shard>, shards: seq<Shard>, keep: Shard -> bool, i: nat, j: nat, a: nat, b: nat)
    requires Filter(order, keep) == Filter(shards, keep) && DistinctStarts(order)
    requires i < j < |order| && a < |shards| && b < |shards| && shards[a] == order[i] && shards[b] == order[j]
    requires keep(order[i]) && keep(order[j])
    ensures a < b
  {
    assert shards[a] != shards[b] by {
      assert Before(order[i], order[j]) || Before(order[j], order[i]);
    }
    hide DistinctStarts, Filter;
    var x, y := FilterKeepsOrder(order, keep, i, j);
    if b < a {
      var y', x' := FilterKeepsOrder(shards, keep, b, a);
      DistinctAfterFilter(order, keep, x, x');
      DistinctAfterFilter(order, keep, y, y');
    }
  }

  lemma EqualIsAlike(a: Shard, b: Shard)
    ensures Alike(a, MoreSensitive)(b) <==> a.sensitivity == b.sensitivity
  {
    var less := MoreSensitive;
    assert Alike(a, less)(b) <==> !less(a, b) && !less(b, a);
  }

  lemma {:induction false} DistinctAfterFilter(order: seq<Shard>, keep: Shard -> bool, x: nat, y: nat)
    requires DistinctStarts(order)
    requires x < |Filter(order, keep)| && y < |Filter(order, keep)| && Filter(order, keep)[x] == Filter(order, keep)[y]
    ensures x == y
    decreases |order|
  {
    if order != [] {
      var rest := order[1..];
      assert DistinctStarts(rest) by {
        assert forall i :: 0 <= i < |rest| ==> rest[i] == order[i + 1];
      }
      var kept := Filter(rest, keep);
      assert order[0] !in kept by {
        HeadIsAlone(order);
      }
      if keep(order[0]) {
        if x > 0 && y > 0 {
          DistinctAfterFilter(rest, keep, x - 1, y - 1);
        } else {
          HeadOnly(order[0], kept, x, y);
        }
      } else {
        DistinctAfterFilter(rest, keep, x, y);
      }
    }
  }

  lemma HeadOnly<T>(head: T, rest: seq<T>, x: nat, y: nat)
    requires head !in rest
    requires x <= |rest| && y <= |rest| && (x == 0 || y == 0) && ([head] + rest)[x] == ([head] + rest)[y]
    ensures x == y
  {
    assert forall k :: 1 <= k <= |rest| ==> ([head] + rest)[k] in rest;
  }

  lemma HeadIsAlone(order: seq<Shard>)
    requires order != [] && DistinctStarts(order)
    ensures order[0] !in order[1..]
  {
    forall i | 0 <= i < |order[1..]|
      ensures order[1..][i] != order[0]
    {
      assert Before(order[0], order[i + 1]) || Before(order[i + 1], order[0]);
    }
  }

  /** Placement follows the layers exactly when sensitivity, with ties broken by the input, does. */
  lemma {:induction false} SensitivityDecides(order: seq<Shard>, shards: seq<Shard>)
    requires SortedArrangement(order, shards, MoreSensitive) && Stable(order, shards, MoreSensitive)
    requires DistinctStarts(order)
    ensures ByLayers(order) <==> SensitiveByLayers(shards)
  {
    PermutationMembers(order, shards);
    hide Stable;
    if ByLayers(order) {
      forall a, b | 0 <= a < |shards| && 0 <= b < |shards| && Before(shards[a], shards[b])
        ensures MoreSensitive(shards[a], shards[b]) || (!MoreSensitive(shards[b], shards[a]) && a < b)
      {
        assert shards[a] in order && shards[b] in order;
        var i :| 0 <= i < |order| && order[i] == shards[a];
        var j :| 0 <= j < |order| && order[j] == shards[b];
        assert i < j;
        assert !MoreSensitive(order[j], order[i]);
        if order[i].sensitivity == order[j].sensitivity {
          StableOrder(order, shards, i, j, a, b);
        }
      }
    }
    if SensitiveByLayers(shards) {
      forall i, j | 0 <= i < j < |order| && order[i].body.layers.Some? && order[j].body.layers.Some?
        ensures order[i].body.layers.value.start <= order[j].body.layers.value.start
      {
        assert order[i] in shards && order[j] in shards;
        var a :| 0 <= a < |shards| && shards[a] == order[i];
        var b :| 0 <= b < |shards| && shards[b] == order[j];
        assert !MoreSensitive(order[j], order[i]);
        if order[i].sensitivity == order[j].sensitivity {
          StableOrder(order, shards, i, j, a, b);
        }
        assert !Before(shards[b], shards[a]);
      }
    }
  }

  lemma {:induction false} SameOrderIff(stages: seq<Stage>, order: seq<Shard>, placed: seq<Stage>)
    requires multiset(stages) == multiset(placed)
    requires Ascending(stages, EarlierStage)
    requires forall i :: 0 <= i < |stages| ==> stages[i].body.layers.Some?
    requires |placed| == |order| <= TWO_31
    requires forall j :: 0 <= j < |placed| ==> placed[j].body == order[j].body && placed[j].ordinal == j % TWO_32
    ensures Map(placed, ColumnsOf) == Map(stages, ColumnsOf) <==> ByLayers(order)
  {
    hide Map, ColumnsOf;
    PermutationMembers(stages, placed);
    forall j | 0 <= j < |placed|
      ensures placed[j].body.layers.Some?
    {
      assert placed[j] in stages;
    }
    if Map(placed, ColumnsOf) == Map(stages, ColumnsOf) {
      SameColumnsSameStages(stages, placed);
      assert forall i, j :: 0 <= i < j < |order| ==> EarlierStage(placed[i], placed[j]);
      assert ByLayers(order);
    }
    if ByLayers(order) {
      LayersOfPlaced(order, placed);
      hide EarlierStage, Sorted, ByLayers;
      SortedIsUnique(stages, placed, EarlierStage);
    }
  }

  /** Distinct ordinals tell stages apart, so equal columns mean equal stages. */
  lemma SameColumnsSameStages(stages: seq<Stage>, placed: seq<Stage>)
    requires Map(stages, ColumnsOf) == Map(placed, ColumnsOf)
    requires forall s :: s in stages <==> s in placed
    requires |placed| <= TWO_31
    requires forall j :: 0 <= j < |placed| ==> placed[j].ordinal == j % TWO_32
    ensures stages == placed
  {
    hide Map;
    assert |stages| == |Map(stages, ColumnsOf)| == |placed|;
    forall j | 0 <= j < |placed|
      ensures stages[j] == placed[j]
    {
      assert ColumnsOf(stages[j]) == Map(stages, ColumnsOf)[j] == ColumnsOf(placed[j]);
      OrdinalIsIndex(placed, stages[j], j);
    }
  }

  lemma OrdinalIsIndex(placed: seq<Stage>, s: Stage, j: nat)
    requires |placed| <= TWO_31 && j < |placed|
    requires forall j :: 0 <= j < |placed| ==> placed[j].ordinal == j % TWO_32
    requires s in placed && s.ordinal == placed[j].ordinal
    ensures s == placed[j]
  {
    var k :| 0 <= k < |placed| && placed[k] == s;
    assert k % TWO_32 == k && j % TWO_32 == j;
  }

  lemma {:induction false} SequenceAscends(stages: seq<Stage>, total: nat)
    requires InSequence(stages, total)
    ensures Ascending(stages, EarlierStage)
    ensures forall i :: 0 <= i < |stages| ==> stages[i].body.layers.Some?
  {
    forall i, j | 0 <= i < j < |stages|
      ensures EarlierStage(stages[i], stages[j])
    {
      LaterStartsLater(stages, total, i, j);
    }
  }

  lemma {:induction false} LaterStartsLater(stages: seq<Stage>, total: nat, i: nat, j: nat)
    requires InSequence(stages, total)
    requires forall k :: 0 <= k < |stages| ==> stages[k].body.layers.Some? && stages[k].body.layers.value.Valid()
    requires i < j < |stages|
    ensures stages[i].body.layers.value.start < stages[j].body.layers.value.start
    decreases j
  {
    assert stages[j].body.layers.value.start == EndOf(stages[j - 1]);
    if i < j - 1 {
      LaterStartsLater(stages, total, i, j - 1);
    }
  }

  lemma LayersOfPlaced(order: seq<Shard>, placed: seq<Stage>)
    requires |placed| == |order|
    requires forall j :: 0 <= j < |placed| ==> placed[j].body == order[j].body
    requires forall j :: 0 <= j < |placed| ==> placed[j].body.layers.Some?
    requires ByLayers(order)
    ensures Sorted(placed, EarlierStage)
  {
  }

  // ---------------------------------------------------------------------------------------------
  // A scheduled plan that comes back out of order
  // ---------------------------------------------------------------------------------------------

  const NODE: Capability := Capability(10, 10, [BackendCapability(LlamaCpp, [Cpu])], [])

  function LayerShard(id: string, start: U32, sensitivity: real): Shard
    requires start + 1 < TWO_32
  {
    Shard(ShardBody(id, [], [], [], TransformerLayers, Some(LayerRange(start, start + 1)), Fp16, "", ""),
          1, [], [], 0.0, sensitivity)
  }

  const FIRST: Shard := LayerShard("a", 0, 0.0)
  const SECOND: Shard := LayerShard("b", 1, 1.0)

  /** Two layers on one node; the second layer is the more sensitive one. */
  const TWO_LAYERS: Input := Input(
    "m", "r", 2, [FIRST, SECOND], [], [Member(Peer("n", 1, ""), Alive, Participant, Some(NODE), [], 0)],
    false, Fence(0, "", 0), 0)

  function StageAt(shard: Shard, ordinal: U32): Stage {
    Stage(ordinal, "n", shard.body, LlamaCpp, 1, 0.0)
  }

  lemma OneSlotStep(shard: Shard, remaining: U64, stages: seq<Stage>, last: Option<NodeId>)
    requires shard == FIRST || shard == SECOND
    requires remaining >= 1 && |stages| < TWO_32
    ensures Step(TWO_LAYERS, shard, Config([Slot("n", NODE, remaining)], stages, last),
                 Config([Slot("n", NODE, remaining - 1)], stages + [StageAt(shard, |stages|)], Some("n")))
  {
    var slot := Slot("n", NODE, remaining);
    var slots := [slot];
    var inp := TWO_LAYERS;
    assert Compatible(shard, NODE.backends[0]);
    assert FirstCompatible(shard, NODE.backends) == Some(LlamaCpp);
    assert Required(shard, inp.reserve) == 1;
    assert Fits(inp, shard, slot);
    assert Acceptable(inp, shard, None)(slots[0]);
    assert Choose(inp, shard, slots, last) == Some(0);
    assert Charge(inp, shard, slot) == Slot("n", NODE, remaining - 1);
    assert StageFor(inp, shard, slot, |stages|) == StageAt(shard, |stages|);
    var c := Config(slots, stages, last);
    var d := PlaceAt(inp, shard, slots, stages, 0);
    assert d.slots == [Slot("n", NODE, remaining - 1)];
    assert StepVia(inp, shard, c, d, slots, 0);
  }

  lemma RangesAccepted()
    ensures LayerCheck([StageAt(SECOND, 0), StageAt(FIRST, 1)], 2, None)
  {
    var stages := [StageAt(SECOND, 0), StageAt(FIRST, 1)];
    assert stages[1..] == [StageAt(FIRST, 1)] && stages[1..][1..] == [];
    assert RangesOf([]) == [];
    assert RangesOf(stages[1..]) == [LayerRange(0, 1)];
    var ranges := RangesOf(stages);
    assert ranges == [LayerRange(1, 2), LayerRange(0, 1)];
    var sorted := [LayerRange(0, 1), LayerRange(1, 2)];
    assert SortedArrangement(sorted, ranges, EarlierStart);
    assert sorted[1..][1..] == [];
    assert Chain(sorted, 0, 2) == None;
  }

  lemma {:induction false} TwoLayersOutcome() returns (plan: Plan, order: seq<Shard>, run: seq<Config>)
    ensures Outcome(TWO_LAYERS, Ok(plan), order, run)
    ensures order == [SECOND, FIRST]
  {
    hide Step, IsRun, LayerCheck, Outcome;
    var inp := TWO_LAYERS;
    order := [SECOND, FIRST];
    var b, a := StageAt(SECOND, 0), StageAt(FIRST, 1);
    run := [Config([Slot("n", NODE, 10)], [], None), Config([Slot("n", NODE, 9)], [b], Some("n")),
            Config([Slot("n", NODE, 8)], [b, a], Some("n"))];
    plan := Plan("p", inp.model, inp.revision, inp.fence, [a, b], inp.boundaries, 0, FIVE_MINUTES_MS);
    OneSlotStep(SECOND, 10, [], None);
    OneSlotStep(FIRST, 9, [b], Some("n"));
    assert [] + [b] == [b] && [b] + [a] == [b, a];
    RunOfTwo(order, run);
    RangesAccepted();
    assert SlotsOf(inp.members) != [];
    OutcomeOfTwo(inp, plan, order, run, FIRST, SECOND, a, b);
  }

  /** The plan lists the layers in order; the stages come back in the other order. */
  lemma {:induction false} ScheduledPlanComesBackReversed()
    returns (plan: Plan, order: seq<Shard>, run: seq<Config>)
    ensures Outcome(TWO_LAYERS, Ok(plan), order, run) && AllLayered(TWO_LAYERS)
    ensures forall loaded :: multiset(loaded) == multiset(Map(plan.stages, ColumnsOf)) && Sorted(loaded, SignedBefore)
                             ==> loaded != Map(plan.stages, ColumnsOf)
  {
    plan, order, run := TwoLayersOutcome();
    assert AllLayered(TWO_LAYERS) && |TWO_LAYERS.shards| == 2;
    assert !SensitiveByLayers(TWO_LAYERS.shards) by {
      assert Before(TWO_LAYERS.shards[0], TWO_LAYERS.shards[1]);
    }
    hide Outcome, Map, SignedBefore, Sorted, SensitiveByLayers, AllLayered;
    forall loaded | multiset(loaded) == multiset(Map(plan.stages, ColumnsOf)) && Sorted(loaded, SignedBefore)
      ensures loaded != Map(plan.stages, ColumnsOf)
    {
      ScheduledOrderKeptIff(TWO_LAYERS, plan, order, run, loaded);
    }
  }

  lemma RunOfTwo(order: seq<Shard>, run: seq<Config>)
    requires order == [SECOND, FIRST] && |run| == 3
    requires run[0] == Config([Slot("n", NODE, 10)], [], None)
    requires Step(TWO_LAYERS, SECOND, run[0], run[1]) && Step(TWO_LAYERS, FIRST, run[1], run[2])
    ensures IsRun(TWO_LAYERS, order, run)
  {
    hide Step;
    var m := TWO_LAYERS.members[0];
    assert TWO_LAYERS.members[1..] == [];
    assert SlotsOf(TWO_LAYERS.members) == [SlotOf(m)];
    assert !RangeSeen(order, 0) && !RangeSeen(order, 1);
    assert PlacedAt(TWO_LAYERS, order, run, 1) && PlacedAt(TWO_LAYERS, order, run, 2);
  }

  lemma OutcomeOfTwo(inp: Input, plan: Plan, order: seq<Shard>, run: seq<Config>, first: Shard, second: Shard, a: Stage, b: Stage)
    requires inp.shards == [first, second] && order == [second, first] && second.sensitivity > first.sensitivity
    requires SlotsOf(inp.members) != []
    requires |run| == 3 && IsRun(inp, order, run) && run[2].stages == [b, a]
    requires LayerCheck([b, a], inp.totalLayers, None)
    requires plan.stages == [a, b] && EarlierStage(a, b)
    requires PlanHeader(inp, plan)
    ensures Outcome(inp, Ok(plan), order, run)
  {
    hide IsRun, LayerCheck, SlotsOf, PlanHeader, EarlierStage;
    assert !EarlierStage(b, a) by {
      EarlierIsAsymmetric(a, b);
    }
    assert multiset(order) == multiset(inp.shards);
    StableOfTwo(first, second);
    hide Stable;
    assert multiset(plan.stages) == multiset(run[2].stages);
  }

  lemma StableOfTwo(first: Shard, second: Shard)
    requires second.sensitivity > first.sensitivity
    ensures Stable([second, first], [first, second], MoreSensitive)
  {
    forall x
      ensures Filter([second, first], Alike(x, MoreSensitive)) == Filter([first, second], Alike(x, MoreSensitive))
    {
      EqualIsAlike(x, first);
      EqualIsAlike(x, second);
      FilterOfTwo(first, second, Alike(x, MoreSensitive));
    }
  }

  lemma FilterOfTwo(a: Shard, b: Shard, keep: Shard -> bool)
    requires !(keep(a) && keep(b))
    ensures Filter([b, a], keep) == Filter([a, b], keep)
  {
    assert [b, a][1..] == [a] && [a, b][1..] == [b] && [a][1..] == [] && [b][1..] == [];
    assert Filter([a], keep) == (if keep(a) then [a] else []) && Filter([b], keep) == (if keep(b) then [b] else []);
  }

  lemma EarlierIsAsymmetric(a: Stage, b: Stage)
    requires EarlierStage(a, b)
    ensures !EarlierStage(b, a)
  {
  }
}
