/** Layer coverage: the walk over sorted ranges accepts exactly the partitions of the model. */
module Coverage {
  import opened Core
  import opened Sequences
  import opened Scheduler

  function CoverAt(l: nat): LayerRange -> int {
    (r: LayerRange) => if r.start <= l < r.endExclusive then 1 else 0
  }

  function BodyCoverAt(b: ShardBody, l: nat): int {
    if b.layers.Some? then CoverAt(l)(b.layers.value) else 0
  }

  function StageCoverAt(l: nat): Stage -> int {
    (s: Stage) => BodyCoverAt(s.body, l)
  }

  function ShardCoverAt(l: nat): Shard -> int {
    (s: Shard) => BodyCoverAt(s.body, l)
  }

  ghost predicate AllValid(ranges: seq<LayerRange>) {
    forall i :: 0 <= i < |ranges| ==> ranges[i].Valid()
  }

  /** Every layer from `from` up to `total` lies in exactly one range and no other layer in any. */
  ghost predicate Tiles(ranges: seq<LayerRange>, from: nat, total: nat) {
    forall l: nat :: Sum(ranges, CoverAt(l)) == if from <= l < total then 1 else 0
  }

  // ---------------------------------------------------------------------------------------------
  // The walk and what it accepts
  // ---------------------------------------------------------------------------------------------

  lemma SortedTail(ranges: seq<LayerRange>)
    requires ranges != []
    requires Sorted(ranges, EarlierStart)
    ensures Sorted(ranges[1..], EarlierStart)
    ensures forall i :: 0 <= i < |ranges| ==> ranges[0].start <= ranges[i].start
  {
    forall i | 0 <= i < |ranges|
      ensures ranges[0].start <= ranges[i].start
    {
      assert i == 0 || !EarlierStart(ranges[i], ranges[0]);
    }
  }

  /** An accepted walk covers every layer once, also when some ranges are empty or run backwards. */
  lemma {:induction false} AcceptedCoversOnce(ranges: seq<LayerRange>, from: U32, total: U32, l: nat)
    requires ranges != []
    requires Sorted(ranges, EarlierStart)
    requires Chain(ranges, from, total) == None
    requires l < total
    ensures Sum(ranges, CoverAt(l)) == if from <= l then 1 else 0
    decreases |ranges|
  {
    var r := ranges[0];
    var rest := ranges[1..];
    SortedTail(ranges);
    if rest == [] {
      assert Sum(rest, CoverAt(l)) == 0;
    } else {
      assert rest[0] == ranges[1];
      assert rest[0].start == r.endExclusive;
      AcceptedCoversOnce(rest, r.endExclusive, total, l);
    }
  }

  /** With forward ranges an accepted walk also stays inside the model. */
  lemma {:induction false} AcceptedStaysInside(ranges: seq<LayerRange>, from: U32, total: U32, l: nat)
    requires AllValid(ranges)
    requires Chain(ranges, from, total) == None
    ensures from <= total
    ensures l >= total ==> Sum(ranges, CoverAt(l)) == 0
    decreases |ranges|
  {
    if ranges != [] {
      AcceptedStaysInside(ranges[1..], ranges[0].endExclusive, total, l);
      assert ranges[0].Valid();
    }
  }

  lemma RangeCountsWhere(ranges: seq<LayerRange>, i: nat, l: nat)
    requires i < |ranges|
    requires ranges[i].start <= l < ranges[i].endExclusive
    ensures Sum(ranges, CoverAt(l)) >= 1
  {
    SumAtLeastElement(ranges, i, CoverAt(l));
  }

  /** Sorted forward ranges that tile the model are accepted. */
  lemma {:induction false} TilingIsAccepted(ranges: seq<LayerRange>, from: U32, total: U32)
    requires Sorted(ranges, EarlierStart)
    requires AllValid(ranges)
    requires Tiles(ranges, from, total)
    requires from <= total
    ensures Chain(ranges, from, total) == None
    decreases |ranges|
  {
    if ranges == [] {
      assert Sum(ranges, CoverAt(from)) == 0;
    } else {
      var r := ranges[0];
      SortedTail(ranges);
      FirstStartsAtFrom(ranges, from, total);
      RangeCountsWhere(ranges, 0, r.endExclusive - 1);
      forall l: nat
        ensures Sum(ranges[1..], CoverAt(l)) == if r.endExclusive <= l < total then 1 else 0
      {
        assert Sum(ranges, CoverAt(l)) == CoverAt(l)(r) + Sum(ranges[1..], CoverAt(l));
      }
      TilingIsAccepted(ranges[1..], r.endExclusive, total);
    }
  }

  lemma FirstStartsAtFrom(ranges: seq<LayerRange>, from: U32, total: U32)
    requires ranges != []
    requires Sorted(ranges, EarlierStart)
    requires AllValid(ranges)
    requires Tiles(ranges, from, total)
    ensures ranges[0].start == from
  {
    var r := ranges[0];
    SortedTail(ranges);
    assert r.Valid();
    RangeCountsWhere(ranges, 0, r.start);
    assert from <= r.start < total;
    assert Sum(ranges, CoverAt(from)) == 1;
    var i := SumOneHasWitness(ranges, CoverAt(from));
  }

  /** For forward ranges, any sorted arrangement is accepted exactly when they tile the model. */
  lemma {:induction false} AcceptedIffTiling(ranges: seq<LayerRange>, sorted: seq<LayerRange>, total: U32)
    requires ranges != []
    requires AllValid(ranges)
    requires SortedArrangement(sorted, ranges, EarlierStart)
    ensures Chain(sorted, 0, total) == None <==> Tiles(ranges, 0, total)
  {
    PermutationMembers(sorted, ranges);
    assert AllValid(sorted) by {
      forall i | 0 <= i < |sorted|
        ensures sorted[i].Valid()
      {
        assert sorted[i] in ranges;
      }
    }
    forall l: nat
      ensures Sum(sorted, CoverAt(l)) == Sum(ranges, CoverAt(l))
    {
      SumOfPermutation(sorted, ranges, CoverAt(l));
    }
    if Chain(sorted, 0, total) == None {
      forall l: nat
        ensures Sum(ranges, CoverAt(l)) == if 0 <= l < total then 1 else 0
      {
        AcceptedStaysInside(sorted, 0, total, l);
        if l < total {
          AcceptedCoversOnce(sorted, 0, total, l);
        }
      }
    }
    if Tiles(ranges, 0, total) {
      assert Tiles(sorted, 0, total);
      TilingIsAccepted(sorted, 0, total);
    }
  }

  // ---------------------------------------------------------------------------------------------
  // From ranges to stages and shards
  // ---------------------------------------------------------------------------------------------

  lemma {:induction false} RangeCountIsStageCount(stages: seq<Stage>, l: nat)
    ensures Sum(RangesOf(stages), CoverAt(l)) == Sum(stages, StageCoverAt(l))
    decreases |stages|
  {
    if stages != [] {
      RangeCountIsStageCount(stages[1..], l);
      if stages[0].body.layers.Some? {
        assert RangesOf(stages) == [stages[0].body.layers.value] + RangesOf(stages[1..]);
        assert RangesOf(stages)[1..] == RangesOf(stages[1..]);
      } else {
        assert RangesOf(stages) == RangesOf(stages[1..]);
      }
    }
  }

  /** In a finished run, stages cover a layer as often as shards do, in whatever order they are listed. */
  lemma {:induction false} StageCountIsShardCount(
    inp: Input, order: seq<Shard>, placed: seq<Stage>, stages: seq<Stage>, l: nat)
    requires multiset(order) == multiset(inp.shards)
    requires multiset(stages) == multiset(placed)
    requires |placed| == |order|
    requires forall j :: 0 <= j < |placed| ==> placed[j].body == order[j].body
    ensures Sum(stages, StageCoverAt(l)) == Sum(placed, StageCoverAt(l)) == Sum(inp.shards, ShardCoverAt(l))
  {
    SumOfPermutation(stages, placed, StageCoverAt(l));
    SumOfPermutation(order, inp.shards, ShardCoverAt(l));
    SameBodiesSameCount(placed, order, l);
  }

  lemma {:induction false} SameBodiesSameCount(placed: seq<Stage>, order: seq<Shard>, l: nat)
    requires |placed| == |order|
    requires forall j :: 0 <= j < |placed| ==> placed[j].body == order[j].body
    ensures Sum(placed, StageCoverAt(l)) == Sum(order, ShardCoverAt(l))
    decreases |placed|
  {
    if placed != [] {
      SameBodiesSameCount(placed[1..], order[1..], l);
    }
  }

  lemma {:induction false} LayeredStageHasRange(stages: seq<Stage>, i: nat)
    requires i < |stages|
    requires stages[i].body.layers.Some?
    ensures RangesOf(stages) != []
    decreases |stages|
  {
    if i > 0 {
      LayeredStageHasRange(stages[1..], i - 1);
    }
  }

  lemma {:induction false} RangesAreShardRanges(stages: seq<Stage>)
    requires forall j :: 0 <= j < |stages| && stages[j].body.layers.Some? ==> stages[j].body.layers.value.Valid()
    ensures AllValid(RangesOf(stages))
    decreases |stages|
  {
    if stages != [] {
      RangesAreShardRanges(stages[1..]);
    }
  }

  // ---------------------------------------------------------------------------------------------
  // Plans
  // ---------------------------------------------------------------------------------------------

  ghost predicate SomeLayered(inp: Input) {
    exists s :: s in inp.shards && s.body.layers.Some?
  }

  ghost predicate LayersValid(inp: Input) {
    forall s :: s in inp.shards && s.body.layers.Some? ==> s.body.layers.value.Valid()
  }

  /** The shards' ranges partition the layers of the model. */
  ghost predicate Partition(inp: Input) {
    forall l: nat :: Sum(inp.shards, ShardCoverAt(l)) == if l < inp.totalLayers then 1 else 0
  }

  /** What a finished run tells about its stages, as far as coverage is concerned. */
  lemma {:induction false} FinishedRun(inp: Input, order: seq<Shard>, run: seq<Config>)
    requires inp.shards != [] && SlotsOf(inp.members) != []
    requires SortedArrangement(order, inp.shards, MoreSensitive)
    requires IsRun(inp, order, run) && |run| == |order| + 1
    ensures |run[|order|].stages| == |order|
    ensures forall j :: 0 <= j < |order| ==> run[|order|].stages[j].body == order[j].body
    ensures SomeLayered(inp) ==> RangesOf(run[|order|].stages) != []
    ensures LayersValid(inp) ==> AllValid(RangesOf(run[|order|].stages))
  {
    var placed := run[|order|].stages;
    StagesFollowOrder(inp, order, run, |order|);
    hide IsRun, RangesOf;
    PermutationMembers(order, inp.shards);
    assert forall j :: 0 <= j < |order| ==> order[j] in inp.shards;
    if SomeLayered(inp) {
      var s :| s in inp.shards && s.body.layers.Some?;
      assert s in order;
      var j :| 0 <= j < |order| && order[j] == s;
      LayeredStageHasRange(placed, j);
    }
    if LayersValid(inp) {
      RangesAreShardRanges(placed);
    }
  }

  lemma {:induction false} StagesFollowOrder(inp: Input, order: seq<Shard>, run: seq<Config>, n: nat)
    requires IsRun(inp, order, run)
    requires n < |run|
    ensures |run[n].stages| == n
    ensures forall j :: 0 <= j < n ==> run[n].stages[j].body == order[j].body
    decreases n
  {
    if n > 0 {
      StagesFollowOrder(inp, order, run, n - 1);
      RunStep(inp, order, run, n);
      hide IsRun;
      StepAddsBody(inp, order[n - 1], run[n - 1], run[n]);
    }
  }

  lemma StepAddsBody(inp: Input, shard: Shard, c: Config, d: Config)
    requires Step(inp, shard, c, d)
    ensures |d.stages| == |c.stages| + 1
    ensures d.stages[..|c.stages|] == c.stages
    ensures d.stages[|c.stages|].body == shard.body
  {
    var slots: seq<Slot>, k: nat :| StepVia(inp, shard, c, d, slots, k);
    hide Choose, SortedArrangement;
  }

  /** Exact coverage: if any shard carries layers, success means every layer of the model lies in the
      range of exactly one stage. */
  lemma {:induction false} ExactCoverage(inp: Input, plan: Plan, order: seq<Shard>, run: seq<Config>, l: nat)
    returns (i: nat)
    requires Outcome(inp, Ok(plan), order, run)
    requires SomeLayered(inp)
    requires l < inp.totalLayers
    ensures i < |plan.stages| && BodyCoverAt(plan.stages[i].body, l) == 1
    ensures forall j :: 0 <= j < |plan.stages| && BodyCoverAt(plan.stages[j].body, l) == 1 ==> j == i
  {
    var placed := run[|order|].stages;
    FinishedRun(inp, order, run);
    var sorted :| SortedArrangement(sorted, RangesOf(placed), EarlierStart)
                && Chain(sorted, 0, inp.totalLayers) == None;
    hide IsRun, RangesOf, Chain;
    PermutationMembers(sorted, RangesOf(placed));
    AcceptedCoversOnce(sorted, 0, inp.totalLayers, l);
    SumOfPermutation(sorted, RangesOf(placed), CoverAt(l));
    RangeCountIsStageCount(placed, l);
    StageCountIsShardCount(inp, order, placed, plan.stages, l);
    i := SumOneHasWitness(plan.stages, StageCoverAt(l));
    UniqueCover(plan.stages, i, l);
  }

  lemma UniqueCover(stages: seq<Stage>, i: nat, l: nat)
    requires i < |stages| && BodyCoverAt(stages[i].body, l) == 1
    requires Sum(stages, StageCoverAt(l)) == 1
    ensures forall j :: 0 <= j < |stages| && BodyCoverAt(stages[j].body, l) == 1 ==> j == i
  {
    forall j | 0 <= j < |stages| && BodyCoverAt(stages[j].body, l) == 1
      ensures j == i
    {
      SumOneIsUnique(stages, i, j, StageCoverAt(l));
    }
  }

  /** For forward ranges the layer check decides partition: no plan without one, and no refusal on
      account of layers with one. */
  lemma {:induction false} LayerVerdictIffPartition(
    inp: Input, r: Result<Plan, Failure>, order: seq<Shard>, run: seq<Config>)
    requires inp.shards != [] && SlotsOf(inp.members) != []
    requires Outcome(inp, r, order, run)
    requires SomeLayered(inp) && LayersValid(inp)
    ensures r.Ok? ==> Partition(inp)
    ensures r.Err? && !r.error.ResourceExhausted? ==> !Partition(inp)
  {
    if r.Err? && r.error.DuplicateRange? {
      DuplicateIsNoPartition(inp, order, |run| - 1);
    } else if r.Ok? || !r.error.ResourceExhausted? {
      FinishedRun(inp, order, run);
      var verdict := if r.Ok? then None else Some(r.error);
      assert LayerCheck(run[|order|].stages, inp.totalLayers, verdict);
      hide IsRun, Outcome, LayerCheck;
      CheckedRunIffPartition(inp, order, run[|order|].stages, verdict);
    }
  }

  lemma {:induction false} CheckedRunIffPartition(
    inp: Input, order: seq<Shard>, placed: seq<Stage>, verdict: Option<Failure>)
    requires multiset(order) == multiset(inp.shards)
    requires |placed| == |order|
    requires forall j :: 0 <= j < |placed| ==> placed[j].body == order[j].body
    requires RangesOf(placed) != [] && AllValid(RangesOf(placed))
    requires LayerCheck(placed, inp.totalLayers, verdict)
    ensures verdict == None <==> Partition(inp)
  {
    var sorted :| SortedArrangement(sorted, RangesOf(placed), EarlierStart)
                && Chain(sorted, 0, inp.totalLayers) == verdict;
    hide RangesOf, Chain, Sum;
    AcceptedIffTiling(RangesOf(placed), sorted, inp.totalLayers);
    forall l: nat
      ensures Sum(RangesOf(placed), CoverAt(l)) == Sum(inp.shards, ShardCoverAt(l))
    {
      RangeCountIsStageCount(placed, l);
      StageCountIsShardCount(inp, order, placed, placed, l);
    }
  }

  lemma {:induction false} DuplicateIsNoPartition(inp: Input, order: seq<Shard>, n: nat)
    requires multiset(order) == multiset(inp.shards)
    requires LayersValid(inp)
    requires n < |order| && RangeSeen(order, n)
    ensures !Partition(inp)
  {
    var j :| 0 <= j < n && order[j].body.layers == order[n].body.layers;
    PermutationMembers(order, inp.shards);
    assert order[n] in inp.shards;
    var l: nat := order[n].body.layers.value.start;
    SumOfPermutation(order, inp.shards, ShardCoverAt(l));
    if Sum(order, ShardCoverAt(l)) <= 1 {
      SumOneIsUnique(order, j, n, ShardCoverAt(l));
    }
  }

  /** The walk complains about the first range that does not start where the one before ended, or about the end. */
  lemma {:induction false} ComplaintIsFirst(ranges: seq<LayerRange>, expected: U32, total: U32)
    requires Chain(ranges, expected, total).Some?
    ensures var e := Chain(ranges, expected, total).value;
            || (exists i :: 0 <= i < |ranges| && BreaksAt(ranges, expected, i)
                            && e == LayerGap(EndBefore(ranges, expected, i), ranges[i].start))
            || ((forall i :: 0 <= i < |ranges| ==> ranges[i].start == EndBefore(ranges, expected, i))
                && EndBefore(ranges, expected, |ranges|) != total && e == Uncovered(EndBefore(ranges, expected, |ranges|), total))
    decreases |ranges|
  {
    if ranges != [] {
      if ranges[0].start != expected {
        assert BreaksAt(ranges, expected, 0);
      } else {
        var rest, next := ranges[1..], ranges[0].endExclusive;
        ComplaintIsFirst(rest, next, total);
        forall i | 0 <= i <= |rest|
          ensures EndBefore(ranges, expected, i + 1) == EndBefore(rest, next, i)
        {
        }
        if i :| 0 <= i < |rest| && BreaksAt(rest, next, i) && Chain(rest, next, total).value == LayerGap(EndBefore(rest, next, i), rest[i].start) {
          BreakMoves(ranges, expected, i);
        } else {
          forall i | 0 <= i < |ranges|
            ensures ranges[i].start == EndBefore(ranges, expected, i)
          {
            if i > 0 {
              assert rest[i - 1] == ranges[i] && rest[i - 1].start == EndBefore(rest, next, i - 1);
            }
          }
        }
      }
    }
  }

  /** Where the range before index `i` ended. */
  function EndBefore(ranges: seq<LayerRange>, expected: U32, i: nat): U32
    requires i <= |ranges|
  {
    if i == 0 then expected else ranges[i - 1].endExclusive
  }

  ghost predicate BreaksAt(ranges: seq<LayerRange>, expected: U32, i: nat)
    requires i < |ranges|
  {
    ranges[i].start != EndBefore(ranges, expected, i) && forall j :: 0 <= j < i ==> ranges[j].start == EndBefore(ranges, expected, j)
  }

  lemma BreakMoves(ranges: seq<LayerRange>, expected: U32, i: nat)
    requires ranges != [] && ranges[0].start == expected
    requires i < |ranges| - 1 && BreaksAt(ranges[1..], ranges[0].endExclusive, i)
    ensures BreaksAt(ranges, expected, i + 1)
  {
    forall j | 0 <= j < i + 1
      ensures ranges[j].start == EndBefore(ranges, expected, j)
    {
      if j > 0 {
        assert ranges[1..][j - 1].start == EndBefore(ranges[1..], ranges[0].endExclusive, j - 1);
      }
    }
  }

  // ---------------------------------------------------------------------------------------------
  // Duplicate ranges
  // ---------------------------------------------------------------------------------------------

  function HasRange(range: LayerRange): Shard -> int {
    (s: Shard) => if s.body.layers == Some(range) then 1 else 0
  }

  /** A range is refused as a duplicate only if at least two shards have it, and in a planned input no two do. */
  lemma {:induction false} DuplicatesAreRefused(inp: Input, r: Result<Plan, Failure>, order: seq<Shard>, run: seq<Config>, range: LayerRange)
    requires Outcome(inp, r, order, run)
    ensures r == Err(DuplicateRange(range)) ==> Sum(inp.shards, HasRange(range)) >= 2
    ensures r.Ok? ==> Sum(inp.shards, HasRange(range)) <= 1
  {
    hide Sum, SlotsOf, Step, Stuck, LayerCheck, Sorted, Stable, PlacedAt, RangeSeen, HasRange, PlanHeader;
    if inp.shards != [] && SlotsOf(inp.members) != [] {
      SumOfPermutation(order, inp.shards, HasRange(range));
      hide SortedArrangement;
      if r == Err(DuplicateRange(range)) {
        SeenTwice(order, |run| - 1, range);
      } else if r.Ok? {
        forall i | 0 <= i < |order|
          ensures !RangeSeen(order, i)
        {
          RunRangeIsNew(inp, order, run, i + 1);
        }
        AtMostOnce(order, |order|, range);
        assert order[..|order|] == order;
      }
    }
  }

  lemma {:induction false} SeenTwice(order: seq<Shard>, n: nat, range: LayerRange)
    requires n < |order| && RangeSeen(order, n) && order[n].body.layers == Some(range)
    ensures Sum(order, HasRange(range)) >= 2
  {
    var j :| 0 <= j < n && order[j].body.layers == order[n].body.layers;
    var rest := order[..n] + order[n + 1..];
    SumWithout(order, n, HasRange(range));
    assert rest[j] == order[j];
    SumAtLeastElement(rest, j, HasRange(range));
  }

  lemma {:induction false} AtMostOnce(order: seq<Shard>, n: nat, range: LayerRange)
    requires n <= |order| && forall i :: 0 <= i < n ==> !RangeSeen(order, i)
    ensures Sum(order[..n], HasRange(range)) <= 1
    decreases n
  {
    if n > 0 {
      AtMostOnce(order, n - 1, range);
      assert order[..n] == order[..n - 1] + [order[n - 1]];
      SumOfConcatenation(order[..n - 1], [order[n - 1]], HasRange(range));
      if order[n - 1].body.layers == Some(range) && Sum(order[..n - 1], HasRange(range)) > 0 {
        var j := SumOneHasWitness(order[..n - 1], HasRange(range));
        assert RangeSeen(order, n - 1);
      }
    }
  }
}
