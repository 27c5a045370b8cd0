/** The placement engine: orders shards by sensitivity, gives each to the node with most remaining
    memory that can run it, then checks that the layer ranges tile the model.

    `Outcome` is the specification: a relation between an input, a result, the order in which shards
    were treated and the run of placement states in between.  Sorting the shards is stable; every other
    sort is "some sorted permutation", so the relation covers every way ties can be broken.
    `ScheduleCore` is the loop of the code, proved to stay inside the relation; the properties of plans
    are proved about it. */
module Scheduler {
  import opened Core
  import opened Sequences

  datatype Input = Input(
    model: string,
    revision: string,
    totalLayers: U32,
    shards: seq<Shard>,
    boundaries: seq<string>,
    members: seq<Member>,
    hasLinks: bool,
    fence: Fence,
    reserve: U64)

  datatype Failure =
    | NoShards
    | NoMembers
    | DuplicateRange(range: LayerRange)
    | ResourceExhausted(shard: string)
    | LayerGap(expected: U32, got: U32)
    | Uncovered(end: U32, total: U32)

  const FIVE_MINUTES_MS: int := 300000

  // ---------------------------------------------------------------------------------------------
  // Backend compatibility
  // ---------------------------------------------------------------------------------------------

  /** Whether one offered backend can run the shard; an empty list on the shard accepts anything. */
  predicate Compatible(shard: Shard, offer: BackendCapability) {
    && (shard.compatibleBackends == [] || offer.kind in shard.compatibleBackends)
    && (shard.requiredUnits == [] || exists u :: u in shard.requiredUnits && u in offer.computeUnits)
  }

  function FirstCompatible(shard: Shard, offers: seq<BackendCapability>): (r: Option<BackendKind>)
    ensures r.None? <==> forall i :: 0 <= i < |offers| ==> !Compatible(shard, offers[i])
  {
    if offers == [] then None
    else if Compatible(shard, offers[0]) then Some(offers[0].kind)
    else
      var r := FirstCompatible(shard, offers[1..]);
      assert forall i :: 0 <= i < |offers| ==> i == 0 || offers[i] == offers[1..][i - 1];
      assert forall i :: 0 <= i < |offers[1..]| ==> offers[1..][i] == offers[i + 1];
      r
  }

  /** The answer is the first compatible offer. */
  lemma {:induction false} FirstCompatibleIsFirst(shard: Shard, offers: seq<BackendCapability>) returns (i: int)
    requires FirstCompatible(shard, offers).Some?
    ensures IsFirstOffer(shard, offers, i) && offers[i].kind == FirstCompatible(shard, offers).value
    decreases |offers|
  {
    if Compatible(shard, offers[0]) {
      i := 0;
    } else {
      var rest := offers[1..];
      var k := FirstCompatibleIsFirst(shard, rest);
      hide Compatible;
      i := k + 1;
      assert offers[i] == rest[k];
      forall j | 0 <= j < i
        ensures !Compatible(shard, offers[j])
      {
        assert j > 0 ==> offers[j] == rest[j - 1];
      }
    }
  }

  /** Offer `i` is compatible and none before it is. */
  ghost predicate IsFirstOffer(shard: Shard, offers: seq<BackendCapability>, i: int) {
    0 <= i < |offers| && Compatible(shard, offers[i]) && forall j :: 0 <= j < i ==> !Compatible(shard, offers[j])
  }

  /** An empty list asks for nothing; otherwise the backend is listed, and one required unit is offered. */
  lemma CompatibleIff(shard: Shard, offer: BackendCapability)
    ensures Compatible(shard, offer) <==>
            && (|shard.compatibleBackends| > 0 ==>
                  exists i :: 0 <= i < |shard.compatibleBackends| && shard.compatibleBackends[i] == offer.kind)
            && (|shard.requiredUnits| > 0 ==>
                  exists i, j :: 0 <= i < |shard.requiredUnits| && 0 <= j < |offer.computeUnits|
                                 && shard.requiredUnits[i] == offer.computeUnits[j])
  {
    if i, j :| 0 <= i < |shard.requiredUnits| && 0 <= j < |offer.computeUnits| && shard.requiredUnits[i] == offer.computeUnits[j] {
      assert shard.requiredUnits[i] in shard.requiredUnits && shard.requiredUnits[i] in offer.computeUnits;
    }
  }

  /** The nested scans of the code. */
  method FindCompatibleBackend(shard: Shard, cap: Capability) returns (r: Option<BackendKind>)
    ensures r == FirstCompatible(shard, cap.backends)
  {
    var anyBackend := shard.compatibleBackends == [];
    var anyUnit := shard.requiredUnits == [];
    for i := 0 to |cap.backends|
      invariant FirstCompatible(shard, cap.backends) == FirstCompatible(shard, cap.backends[i..])
    {
      var offer := cap.backends[i];
      assert cap.backends[i..][1..] == cap.backends[i + 1..];
      var found := ListsKind(shard.compatibleBackends, offer.kind);
      found := anyBackend || found;
      if !found {
        continue;
      }
      if anyUnit {
        return Some(offer.kind);
      }
      var shared := ShareUnit(shard.requiredUnits, offer.computeUnits);
      if shared {
        return Some(offer.kind);
      }
    }
    return None;
  }

  method ListsKind(kinds: seq<BackendKind>, kind: BackendKind) returns (found: bool)
    ensures found <==> kind in kinds
  {
    for j := 0 to |kinds|
      invariant kind !in kinds[..j]
    {
      if kind == kinds[j] {
        return true;
      }
    }
    assert kinds[..|kinds|] == kinds;
    return false;
  }

  method ShareUnit(required: seq<ComputeUnit>, offered: seq<ComputeUnit>) returns (shared: bool)
    ensures shared <==> exists u :: u in required && u in offered
  {
    for j := 0 to |required|
      invariant forall a :: 0 <= a < j ==> required[a] !in offered
    {
      for k := 0 to |offered|
        invariant required[j] !in offered[..k]
      {
        if offered[k] == required[j] {
          assert required[j] in required && required[j] in offered;
          return true;
        }
      }
      assert offered[..|offered|] == offered;
    }
    return false;
  }

  /** Microseconds per token from the first usable benchmark, or else the shard's own estimate. */
  function TimeEstimate(shard: Shard, benchmarks: seq<Benchmark>, backend: BackendKind): real {
    if benchmarks == [] then shard.decodeMicroseconds
    else
      var b := benchmarks[0];
      if b.backend == backend && b.quantization == shard.body.quantization && b.decodeTokensPerSecond > 0.0 then
        1000000.0 / b.decodeTokensPerSecond
      else if b.backend == backend && b.quantization == shard.body.quantization && b.firstTokenMicroseconds > 0 then
        b.firstTokenMicroseconds as real
      else TimeEstimate(shard, benchmarks[1..], backend)
  }

  /** A benchmark of the backend and quantization with a positive rate or latency. */
  predicate Usable(shard: Shard, b: Benchmark, backend: BackendKind) {
    && b.backend == backend && b.quantization == shard.body.quantization
    && (b.decodeTokensPerSecond > 0.0 || b.firstTokenMicroseconds > 0)
  }

  /** The first usable benchmark decides: microseconds per token, or its latency if it has no rate; without one
      the shard's own estimate stands. */
  lemma {:induction false} EstimateIsFirstUsable(shard: Shard, benchmarks: seq<Benchmark>, backend: BackendKind)
    ensures (forall i :: 0 <= i < |benchmarks| ==> !Usable(shard, benchmarks[i], backend)) ==>
              TimeEstimate(shard, benchmarks, backend) == shard.decodeMicroseconds
    ensures forall i :: 0 <= i < |benchmarks| && Usable(shard, benchmarks[i], backend)
                        && (forall j :: 0 <= j < i ==> !Usable(shard, benchmarks[j], backend)) ==>
              var b := benchmarks[i];
              TimeEstimate(shard, benchmarks, backend)
              == if b.decodeTokensPerSecond > 0.0 then 1000000.0 / b.decodeTokensPerSecond else b.firstTokenMicroseconds as real
    decreases |benchmarks|
  {
    if benchmarks != [] && !Usable(shard, benchmarks[0], backend) {
      var rest := benchmarks[1..];
      EstimateIsFirstUsable(shard, rest, backend);
      assert TimeEstimate(shard, benchmarks, backend) == TimeEstimate(shard, rest, backend);
      hide TimeEstimate, Usable;
      assert forall i :: 0 <= i < |rest| ==> rest[i] == benchmarks[i + 1];
      forall i | 0 <= i < |benchmarks| && Usable(shard, benchmarks[i], backend)
                 && (forall j :: 0 <= j < i ==> !Usable(shard, benchmarks[j], backend))
        ensures TimeEstimate(shard, benchmarks, backend)
                == if benchmarks[i].decodeTokensPerSecond > 0.0 then 1000000.0 / benchmarks[i].decodeTokensPerSecond
                   else benchmarks[i].firstTokenMicroseconds as real
      {
        assert rest[i - 1] == benchmarks[i];
      }
    }
  }

  // ---------------------------------------------------------------------------------------------
  // Slots
  // ---------------------------------------------------------------------------------------------

  datatype Slot = Slot(node: NodeId, capability: Capability, remaining: U64)

  predicate Eligible(m: Member) {
    m.state == Alive && m.capability.Some?
  }

  function SlotOf(m: Member): Slot
    requires Eligible(m)
  {
    Slot(m.peer.id, m.capability.value, m.capability.value.availableMemory)
  }

  function SlotsOf(members: seq<Member>): seq<Slot> {
    if members == [] then []
    else
      (if Eligible(members[0]) then [SlotOf(members[0])] else []) + SlotsOf(members[1..])
  }

  lemma {:induction false} SlotHasMember(members: seq<Member>, slot: Slot) returns (m: Member)
    requires slot in SlotsOf(members)
    ensures m in members && Eligible(m) && slot == SlotOf(m)
    decreases |members|
  {
    if Eligible(members[0]) && slot == SlotOf(members[0]) {
      m := members[0];
    } else {
      assert slot in SlotsOf(members[1..]);
      m := SlotHasMember(members[1..], slot);
    }
  }

  lemma {:induction false} SlotsOfAppend(ms: seq<Member>, m: Member)
    ensures SlotsOf(ms + [m]) == SlotsOf(ms) + (if Eligible(m) then [SlotOf(m)] else [])
    decreases |ms|
  {
    hide Eligible;
    if ms == [] {
      assert ms + [m] == [m] && [m][1..] == [];
      assert SlotsOf([]) == [];
    } else {
      SlotsOfAppend(ms[1..], m);
      assert (ms + [m])[1..] == ms[1..] + [m] && (ms + [m])[0] == ms[0];
    }
  }

  method BuildNodeSlots(members: seq<Member>) returns (slots: seq<Slot>)
    ensures slots == SlotsOf(members)
  {
    slots := [];
    for i := 0 to |members|
      invariant slots == SlotsOf(members[..i])
    {
      SlotsOfAppend(members[..i], members[i]);
      assert members[..i + 1] == members[..i] + [members[i]];
      if members[i].state != Alive {
        continue;
      }
      if members[i].capability.None? {
        continue;
      }
      slots := slots + [SlotOf(members[i])];
    }
    assert members[..|members|] == members;
  }

  // ---------------------------------------------------------------------------------------------
  // Comparators
  // ---------------------------------------------------------------------------------------------

  predicate MoreSensitive(a: Shard, b: Shard) {
    a.sensitivity > b.sensitivity
  }

  predicate MoreRemaining(a: Slot, b: Slot) {
    a.remaining > b.remaining
  }

  predicate EarlierStart(a: LayerRange, b: LayerRange) {
    a.start < b.start
  }

  /** Stages without layers come first. */
  predicate EarlierStage(a: Stage, b: Stage) {
    if a.body.layers.Some? && b.body.layers.Some? then a.body.layers.value.start < b.body.layers.value.start
    else a.body.layers.None? && b.body.layers.Some?
  }

  // ---------------------------------------------------------------------------------------------
  // Placing one shard
  // ---------------------------------------------------------------------------------------------

  /** Bytes charged for a shard, in 64-bit arithmetic. */
  function Required(shard: Shard, reserve: U64): U64 {
    (shard.peakMemory + reserve) % TWO_64
  }

  predicate Fits(inp: Input, shard: Shard, slot: Slot) {
    Required(shard, inp.reserve) <= slot.remaining && FirstCompatible(shard, slot.capability.backends).Some?
  }

  function AtNode(node: NodeId): Slot -> bool {
    (s: Slot) => s.node == node
  }

  /** Slots the scan accepts: those that fit, except at a node that was already tried. */
  function Acceptable(inp: Input, shard: Shard, tried: Option<NodeId>): Slot -> bool {
    (s: Slot) => !(tried.Some? && s.node == tried.value) && Fits(inp, shard, s)
  }

  ghost predicate IsFirst(slots: seq<Slot>, p: Slot -> bool, r: Option<nat>) {
    match r
    case Some(k) => k < |slots| && p(slots[k]) && forall j :: 0 <= j < k ==> !p(slots[j])
    case None => forall j :: 0 <= j < |slots| ==> !p(slots[j])
  }

  function FirstIndex(slots: seq<Slot>, p: Slot -> bool): (r: Option<nat>)
    ensures IsFirst(slots, p, r)
  {
    if slots == [] then None
    else if p(slots[0]) then Some(0)
    else
      var r := FirstIndex(slots[1..], p);
      if r.Some? then Some(r.value + 1) else None
  }

  /** With network links the node used last is tried first; otherwise, and if it does not fit, the
      first acceptable slot in order. */
  function Choose(inp: Input, shard: Shard, slots: seq<Slot>, last: Option<NodeId>): (r: Option<nat>)
    ensures r.Some? ==> r.value < |slots| && Fits(inp, shard, slots[r.value])
  {
    var tried := if inp.hasLinks then last else None;
    var again := if tried.Some? then FirstIndex(slots, AtNode(tried.value)) else None;
    if again.Some? && Fits(inp, shard, slots[again.value]) then again
    else FirstIndex(slots, Acceptable(inp, shard, tried))
  }

  method ChooseSlot(inp: Input, shard: Shard, slots: seq<Slot>, last: Option<NodeId>) returns (r: Option<nat>)
    ensures r == Choose(inp, shard, slots, last)
  {
    hide Fits, FirstIndex, IsFirst;
    var tried := if inp.hasLinks then last else None;
    if tried.Some? {
      var again := FindNode(slots, tried.value);
      if again.Some? {
        var fits := TrySlot(inp, shard, slots[again.value]);
        if fits {
          return again;
        }
      }
    }
    r := ScanSlots(inp, shard, slots, tried);
  }

  method FindNode(slots: seq<Slot>, node: NodeId) returns (r: Option<nat>)
    ensures r == FirstIndex(slots, AtNode(node))
    ensures r.Some? ==> r.value < |slots|
  {
    hide FirstIndex;
    for i := 0 to |slots|
      invariant forall j :: 0 <= j < i ==> slots[j].node != node
    {
      if slots[i].node == node {
        assert IsFirst(slots, AtNode(node), Some(i));
        return Some(i);
      }
    }
    return None;
  }

  method ScanSlots(inp: Input, shard: Shard, slots: seq<Slot>, tried: Option<NodeId>) returns (r: Option<nat>)
    ensures r == FirstIndex(slots, Acceptable(inp, shard, tried))
  {
    hide FirstIndex, Fits;
    ghost var p := Acceptable(inp, shard, tried);
    for i := 0 to |slots|
      invariant forall j :: 0 <= j < i ==> !p(slots[j])
    {
      if tried.Some? && slots[i].node == tried.value {
        continue;
      }
      var fits := TrySlot(inp, shard, slots[i]);
      if fits {
        assert IsFirst(slots, p, Some(i));
        return Some(i);
      }
    }
    return None;
  }

  method TrySlot(inp: Input, shard: Shard, slot: Slot) returns (fits: bool)
    ensures fits == Fits(inp, shard, slot)
  {
    if slot.remaining < Required(shard, inp.reserve) {
      return false;
    }
    var backend := FindCompatibleBackend(shard, slot.capability);
    return backend.Some?;
  }

  function StageFor(inp: Input, shard: Shard, slot: Slot, ordinal: U32): Stage
    requires Fits(inp, shard, slot)
  {
    var backend := FirstCompatible(shard, slot.capability.backends).value;
    Stage(ordinal, slot.node, shard.body, backend, Required(shard, inp.reserve),
          TimeEstimate(shard, slot.capability.benchmarks, backend))
  }

  function Charge(inp: Input, shard: Shard, slot: Slot): Slot
    requires Fits(inp, shard, slot)
  {
    slot.(remaining := slot.remaining - Required(shard, inp.reserve))
  }

  // ---------------------------------------------------------------------------------------------
  // Runs of placements
  // ---------------------------------------------------------------------------------------------

  datatype Config = Config(slots: seq<Slot>, stages: seq<Stage>, last: Option<NodeId>)

  function InitialConfig(inp: Input): Config {
    Config(SlotsOf(inp.members), [], None)
  }

  function PlaceAt(inp: Input, shard: Shard, slots: seq<Slot>, stages: seq<Stage>, k: nat): Config
    requires k < |slots| && Fits(inp, shard, slots[k])
  {
    Config(slots[k := Charge(inp, shard, slots[k])],
           stages + [StageFor(inp, shard, slots[k], |stages| % TWO_32)],
           Some(slots[k].node))
  }

  /** `slots` is the re-sorted slot list from which the shard was placed at index `k`. */
  ghost predicate StepVia(inp: Input, shard: Shard, c: Config, d: Config, slots: seq<Slot>, k: nat) {
    && SortedArrangement(slots, c.slots, MoreRemaining)
    && Choose(inp, shard, slots, c.last) == Some(k)
    && d == PlaceAt(inp, shard, slots, c.stages, k)
  }

  ghost predicate Step(inp: Input, shard: Shard, c: Config, d: Config) {
    exists slots, k :: StepVia(inp, shard, c, d, slots, k)
  }

  ghost predicate Stuck(inp: Input, shard: Shard, c: Config) {
    exists slots :: SortedArrangement(slots, c.slots, MoreRemaining) && Choose(inp, shard, slots, c.last).None?
  }

  predicate RangeSeen(order: seq<Shard>, i: nat)
    requires i < |order|
  {
    order[i].body.layers.Some? && exists j :: 0 <= j < i && order[j].body.layers == order[i].body.layers
  }

  ghost predicate IsRun(inp: Input, order: seq<Shard>, run: seq<Config>) {
    && 1 <= |run| <= |order| + 1
    && run[0] == InitialConfig(inp)
    && forall i :: 0 < i < |run| ==> PlacedAt(inp, order, run, i)
  }

  /** State `n` follows from state `n - 1` by placing the next shard, whose range is new. */
  ghost predicate PlacedAt(inp: Input, order: seq<Shard>, run: seq<Config>, n: nat)
    requires 0 < n < |run| <= |order| + 1
  {
    !RangeSeen(order, n - 1) && Step(inp, order[n - 1], run[n - 1], run[n])
  }

  lemma RunStep(inp: Input, order: seq<Shard>, run: seq<Config>, n: nat)
    requires IsRun(inp, order, run)
    requires 0 < n < |run|
    ensures Step(inp, order[n - 1], run[n - 1], run[n])
  {
    assert PlacedAt(inp, order, run, n);
  }

  lemma RunRangeIsNew(inp: Input, order: seq<Shard>, run: seq<Config>, n: nat)
    requires IsRun(inp, order, run)
    requires 0 < n < |run|
    ensures !RangeSeen(order, n - 1)
  {
    assert PlacedAt(inp, order, run, n);
  }

  // ---------------------------------------------------------------------------------------------
  // Layer check
  // ---------------------------------------------------------------------------------------------

  function RangesOf(stages: seq<Stage>): seq<LayerRange> {
    if stages == [] then []
    else (if stages[0].body.layers.Some? then [stages[0].body.layers.value] else []) + RangesOf(stages[1..])
  }

  /** Walks the sorted ranges: each must start where the one before ended. */
  function Chain(ranges: seq<LayerRange>, expected: U32, total: U32): Option<Failure> {
    if ranges == [] then
      if expected != total then Some(Uncovered(expected, total)) else None
    else if ranges[0].start != expected then Some(LayerGap(expected, ranges[0].start))
    else Chain(ranges[1..], ranges[0].endExclusive, total)
  }

  ghost predicate LayerCheck(stages: seq<Stage>, total: U32, verdict: Option<Failure>) {
    if RangesOf(stages) == [] then verdict == None
    else exists sorted ::
        SortedArrangement(sorted, RangesOf(stages), EarlierStart) && Chain(sorted, 0, total) == verdict
  }

  // ---------------------------------------------------------------------------------------------
  // Outcome
  // ---------------------------------------------------------------------------------------------

  ghost predicate PlanHeader(inp: Input, plan: Plan) {
    && plan.model == inp.model
    && plan.revision == inp.revision
    && plan.fence == inp.fence
    && plan.boundaries == inp.boundaries
    && plan.validFor == FIVE_MINUTES_MS
  }

  ghost predicate Outcome(inp: Input, r: Result<Plan, Failure>, order: seq<Shard>, run: seq<Config>) {
    if inp.shards == [] then r == Err(NoShards)
    else if SlotsOf(inp.members) == [] then r == Err(NoMembers)
    else
      && SortedArrangement(order, inp.shards, MoreSensitive) && Stable(order, inp.shards, MoreSensitive)
      && IsRun(inp, order, run)
      && var n := |run| - 1;
      match r
      case Err(DuplicateRange(range)) =>
        n < |order| && RangeSeen(order, n) && order[n].body.layers == Some(range)
      case Err(ResourceExhausted(id)) =>
        n < |order| && !RangeSeen(order, n) && order[n].body.id == id && Stuck(inp, order[n], run[n])
      case Err(LayerGap(_, _)) =>
        n == |order| && LayerCheck(run[n].stages, inp.totalLayers, Some(r.error))
      case Err(Uncovered(_, _)) =>
        n == |order| && LayerCheck(run[n].stages, inp.totalLayers, Some(r.error))
      case Err(_) => false
      case Ok(plan) =>
        && n == |order|
        && LayerCheck(run[n].stages, inp.totalLayers, None)
        && SortedArrangement(plan.stages, run[n].stages, EarlierStage)
        && PlanHeader(inp, plan)
  }

  // ---------------------------------------------------------------------------------------------
  // The loops
  // ---------------------------------------------------------------------------------------------

  method CollectRanges(stages: seq<Stage>) returns (ranges: seq<LayerRange>)
    ensures ranges == RangesOf(stages)
  {
    ranges := [];
    for i := 0 to |stages|
      invariant ranges + RangesOf(stages[i..]) == RangesOf(stages)
    {
      assert stages[i..][1..] == stages[i + 1..];
      if stages[i].body.layers.Some? {
        ranges := ranges + [stages[i].body.layers.value];
      }
    }
  }

  method WalkRanges(sorted: seq<LayerRange>, total: U32) returns (verdict: Option<Failure>)
    ensures verdict == Chain(sorted, 0, total)
  {
    var expected: U32 := 0;
    for i := 0 to |sorted|
      invariant Chain(sorted, 0, total) == Chain(sorted[i..], expected, total)
    {
      assert sorted[i..][1..] == sorted[i + 1..];
      if sorted[i].start != expected {
        return Some(LayerGap(expected, sorted[i].start));
      }
      expected := sorted[i].endExclusive;
    }
    if expected != total {
      return Some(Uncovered(expected, total));
    }
    return None;
  }

  method CheckLayers(stages: seq<Stage>, total: U32) returns (verdict: Option<Failure>)
    ensures LayerCheck(stages, total, verdict)
  {
    var ranges := CollectRanges(stages);
    if ranges == [] {
      return None;
    }
    var sorted := Sort(ranges, EarlierStart);
    verdict := WalkRanges(sorted, total);
  }

  method PlaceShard(inp: Input, shard: Shard, c: Config) returns (next: Option<Config>)
    ensures next.Some? ==> Step(inp, shard, c, next.value)
    ensures next.None? ==> Stuck(inp, shard, c)
  {
    var slots := Sort(c.slots, MoreRemaining);
    var k := ChooseSlot(inp, shard, slots, c.last);
    if k.None? {
      return None;
    }
    var d := PlaceAt(inp, shard, slots, c.stages, k.value);
    assert StepVia(inp, shard, c, d, slots, k.value);
    return Some(d);
  }

  /** `taken` holds exactly the ranges carried by `shards`. */
  ghost predicate Seen(taken: set<LayerRange>, shards: seq<Shard>) {
    forall range :: range in taken <==> exists j :: 0 <= j < |shards| && shards[j].body.layers == Some(range)
  }

  lemma SeenIsRangeSeen(taken: set<LayerRange>, order: seq<Shard>, i: nat)
    requires i < |order|
    requires Seen(taken, order[..i])
    ensures RangeSeen(order, i) <==> order[i].body.layers.Some? && order[i].body.layers.value in taken
    ensures order[i].body.layers.Some? ==> Seen(taken + {order[i].body.layers.value}, order[..i + 1])
    ensures order[i].body.layers.None? ==> Seen(taken, order[..i + 1])
  {
    var before := order[..i];
    var after := order[..i + 1];
    assert forall j :: 0 <= j < i ==> before[j] == order[j] == after[j];
    assert after[i] == order[i];
    forall range
      ensures (exists j :: 0 <= j < |after| && after[j].body.layers == Some(range)) <==>
              (exists j :: 0 <= j < |before| && before[j].body.layers == Some(range))
              || order[i].body.layers == Some(range)
    {
    }
  }

  lemma ExtendRun(inp: Input, order: seq<Shard>, run: seq<Config>, d: Config)
    requires IsRun(inp, order, run)
    requires |run| <= |order|
    requires !RangeSeen(order, |run| - 1)
    requires Step(inp, order[|run| - 1], run[|run| - 1], d)
    ensures IsRun(inp, order, run + [d])
  {
    hide Step;
    var r := run + [d];
    forall i | 0 < i < |r|
      ensures PlacedAt(inp, order, r, i)
    {
      if i < |run| {
        assert PlacedAt(inp, order, run, i);
      }
    }
  }

  lemma {:induction false} SlotsOfNobody(members: seq<Member>)
    ensures SlotsOf(members) == [] <==> forall m :: m in members ==> m.state != Alive || m.capability.None?
    decreases |members|
  {
    if members != [] {
      SlotsOfNobody(members[1..]);
      assert members == [members[0]] + members[1..];
      assert Eligible(members[0]) ==> SlotsOf(members)[0] == SlotOf(members[0]);
    }
  }

  method ScheduleCore(inp: Input, nodeSlots: seq<Slot>, planId: string, now: I64)
    returns (r: Result<Plan, Failure>, ghost order: seq<Shard>, ghost run: seq<Config>)
    requires nodeSlots == SlotsOf(inp.members)
    ensures Outcome(inp, r, order, run)
    ensures r == Err(NoShards) <==> inp.shards == []
    ensures r == Err(NoMembers) <==> inp.shards != [] && forall m :: m in inp.members ==> m.state != Alive || m.capability.None?
    ensures r.Ok? ==>
              && r.value.id == planId && r.value.issuedAt == now && r.value.validFor == 5 * 60 * 1000
              && r.value.model == inp.model && r.value.revision == inp.revision && r.value.fence == inp.fence
              && r.value.boundaries == inp.boundaries
  {
    SlotsOfNobody(inp.members);
    hide Step, Stuck, LayerCheck, SlotsOf, SortedArrangement;
    order, run := [], [];
    if inp.shards == [] {
      return Err(NoShards), order, run;
    }
    if nodeSlots == [] {
      return Err(NoMembers), order, run;
    }
    var shards := StableSort(inp.shards, MoreSensitive);
    var c := Config(nodeSlots, [], None);
    var taken: set<LayerRange> := {};
    order, run := shards, [c];
    for i := 0 to |shards|
      invariant IsRun(inp, order, run) && |run| == i + 1 && run[i] == c
      invariant Seen(taken, shards[..i])
    {
      assert shards[..i + 1] == shards[..i] + [shards[i]];
      SeenIsRangeSeen(taken, shards, i);
      if shards[i].body.layers.Some? {
        var range := shards[i].body.layers.value;
        if range in taken {
          return Err(DuplicateRange(range)), order, run;
        }
        taken := taken + {range};
      }
      var next := PlaceShard(inp, shards[i], c);
      if next.None? {
        return Err(ResourceExhausted(shards[i].body.id)), order, run;
      }
      c := next.value;
      ExtendRun(inp, order, run, c);
      run := run + [c];
    }
    var verdict := CheckLayers(c.stages, inp.totalLayers);
    if verdict.Some? {
      ChainVerdict(c.stages, inp.totalLayers, verdict.value);
      return Err(verdict.value), order, run;
    }
    var stages := Sort(c.stages, EarlierStage);
    r := Ok(Plan(planId, inp.model, inp.revision, inp.fence, stages, inp.boundaries, now, FIVE_MINUTES_MS));
  }

  lemma {:induction false} ChainFailures(ranges: seq<LayerRange>, expected: U32, total: U32)
    ensures var v := Chain(ranges, expected, total); v.Some? ==> v.value.LayerGap? || v.value.Uncovered?
    decreases |ranges|
  {
    if ranges != [] && ranges[0].start == expected {
      ChainFailures(ranges[1..], ranges[0].endExclusive, total);
    }
  }

  lemma ChainVerdict(stages: seq<Stage>, total: U32, f: Failure)
    requires LayerCheck(stages, total, Some(f))
    ensures f.LayerGap? || f.Uncovered?
  {
    var sorted :| SortedArrangement(sorted, RangesOf(stages), EarlierStart) && Chain(sorted, 0, total) == Some(f);
    ChainFailures(sorted, 0, total);
  }

  method CreatePlan(inp: Input, planId: string, now: I64)
    returns (r: Result<Plan, Failure>, ghost order: seq<Shard>, ghost run: seq<Config>)
    ensures Outcome(inp, r, order, run)
    ensures r == Err(NoShards) <==> inp.shards == []
    ensures r == Err(NoMembers) <==> inp.shards != [] && forall m :: m in inp.members ==> m.state != Alive || m.capability.None?
    ensures r.Ok? ==>
              && r.value.id == planId && r.value.issuedAt == now && r.value.validFor == 5 * 60 * 1000
              && r.value.model == inp.model && r.value.revision == inp.revision && r.value.fence == inp.fence
              && r.value.boundaries == inp.boundaries
  {
    var slots := BuildNodeSlots(inp.members);
    r, order, run := ScheduleCore(inp, slots, planId, now);
  }
}
