/** Placement soundness: what every successful plan guarantees about shards, ordinals, memory and
    backends, and what a resource-exhausted error means. */
module Placement {
  import opened Core
  import opened Sequences
  import opened Scheduler

  // ---------------------------------------------------------------------------------------------
  // Accounts
  // ---------------------------------------------------------------------------------------------

  function ReservedAt(id: NodeId): Stage -> int {
    (s: Stage) => if s.node == id then s.reserved else 0
  }

  function RemainingAt(id: NodeId): Slot -> int {
    (s: Slot) => if s.node == id then s.remaining else 0
  }

  function CountAt(id: NodeId): Slot -> int {
    (s: Slot) => if s.node == id then 1 else 0
  }

  /** Memory the alive, profiled members under this id offered. */
  function AvailableAt(id: NodeId): Member -> int {
    (m: Member) => if Eligible(m) && m.peer.id == id then m.capability.value.availableMemory else 0
  }

  /** The stage runs on an alive, profiled member, on the first backend of its profile that the shard can use,
      and is estimated from that member's benchmarks. */
  ghost predicate Supported(inp: Input, shard: Shard, stage: Stage) {
    exists m, i :: m in inp.members && SupportedBy(shard, stage, m, i)
  }

  ghost predicate SupportedBy(shard: Shard, stage: Stage, m: Member, i: int) {
    && m.state == Alive && m.capability.Some? && m.peer.id == stage.node
    && IsFirstOffer(shard, m.capability.value.backends, i) && m.capability.value.backends[i].kind == stage.backend
    && stage.estimate == TimeEstimate(shard, m.capability.value.benchmarks, stage.backend)
  }

  ghost predicate PlacedFrom(inp: Input, shard: Shard, stage: Stage, ordinal: nat) {
    && stage.body == shard.body
    && stage.reserved == Required(shard, inp.reserve)
    && stage.ordinal == ordinal % TWO_32
    && Supported(inp, shard, stage)
  }

  ghost predicate HasCapabilityOf(inp: Input, slot: Slot) {
    exists m :: m in inp.members && Eligible(m) && m.peer.id == slot.node && m.capability.value == slot.capability
  }

  // ---------------------------------------------------------------------------------------------
  // What every placement step keeps
  // ---------------------------------------------------------------------------------------------

  /** After `n` placements: one stage for each of the first `n` shards, and on every node the bytes
      reserved so far plus the bytes remaining are the bytes it offered. */
  ghost predicate Balanced(inp: Input, order: seq<Shard>, c: Config, n: nat) {
    && StagesPlaced(inp, order, c.stages, n)
    && AccountsBalance(inp, c)
    && SlotsDescend(inp, c.slots)
  }

  ghost predicate StagesPlaced(inp: Input, order: seq<Shard>, stages: seq<Stage>, n: nat) {
    |stages| == n <= |order| && forall j :: 0 <= j < n ==> PlacedFrom(inp, order[j], stages[j], j)
  }

  ghost predicate AccountsBalance(inp: Input, c: Config) {
    && (forall id :: Sum(c.stages, ReservedAt(id)) + Sum(c.slots, RemainingAt(id)) == Sum(inp.members, AvailableAt(id)))
    && (forall id :: Sum(c.slots, CountAt(id)) == Sum(SlotsOf(inp.members), CountAt(id)))
    && |c.slots| == |SlotsOf(inp.members)|
  }

  ghost predicate SlotsDescend(inp: Input, slots: seq<Slot>) {
    forall s :: s in slots ==> HasCapabilityOf(inp, s)
  }

  lemma {:induction false} OfferedMemory(members: seq<Member>, id: NodeId)
    ensures Sum(SlotsOf(members), RemainingAt(id)) == Sum(members, AvailableAt(id))
    decreases |members|
  {
    if members != [] {
      OfferedMemory(members[1..], id);
      if Eligible(members[0]) {
        var slots := SlotsOf(members);
        assert slots == [SlotOf(members[0])] + SlotsOf(members[1..]);
        assert slots[1..] == SlotsOf(members[1..]);
      } else {
        assert SlotsOf(members) == SlotsOf(members[1..]);
      }
    }
  }

  lemma InitiallyBalanced(inp: Input, order: seq<Shard>)
    ensures Balanced(inp, order, InitialConfig(inp), 0)
  {
    forall id
      ensures Sum(SlotsOf(inp.members), RemainingAt(id)) == Sum(inp.members, AvailableAt(id))
    {
      OfferedMemory(inp.members, id);
    }
    forall s | s in SlotsOf(inp.members)
      ensures HasCapabilityOf(inp, s)
    {
      var m := SlotHasMember(inp.members, s);
    }
  }

  lemma AccountsAfterPlacement(inp: Input, shard: Shard, slots: seq<Slot>, stages: seq<Stage>, k: nat, id: NodeId)
    requires k < |slots| && Fits(inp, shard, slots[k])
    ensures var d := PlaceAt(inp, shard, slots, stages, k);
            && Sum(d.stages, ReservedAt(id)) + Sum(d.slots, RemainingAt(id))
               == Sum(stages, ReservedAt(id)) + Sum(slots, RemainingAt(id))
            && Sum(d.slots, CountAt(id)) == Sum(slots, CountAt(id))
  {
    var stage := StageFor(inp, shard, slots[k], |stages| % TWO_32);
    var charged := Charge(inp, shard, slots[k]);
    SumOfConcatenation(stages, [stage], ReservedAt(id));
    assert Sum([stage], ReservedAt(id)) == ReservedAt(id)(stage) + Sum([], ReservedAt(id));
    SumOfUpdate(slots, k, charged, RemainingAt(id));
    SumOfUpdate(slots, k, charged, CountAt(id));
  }

  lemma PlacedStageIsSupported(inp: Input, shard: Shard, slot: Slot, ordinal: nat)
    requires Fits(inp, shard, slot)
    requires HasCapabilityOf(inp, slot)
    ensures PlacedFrom(inp, shard, StageFor(inp, shard, slot, ordinal % TWO_32), ordinal)
  {
    var m :| m in inp.members && Eligible(m) && m.peer.id == slot.node && m.capability.value == slot.capability;
    var offers := slot.capability.backends;
    var kind := FirstCompatible(shard, offers).value;
    var i := FirstCompatibleIsFirst(shard, offers);
    assert SupportedBy(shard, StageFor(inp, shard, slot, ordinal % TWO_32), m, i);
  }

  lemma {:induction false} StepKeepsBalance(inp: Input, order: seq<Shard>, c: Config, d: Config, n: nat)
    requires n < |order|
    requires Balanced(inp, order, c, n)
    requires Step(inp, order[n], c, d)
    ensures Balanced(inp, order, d, n + 1)
  {
    hide AccountsBalance, HasCapabilityOf, PlacedFrom, Choose, Sorted, Fits;
    var slots: seq<Slot>, k: nat :| StepVia(inp, order[n], c, d, slots, k);
    AccountsAfterStep(inp, order[n], c, d, slots, k);
    PermutationMembers(slots, c.slots);
    assert slots[k] in slots;
    PlacedStageIsSupported(inp, order[n], slots[k], n);
    ChargedCapabilities(inp, order[n], slots, k);
  }

  lemma AccountsAfterStep(inp: Input, shard: Shard, c: Config, d: Config, slots: seq<Slot>, k: nat)
    requires AccountsBalance(inp, c)
    requires StepVia(inp, shard, c, d, slots, k)
    ensures AccountsBalance(inp, d)
  {
    hide Sum, SlotsOf, Choose, Sorted;
    PermutationMembers(slots, c.slots);
    forall id
      ensures Sum(d.stages, ReservedAt(id)) + Sum(d.slots, RemainingAt(id)) == Sum(inp.members, AvailableAt(id))
      ensures Sum(d.slots, CountAt(id)) == Sum(SlotsOf(inp.members), CountAt(id))
    {
      SumOfPermutation(slots, c.slots, RemainingAt(id));
      SumOfPermutation(slots, c.slots, CountAt(id));
      AccountsAfterPlacement(inp, shard, slots, c.stages, k, id);
    }
  }

  lemma ChargedCapabilities(inp: Input, shard: Shard, slots: seq<Slot>, k: nat)
    requires k < |slots| && Fits(inp, shard, slots[k])
    requires SlotsDescend(inp, slots)
    ensures SlotsDescend(inp, slots[k := Charge(inp, shard, slots[k])])
  {
    var charged := Charge(inp, shard, slots[k]);
    assert slots[k] in slots;
    assert HasCapabilityOf(inp, slots[k]);
    assert HasCapabilityOf(inp, charged);
    forall s | s in slots[k := charged]
      ensures HasCapabilityOf(inp, s)
    {
      var i :| 0 <= i < |slots| && slots[k := charged][i] == s;
      if i != k {
        assert slots[i] == s && s in slots;
      }
    }
  }

  /** The balance holds in every state of every run. */
  lemma {:induction false} RunIsBalanced(inp: Input, order: seq<Shard>, run: seq<Config>, n: nat)
    requires IsRun(inp, order, run)
    requires n < |run|
    ensures Balanced(inp, order, run[n], n)
    decreases n
  {
    hide Balanced, Step, RangeSeen;
    if n == 0 {
      InitiallyBalanced(inp, order);
    } else {
      RunIsBalanced(inp, order, run, n - 1);
      RunStep(inp, order, run, n);
      StepKeepsBalance(inp, order, run[n - 1], run[n], n - 1);
    }
  }

  // ---------------------------------------------------------------------------------------------
  // Plans
  // ---------------------------------------------------------------------------------------------

  function StageContent(s: Stage): (ShardBody, U64) {
    (s.body, s.reserved)
  }

  function ShardContent(reserve: U64): Shard -> (ShardBody, U64) {
    (s: Shard) => (s.body, Required(s, reserve))
  }

  function StageOrdinal(s: Stage): U32 {
    s.ordinal
  }

  /** The stages in placement order, shard by shard. */
  lemma {:induction false} PlacedInOrder(inp: Input, plan: Plan, order: seq<Shard>, run: seq<Config>)
    returns (placed: seq<Stage>)
    requires Outcome(inp, Ok(plan), order, run)
    ensures |placed| == |order| == |inp.shards|
    ensures multiset(plan.stages) == multiset(placed)
    ensures multiset(order) == multiset(inp.shards)
    ensures forall j :: 0 <= j < |placed| ==> placed[j].body == order[j].body
    ensures forall j :: 0 <= j < |placed| ==> placed[j].reserved == Required(order[j], inp.reserve)
    ensures forall j :: 0 <= j < |placed| ==> placed[j].ordinal == j % TWO_32
  {
    placed := run[|order|].stages;
    RunIsBalanced(inp, order, run, |order|);
    PermutationMembers(order, inp.shards);
    assert forall j :: 0 <= j < |placed| ==> PlacedFrom(inp, order[j], placed[j], j);
  }

  /** The stages are exactly the shards, each once, with the bytes it requires. */
  lemma {:induction false} StagesArePermutationOfShards(
    inp: Input, plan: Plan, order: seq<Shard>, run: seq<Config>)
    requires Outcome(inp, Ok(plan), order, run)
    ensures multiset(Map(plan.stages, StageContent)) == multiset(Map(inp.shards, ShardContent(inp.reserve)))
  {
    hide Outcome, Map;
    var placed := PlacedInOrder(inp, plan, order, run);
    MapOfPermutation(plan.stages, placed, StageContent);
    MapOfPermutation(order, inp.shards, ShardContent(inp.reserve));
    assert Map(placed, StageContent) == Map(order, ShardContent(inp.reserve));
  }

  /** The ordinals are 0, 1, ... in some order, counted in 32 bits. */
  lemma {:induction false} OrdinalsArePermutation(inp: Input, plan: Plan, order: seq<Shard>, run: seq<Config>)
    requires Outcome(inp, Ok(plan), order, run)
    ensures multiset(Map(plan.stages, StageOrdinal)) == multiset(seq(|inp.shards|, i requires 0 <= i => i % TWO_32))
  {
    hide Outcome, Map;
    var placed := PlacedInOrder(inp, plan, order, run);
    MapOfPermutation(plan.stages, placed, StageOrdinal);
    assert Map(placed, StageOrdinal) == seq(|inp.shards|, i requires 0 <= i => i % TWO_32);
  }

  /** On no node do the stages reserve more than it offered. */
  lemma {:induction false} NoOvercommit(inp: Input, plan: Plan, order: seq<Shard>, run: seq<Config>, id: NodeId)
    requires Outcome(inp, Ok(plan), order, run)
    ensures Sum(plan.stages, ReservedAt(id)) <= Sum(inp.members, AvailableAt(id))
  {
    var c := run[|order|];
    RunIsBalanced(inp, order, run, |order|);
    SumOfPermutation(plan.stages, c.stages, ReservedAt(id));
    SumNonNegative(c.slots, RemainingAt(id));
  }

  /** Every stage runs on an alive, profiled member, on the first of that member's backends that meets the
      shard's backend and compute-unit lists. */
  lemma {:induction false} EveryStageIsSupported(
    inp: Input, plan: Plan, order: seq<Shard>, run: seq<Config>, stage: Stage) returns (shard: Shard)
    requires Outcome(inp, Ok(plan), order, run)
    requires stage in plan.stages
    ensures shard in inp.shards && stage.body == shard.body && Supported(inp, shard, stage)
  {
    var c := run[|order|];
    RunIsBalanced(inp, order, run, |order|);
    PermutationMembers(plan.stages, c.stages);
    var j :| 0 <= j < |c.stages| && c.stages[j] == stage;
    shard := order[j];
    assert PlacedFrom(inp, order[j], c.stages[j], j);
    PermutationMembers(order, inp.shards);
    assert order[j] in order;
  }

  // ---------------------------------------------------------------------------------------------
  // Resource exhaustion
  // ---------------------------------------------------------------------------------------------

  ghost predicate UniqueMembers(members: seq<Member>) {
    forall i, j :: 0 <= i < j < |members| ==> members[i].peer.id != members[j].peer.id
  }

  lemma {:induction false} UniqueSlots(members: seq<Member>, id: NodeId)
    requires UniqueMembers(members)
    ensures Sum(SlotsOf(members), CountAt(id)) <= 1
    ensures (forall m :: m in members ==> m.peer.id != id) ==> Sum(SlotsOf(members), CountAt(id)) == 0
    decreases |members|
  {
    if members != [] {
      var rest := members[1..];
      assert forall m :: m in rest ==> exists j :: 1 <= j < |members| && members[j] == m;
      UniqueSlots(rest, id);
      if Eligible(members[0]) {
        assert SlotsOf(members) == [SlotOf(members[0])] + SlotsOf(rest);
        assert SlotsOf(members)[1..] == SlotsOf(rest);
      } else {
        assert SlotsOf(members) == SlotsOf(rest);
      }
    }
  }

  ghost predicate NothingFits(inp: Input, shard: Shard, slots: seq<Slot>) {
    forall s :: s in slots ==> !Fits(inp, shard, s)
  }

  /** When the choice fails, no slot fits: skipping the node that was tried first loses nothing. */
  lemma NothingChosenMeansNothingFits(inp: Input, shard: Shard, slots: seq<Slot>, last: Option<NodeId>)
    requires forall id :: Sum(slots, CountAt(id)) <= 1
    requires Choose(inp, shard, slots, last).None?
    ensures NothingFits(inp, shard, slots)
  {
    var tried := if inp.hasLinks then last else None;
    forall i | 0 <= i < |slots|
      ensures !Fits(inp, shard, slots[i])
    {
      assert !Acceptable(inp, shard, tried)(slots[i]);
      if tried.Some? && slots[i].node == tried.value {
        var again := FirstIndex(slots, AtNode(tried.value));
        assert AtNode(tried.value)(slots[i]);
        SumOneIsUnique(slots, again.value, i, CountAt(tried.value));
      }
    }
  }

  /** A resource-exhausted error names a shard that no slot could take at that point. */
  lemma {:induction false} ExhaustedMeansNothingFits(inp: Input, id: string, order: seq<Shard>, run: seq<Config>)
    requires UniqueMembers(inp.members)
    requires inp.shards != [] && SlotsOf(inp.members) != []
    requires Outcome(inp, Err(ResourceExhausted(id)), order, run)
    ensures |run| <= |order|
    ensures order[|run| - 1].body.id == id
    ensures NothingFits(inp, order[|run| - 1], run[|run| - 1].slots)
  {
    var n := |run| - 1;
    var c := run[n];
    RunIsBalanced(inp, order, run, n);
    var slots :| SortedArrangement(slots, c.slots, MoreRemaining) && Choose(inp, order[n], slots, c.last).None?;
    PermutationMembers(slots, c.slots);
    forall node
      ensures Sum(slots, CountAt(node)) <= 1
    {
      UniqueSlots(inp.members, node);
      SumOfPermutation(slots, c.slots, CountAt(node));
    }
    NothingChosenMeansNothingFits(inp, order[n], slots, c.last);
  }
}
