/** Worst-fit guarantees when every node can run every shard: the load stays level, and placement
    cannot fail with enough slack. */
module WorstFit {
  import opened Core
  import opened Sequences
  import opened Scheduler
  import opened Placement

  /** Every alive, profiled member can run every shard. */
  ghost predicate AllCompatible(inp: Input) {
    forall m, s :: m in inp.members && Eligible(m) && s in inp.shards ==>
      FirstCompatible(s, m.capability.value.backends).Some?
  }

  ghost predicate SlotsCompatible(shard: Shard, slots: seq<Slot>) {
    forall s :: s in slots ==> FirstCompatible(shard, s.capability.backends).Some?
  }

  ghost predicate SpreadWithin(slots: seq<Slot>, bound: int) {
    forall x, y :: x in slots && y in slots ==> x.remaining - y.remaining <= bound
  }

  lemma {:induction false} RunSlotsCompatible(inp: Input, order: seq<Shard>, run: seq<Config>, n: nat, i: nat)
    requires AllCompatible(inp)
    requires multiset(order) == multiset(inp.shards)
    requires IsRun(inp, order, run)
    requires n < |run| && i < |order|
    ensures SlotsCompatible(order[i], run[n].slots)
  {
    RunIsBalanced(inp, order, run, n);
    PermutationMembers(order, inp.shards);
    assert order[i] in inp.shards;
    forall s | s in run[n].slots
      ensures FirstCompatible(order[i], s.capability.backends).Some?
    {
      assert HasCapabilityOf(inp, s);
    }
  }

  // ---------------------------------------------------------------------------------------------
  // Level load
  // ---------------------------------------------------------------------------------------------

  /** Without network links the shard goes to the head of the sorted list, a node with most memory. */
  lemma RichestIsChosen(inp: Input, shard: Shard, slots: seq<Slot>, last: Option<NodeId>, k: nat)
    requires !inp.hasLinks
    requires Sorted(slots, MoreRemaining)
    requires SlotsCompatible(shard, slots)
    requires Choose(inp, shard, slots, last) == Some(k)
    ensures k == 0
    ensures forall i :: 0 <= i < |slots| ==> slots[i].remaining <= slots[0].remaining
  {
    forall i | 0 <= i < |slots|
      ensures slots[i].remaining <= slots[0].remaining
    {
      assert i == 0 || !MoreRemaining(slots[i], slots[0]);
    }
    assert slots[0] in slots;
    assert Acceptable(inp, shard, None)(slots[0]) by {
      assert Fits(inp, shard, slots[k]);
    }
  }

  lemma {:induction false} StepKeepsSpread(inp: Input, shard: Shard, c: Config, d: Config, bound: int)
    requires !inp.hasLinks
    requires SlotsCompatible(shard, c.slots)
    requires SpreadWithin(c.slots, bound)
    requires Required(shard, inp.reserve) <= bound
    requires Step(inp, shard, c, d)
    ensures SpreadWithin(d.slots, bound)
  {
    var slots: seq<Slot>, k: nat :| StepVia(inp, shard, c, d, slots, k);
    PermutationMembers(slots, c.slots);
    RichestIsChosen(inp, shard, slots, c.last, k);
    hide Choose, Sorted, FirstCompatible;
    var richest: Slot := slots[0];
    var charged := Charge(inp, shard, richest);
    assert d.slots == slots[0 := charged];
    forall x, y | x in d.slots && y in d.slots
      ensures x.remaining - y.remaining <= bound
    {
      assert x == charged || x in slots;
      assert y == charged || y in slots;
      assert slots[0] in slots;
      assert x in slots ==> x.remaining <= richest.remaining;
    }
  }

  /** In every state of every run the gap between the richest and the poorest node stays within any
      bound that covers the initial gap and the largest requirement. */
  lemma {:induction false} SpreadStaysBounded(inp: Input, order: seq<Shard>, run: seq<Config>, bound: int, n: nat)
    requires !inp.hasLinks && AllCompatible(inp)
    requires SortedArrangement(order, inp.shards, MoreSensitive)
    requires IsRun(inp, order, run) && n < |run|
    requires SpreadWithin(SlotsOf(inp.members), bound)
    requires forall s :: s in inp.shards ==> Required(s, inp.reserve) <= bound
    ensures SpreadWithin(run[n].slots, bound)
  {
    hide IsRun, SpreadWithin, SlotsOf, Required, Sorted, AllCompatible;
    PermutationMembers(order, inp.shards);
    assert forall i :: 0 <= i < |order| ==> order[i] in inp.shards;
    SpreadAlongRun(inp, order, run, bound, n);
  }

  lemma {:induction false} SpreadAlongRun(inp: Input, order: seq<Shard>, run: seq<Config>, bound: int, n: nat)
    requires !inp.hasLinks && AllCompatible(inp)
    requires multiset(order) == multiset(inp.shards)
    requires IsRun(inp, order, run) && n < |run|
    requires SpreadWithin(SlotsOf(inp.members), bound)
    requires forall i :: 0 <= i < |order| ==> Required(order[i], inp.reserve) <= bound
    ensures SpreadWithin(run[n].slots, bound)
    decreases n
  {
    if n > 0 {
      hide Step, SpreadWithin, SlotsCompatible, Required, AllCompatible, SlotsOf, RangeSeen;
      RunStep(inp, order, run, n);
      assert n - 1 < |order|;
      hide IsRun;
      SpreadAlongRun(inp, order, run, bound, n - 1);
      RunSlotsCompatible(inp, order, run, n - 1, n - 1);
      StepKeepsSpread(inp, order[n - 1], run[n - 1], run[n], bound);
    }
  }

  // ---------------------------------------------------------------------------------------------
  // Enough slack
  // ---------------------------------------------------------------------------------------------

  function Remaining(s: Slot): int {
    s.remaining
  }

  function Need(reserve: U64): Shard -> int {
    (s: Shard) => Required(s, reserve)
  }

  lemma {:induction false} StepShrinksPool(inp: Input, shard: Shard, c: Config, d: Config)
    requires Step(inp, shard, c, d)
    ensures Sum(d.slots, Remaining) + Required(shard, inp.reserve) == Sum(c.slots, Remaining)
  {
    var slots: seq<Slot>, k: nat :| StepVia(inp, shard, c, d, slots, k);
    hide Choose, Sorted;
    SumOfPermutation(slots, c.slots, Remaining);
    SumOfUpdate(slots, k, Charge(inp, shard, slots[k]), Remaining);
  }

  lemma NeedOfNext(order: seq<Shard>, n: nat, reserve: U64)
    requires n < |order|
    ensures Sum(order[..n + 1], Need(reserve)) == Sum(order[..n], Need(reserve)) + Required(order[n], reserve)
    ensures Sum(order[..n + 1], Need(reserve)) <= Sum(order, Need(reserve))
  {
    var shard := order[n];
    assert order[..n + 1] == order[..n] + [shard];
    SumOfConcatenation(order[..n], [shard], Need(reserve));
    assert Sum([shard], Need(reserve)) == Need(reserve)(shard) + Sum([], Need(reserve));
    assert order == order[..n + 1] + order[n + 1..];
    SumOfConcatenation(order[..n + 1], order[n + 1..], Need(reserve));
    SumNonNegative(order[n + 1..], Need(reserve));
  }

  /** Placing shards moves exactly the bytes they require out of the pool. */
  lemma {:induction false} PoolShrinksByNeed(inp: Input, order: seq<Shard>, run: seq<Config>, n: nat)
    requires IsRun(inp, order, run)
    requires n < |run|
    ensures Sum(run[n].slots, Remaining) + Sum(order[..n], Need(inp.reserve)) == Sum(SlotsOf(inp.members), Remaining)
    decreases n
  {
    hide Step, Sum, SlotsOf, Required, RangeSeen;
    if n == 0 {
      assert order[..0] == [];
      SumOfNothing(Need(inp.reserve));
    } else {
      PoolShrinksByNeed(inp, order, run, n - 1);
      RunStep(inp, order, run, n);
      StepShrinksPool(inp, order[n - 1], run[n - 1], run[n]);
      NeedOfNext(order, n - 1, inp.reserve);
    }
  }

  lemma SumOfNothing<T>(f: T -> int)
    ensures Sum([], f) == 0
  {
  }

  /** If no slot fits although all are compatible, the pool is small. */
  lemma StuckPoolIsSmall(inp: Input, shard: Shard, slots: seq<Slot>, bound: int)
    requires NothingFits(inp, shard, slots)
    requires SlotsCompatible(shard, slots)
    requires bound == Required(shard, inp.reserve) - 1
    ensures Sum(slots, Remaining) <= |slots| * bound
  {
    PoorSlots(inp, shard, slots, bound);
    SumBound(slots, Remaining, bound);
  }

  lemma PoorSlots(inp: Input, shard: Shard, slots: seq<Slot>, bound: int)
    requires NothingFits(inp, shard, slots)
    requires SlotsCompatible(shard, slots)
    requires bound == Required(shard, inp.reserve) - 1
    ensures forall k :: 0 <= k < |slots| ==> Remaining(slots[k]) <= bound
  {
    forall k | 0 <= k < |slots|
      ensures Remaining(slots[k]) <= bound
    {
      assert slots[k] in slots && !Fits(inp, shard, slots[k]);
    }
  }

  lemma SlackArithmetic(nodes: nat, need: int, largest: int)
    requires nodes >= 1
    requires need <= largest
    ensures nodes * (need - 1) < need + (nodes - 1) * (largest - 1)
  {
    assert nodes * (need - 1) == (nodes - 1) * (need - 1) + (need - 1);
    assert (nodes - 1) * (need - 1) <= (nodes - 1) * (largest - 1);
  }

  /** Placement cannot run out of memory when the pool exceeds the total need by (nodes - 1) times one
      byte less than the largest requirement.  `SlackIsTight` shows that one byte less can fail. */
  lemma {:induction false} EnoughSlackNeverExhausts(
    inp: Input, r: Result<Plan, Failure>, order: seq<Shard>, run: seq<Config>, largest: int)
    requires UniqueMembers(inp.members) && AllCompatible(inp)
    requires Outcome(inp, r, order, run)
    requires largest >= 1
    requires forall s :: s in inp.shards ==> Required(s, inp.reserve) <= largest
    requires Sum(SlotsOf(inp.members), Remaining)
             >= Sum(inp.shards, Need(inp.reserve)) + (|SlotsOf(inp.members)| - 1) * (largest - 1)
    ensures !(r.Err? && r.error.ResourceExhausted?)
  {
    if r.Err? && r.error.ResourceExhausted? && inp.shards != [] && SlotsOf(inp.members) != [] {
      StuckRunIsShort(inp, r.error.shard, order, run, largest);
    }
  }

  lemma {:induction false} StuckRunIsShort(inp: Input, id: string, order: seq<Shard>, run: seq<Config>, largest: int)
    requires UniqueMembers(inp.members) && AllCompatible(inp)
    requires inp.shards != [] && SlotsOf(inp.members) != []
    requires Outcome(inp, Err(ResourceExhausted(id)), order, run)
    requires forall s :: s in inp.shards ==> Required(s, inp.reserve) <= largest
    ensures Sum(SlotsOf(inp.members), Remaining)
            < Sum(inp.shards, Need(inp.reserve)) + (|SlotsOf(inp.members)| - 1) * (largest - 1)
  {
    hide SlotsOf, Sum, Required, Stuck, Step, AllCompatible, UniqueMembers, NothingFits, SlotsCompatible, RangeSeen;
    var n := |run| - 1;
    ExhaustedMeansNothingFits(inp, id, order, run);
    RunSlotsCompatible(inp, order, run, n, n);
    PoolShrinksByNeed(inp, order, run, n);
    SameNumberOfSlots(inp, order, run, n);
    ShortPool(inp, order, run[n].slots, n, largest);
  }

  lemma ShortPool(inp: Input, order: seq<Shard>, slots: seq<Slot>, n: nat, largest: int)
    requires multiset(order) == multiset(inp.shards)
    requires n < |order| && |slots| >= 1
    requires NothingFits(inp, order[n], slots) && SlotsCompatible(order[n], slots)
    requires forall s :: s in inp.shards ==> Required(s, inp.reserve) <= largest
    ensures Sum(slots, Remaining) + Sum(order[..n], Need(inp.reserve))
            < Sum(inp.shards, Need(inp.reserve)) + (|slots| - 1) * (largest - 1)
  {
    hide Sum, Required, NothingFits, SlotsCompatible;
    StuckPoolIsSmall(inp, order[n], slots, Required(order[n], inp.reserve) - 1);
    NeedOfNext(order, n, inp.reserve);
    SumOfPermutation(order, inp.shards, Need(inp.reserve));
    PermutationMembers(order, inp.shards);
    assert order[n] in inp.shards;
    SlackArithmetic(|slots|, Required(order[n], inp.reserve), largest);
  }

  lemma SameNumberOfSlots(inp: Input, order: seq<Shard>, run: seq<Config>, n: nat)
    requires inp.shards != [] && SlotsOf(inp.members) != []
    requires SortedArrangement(order, inp.shards, MoreSensitive)
    requires IsRun(inp, order, run) && n < |run|
    ensures |run[n].slots| == |SlotsOf(inp.members)|
    ensures multiset(order) == multiset(inp.shards)
  {
    RunIsBalanced(inp, order, run, n);
  }

  // ---------------------------------------------------------------------------------------------
  // The slack cannot be lowered
  // ---------------------------------------------------------------------------------------------

  function Node(i: nat, memory: U64): Member {
    Member(Peer(seq(i, _ => 'n'), 1, ""), Alive, Participant,
           Some(Capability(memory, memory, [BackendCapability(LlamaCpp, [Cpu])], [])), [], 0)
  }

  function OneBigShard(need: U64): Shard {
    Shard(ShardBody("s", [], [], [], LmHead, None, Fp16, "", ""), need, [], [], 0.0, 0.0)
  }

  /** `n` equal nodes and one shard that needs one byte more than each of them has. */
  function TightInput(n: nat, need: U64): Input
    requires need >= 1
  {
    Input("m", "r", 0, [OneBigShard(need)], [], seq(n, i requires 0 <= i => Node(i, need - 1)), false, Fence(0, "", 0), 0)
  }

  lemma {:induction false} EqualNodes(ms: seq<Member>, memory: U64)
    requires forall i :: 0 <= i < |ms| ==> Eligible(ms[i]) && ms[i].capability.value.availableMemory == memory
    ensures |SlotsOf(ms)| == |ms|
    ensures forall i :: 0 <= i < |ms| ==> SlotsOf(ms)[i].remaining == memory
    ensures Sum(SlotsOf(ms), Remaining) == |ms| * memory
    decreases |ms|
  {
    if ms != [] {
      EqualNodes(ms[1..], memory);
      assert SlotsOf(ms) == [SlotOf(ms[0])] + SlotsOf(ms[1..]);
      assert SlotsOf(ms)[1..] == SlotsOf(ms[1..]);
    }
  }

  lemma TightInputFacts(inp: Input, n: nat, need: U64)
    requires n >= 1 && need >= 1
    requires inp == TightInput(n, need)
    ensures UniqueMembers(inp.members) && AllCompatible(inp)
    ensures Sum(SlotsOf(inp.members), Remaining) == n * (need - 1)
    ensures |SlotsOf(inp.members)| == n
    ensures forall s :: s in SlotsOf(inp.members) ==> s.remaining < need
    ensures inp.shards == [OneBigShard(need)] && inp.reserve == 0
    ensures Sum(inp.shards, Need(0)) == need
  {
    hide AllCompatible, UniqueMembers, FirstCompatible;
    EqualNodes(inp.members, need - 1);
    var shard := OneBigShard(need);
    assert Sum([shard], Need(0)) == Need(0)(shard) + Sum([], Need(0));
    TightMembers(inp, n, need);
  }

  lemma TightMembers(inp: Input, n: nat, need: U64)
    requires n >= 1 && need >= 1
    requires inp == TightInput(n, need)
    ensures UniqueMembers(inp.members) && AllCompatible(inp)
  {
    assert forall i, j :: 0 <= i < j < n ==> |inp.members[i].peer.id| == i && |inp.members[j].peer.id| == j;
    forall m, s | m in inp.members && Eligible(m) && s in inp.shards
      ensures FirstCompatible(s, m.capability.value.backends).Some?
    {
      assert Compatible(s, m.capability.value.backends[0]);
    }
  }

  /** For every number of nodes and every requirement there is an input one byte short of the slack on
      which every outcome is a resource-exhausted error. */
  lemma {:induction false} SlackIsTight(
    inp: Input, n: nat, need: U64, r: Result<Plan, Failure>, order: seq<Shard>, run: seq<Config>)
    requires n >= 1 && need >= 1
    requires inp == TightInput(n, need)
    requires Outcome(inp, r, order, run)
    ensures UniqueMembers(inp.members) && AllCompatible(inp)
    ensures Sum(SlotsOf(inp.members), Remaining) == Sum(inp.shards, Need(inp.reserve)) + (n - 1) * (need - 1) - 1
    ensures r == Err(ResourceExhausted("s"))
  {
    hide Outcome, SlotsOf, Sum, AllCompatible, UniqueMembers, TightInput, Need;
    TightInputFacts(inp, n, need);
    assert n * (need - 1) == need + (n - 1) * (need - 1) - 1;
    OneShardTooBig(inp, OneBigShard(need), r, order, run);
  }

  lemma {:induction false} OneShardTooBig(
    inp: Input, shard: Shard, r: Result<Plan, Failure>, order: seq<Shard>, run: seq<Config>)
    requires inp.shards == [shard]
    requires SlotsOf(inp.members) != []
    requires forall s :: s in SlotsOf(inp.members) ==> s.remaining < Required(shard, inp.reserve)
    requires Outcome(inp, r, order, run)
    ensures r == Err(ResourceExhausted(shard.body.id))
  {
    hide SlotsOf, Step, Required, Stuck, LayerCheck, PlanHeader;
    PermutationMembers(order, inp.shards);
    assert order[0] in order;
    if |run| > 1 {
      RunStep(inp, order, run, 1);
    }
    NoStepWhenPoor(inp, order[0], run[0]);
  }

  lemma NoStepWhenPoor(inp: Input, shard: Shard, c: Config)
    requires forall s :: s in c.slots ==> s.remaining < Required(shard, inp.reserve)
    ensures forall d :: !Step(inp, shard, c, d)
  {
    forall d, slots: seq<Slot>, k: nat
      ensures !StepVia(inp, shard, c, d, slots, k)
    {
      if multiset(slots) == multiset(c.slots) && k < |slots| {
        PermutationMembers(slots, c.slots);
        assert slots[k] in slots;
      }
    }
  }
}
