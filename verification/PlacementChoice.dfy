/** Where each shard goes: to the node used last if links ask for that and it fits, otherwise to a node with the
    most remaining memory among those that fit. */
module PlacementChoice {
  import opened Core
  import opened Sequences
  import opened Scheduler
  import opened Placement

  /** The node has the bytes and a backend for the shard. */
  ghost predicate CanTake(inp: Input, shard: Shard, slot: Slot) {
    && (shard.peakMemory + inp.reserve) % 0x1_0000_0000_0000_0000 <= slot.remaining
    && exists i :: 0 <= i < |slot.capability.backends| && Compatible(shard, slot.capability.backends[i])
  }

  lemma FitsIff(inp: Input, shard: Shard, slot: Slot)
    ensures Fits(inp, shard, slot) <==> CanTake(inp, shard, slot)
  {
  }

  /** With links, a node used last that can take the shard gets it.  Otherwise no node that can take it, other
      than one tried in vain, has more memory left than the chosen one. */
  ghost predicate BestChoice(inp: Input, shard: Shard, slots: seq<Slot>, last: Option<NodeId>, chosen: Slot) {
    && chosen in slots && CanTake(inp, shard, chosen)
    && if inp.hasLinks && last.Some? && (exists s :: s in slots && s.node == last.value && CanTake(inp, shard, s))
       then chosen.node == last.value
       else forall s :: s in slots && CanTake(inp, shard, s) ==> s.remaining <= chosen.remaining
  }

  /** The stage and the node's account after the choice. */
  ghost predicate ChosenFor(inp: Input, shard: Shard, c: Config, d: Config, chosen: Slot) {
    var need := (shard.peakMemory + inp.reserve) % 0x1_0000_0000_0000_0000;
    && BestChoice(inp, shard, c.slots, c.last, chosen)
    && |d.stages| == |c.stages| + 1 && d.stages[..|c.stages|] == c.stages
    && d.stages[|c.stages|].node == chosen.node && d.stages[|c.stages|].reserved == need
    && d.stages[|c.stages|].body == shard.body
    && d.last == Some(chosen.node)
    && multiset(d.slots) == multiset(c.slots) - multiset{chosen} + multiset{chosen.(remaining := chosen.remaining - need)}
  }

  ghost predicate OneSlotEach(slots: seq<Slot>) {
    forall i, j :: 0 <= i < |slots| && 0 <= j < |slots| && slots[i].node == slots[j].node ==> i == j
  }

  lemma {:induction false} ChoiceIsBest(inp: Input, shard: Shard, slots: seq<Slot>, last: Option<NodeId>, k: nat)
    requires Sorted(slots, MoreRemaining) && OneSlotEach(slots)
    requires Choose(inp, shard, slots, last) == Some(k)
    ensures BestChoice(inp, shard, slots, last, slots[k])
  {
    forall s | s in slots
      ensures Fits(inp, shard, s) <==> CanTake(inp, shard, s)
    {
      FitsIff(inp, shard, s);
    }
    hide CanTake, Fits;
    var tried := if inp.hasLinks then last else None;
    if tried.Some? && exists s :: s in slots && s.node == tried.value && CanTake(inp, shard, s) {
      var s :| s in slots && s.node == tried.value && CanTake(inp, shard, s);
      var j :| 0 <= j < |slots| && slots[j] == s;
      var again := FirstIndex(slots, AtNode(tried.value));
      assert AtNode(tried.value)(slots[j]);
      assert again.Some? && slots[again.value].node == slots[j].node;
    } else {
      LaterHasLess(inp, shard, slots, tried, k);
    }
  }

  lemma LaterHasLess(inp: Input, shard: Shard, slots: seq<Slot>, tried: Option<NodeId>, k: nat)
    requires Sorted(slots, MoreRemaining)
    requires k < |slots|
    requires tried.Some? ==> forall s :: s in slots && s.node == tried.value ==> !Fits(inp, shard, s)
    requires FirstIndex(slots, Acceptable(inp, shard, tried)) == Some(k)
    ensures forall s :: s in slots && Fits(inp, shard, s) ==> s.remaining <= slots[k].remaining
  {
    hide Fits, FirstIndex;
    forall j | 0 <= j < |slots| && Fits(inp, shard, slots[j])
      ensures slots[j].remaining <= slots[k].remaining
    {
      assert slots[j] in slots;
      assert Acceptable(inp, shard, tried)(slots[j]);
      assert j >= k;
      assert j == k || !MoreRemaining(slots[j], slots[k]);
    }
  }

  lemma {:induction false} OneSlotForEach(slots: seq<Slot>)
    requires forall id :: Sum(slots, CountAt(id)) <= 1
    ensures OneSlotEach(slots)
  {
    forall i, j | 0 <= i < |slots| && 0 <= j < |slots| && slots[i].node == slots[j].node
      ensures i == j
    {
      SumOneIsUnique(slots, i, j, CountAt(slots[i].node));
    }
  }

  /** One placement step. */
  lemma {:induction false} StepChoosesBest(inp: Input, shard: Shard, c: Config, d: Config) returns (chosen: Slot)
    requires Step(inp, shard, c, d)
    requires forall id :: Sum(c.slots, CountAt(id)) <= 1
    ensures ChosenFor(inp, shard, c, d, chosen)
  {
    hide Sum, Choose, BestChoice, Sorted, Fits, MoreRemaining, PlaceAt, CountAt;
    var slots: seq<Slot>, k: nat :| StepVia(inp, shard, c, d, slots, k);
    chosen := slots[k];
    BestOfStep(inp, shard, c, slots, k);
    PlacedOn(inp, shard, slots, c.stages, k);
  }

  lemma BestOfStep(inp: Input, shard: Shard, c: Config, slots: seq<Slot>, k: nat)
    requires multiset(slots) == multiset(c.slots) && Sorted(slots, MoreRemaining)
    requires Choose(inp, shard, slots, c.last) == Some(k) && k < |slots|
    requires forall id :: Sum(c.slots, CountAt(id)) <= 1
    ensures BestChoice(inp, shard, c.slots, c.last, slots[k])
  {
    hide Sum, Choose, BestChoice, Sorted, Fits, MoreRemaining, OneSlotEach;
    forall id
      ensures Sum(slots, CountAt(id)) <= 1
    {
      SumOfPermutation(slots, c.slots, CountAt(id));
    }
    OneSlotForEach(slots);
    ChoiceIsBest(inp, shard, slots, c.last, k);
    PermutationMembers(slots, c.slots);
    SameBest(inp, shard, slots, c.slots, c.last, slots[k]);
  }

  lemma PlacedOn(inp: Input, shard: Shard, slots: seq<Slot>, stages: seq<Stage>, k: nat)
    requires k < |slots| && Fits(inp, shard, slots[k])
    ensures var d := PlaceAt(inp, shard, slots, stages, k);
            var need := (shard.peakMemory + inp.reserve) % 0x1_0000_0000_0000_0000;
            && |d.stages| == |stages| + 1 && d.stages[..|stages|] == stages
            && d.stages[|stages|].node == slots[k].node && d.stages[|stages|].reserved == need
            && d.stages[|stages|].body == shard.body && d.last == Some(slots[k].node)
            && need <= slots[k].remaining
            && multiset(d.slots) == multiset(slots) - multiset{slots[k]} + multiset{slots[k].(remaining := slots[k].remaining - need)}
  {
    ChargedSlots(slots, k, Charge(inp, shard, slots[k]));
    hide FirstCompatible;
  }

  lemma SameBest(inp: Input, shard: Shard, a: seq<Slot>, b: seq<Slot>, last: Option<NodeId>, chosen: Slot)
    requires forall s :: s in a <==> s in b
    requires BestChoice(inp, shard, a, last, chosen)
    ensures BestChoice(inp, shard, b, last, chosen)
  {
    hide CanTake;
  }

  lemma ChargedSlots(slots: seq<Slot>, k: nat, charged: Slot)
    requires k < |slots|
    ensures multiset(slots[k := charged]) == multiset(slots) - multiset{slots[k]} + multiset{charged}
  {
    SplitOut(slots, k);
    SplitOut(slots[k := charged], k);
    assert slots[k := charged][..k] + slots[k := charged][k + 1..] == slots[..k] + slots[k + 1..];
  }

  /** Every placement of every run is the best choice, for every input with unique node ids. */
  lemma {:induction false} RunChoosesBest(inp: Input, order: seq<Shard>, run: seq<Config>, n: nat) returns (chosen: Slot)
    requires UniqueMembers(inp.members)
    requires IsRun(inp, order, run) && 0 < n < |run|
    ensures ChosenFor(inp, order[n - 1], run[n - 1], run[n], chosen)
  {
    RunStep(inp, order, run, n);
    RunIsBalanced(inp, order, run, n - 1);
    forall id
      ensures Sum(run[n - 1].slots, CountAt(id)) <= 1
    {
      UniqueSlots(inp.members, id);
    }
    hide Balanced, AccountsBalance, IsRun, Sum, Step, ChosenFor;
    chosen := StepChoosesBest(inp, order[n - 1], run[n - 1], run[n]);
  }

  /** In a plan, stages without layers come before those with layers. */
  lemma UnlayeredFirst(inp: Input, plan: Plan, order: seq<Shard>, run: seq<Config>, i: nat, j: nat)
    requires Outcome(inp, Ok(plan), order, run)
    requires i < j < |plan.stages| && plan.stages[j].body.layers.None?
    ensures plan.stages[i].body.layers.None?
  {
    if inp.shards != [] && SlotsOf(inp.members) != [] {
      assert !EarlierStage(plan.stages[j], plan.stages[i]);
    }
  }
}
