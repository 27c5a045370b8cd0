/** The automatic plan used when no manifest is found: one shard for each alive, profiled member, the
    layers split evenly and the remainder given to the last shard. */
module AutoSplit {
  import opened Core
  import opened Sequences
  import opened Scheduler
  import opened Coverage

  function EligibleOf(members: seq<Member>): (r: seq<Member>)
    ensures forall i :: 0 <= i < |r| ==> Eligible(r[i])
  {
    if members == [] then []
    else (if Eligible(members[0]) then [members[0]] else []) + EligibleOf(members[1..])
  }

  function Share(n: nat, total: U32): nat {
    total / if n > 1 then n else 1
  }

  function ShareRange(i: nat, n: nat, total: U32): LayerRange
    requires i < n
  {
    var per := Share(n, total);
    ShareFits(i, n, total);
    if i == n - 1 && n * per < total then LayerRange(i * per, total) else LayerRange(i * per, (i + 1) * per)
  }

  lemma ShareFits(i: nat, n: nat, total: U32)
    requires i < n
    ensures i * Share(n, total) <= (i + 1) * Share(n, total) <= n * Share(n, total) <= total
    ensures (i + 1) * Share(n, total) == i * Share(n, total) + Share(n, total)
  {
    var per := Share(n, total);
    assert n * per == total - total % n;
    assert (i + 1) * per == i * per + per;
    NonNegativeProduct(n - (i + 1), per);
    assert n * per == (i + 1) * per + (n - (i + 1)) * per;
  }

  lemma NonNegativeProduct(a: nat, b: nat)
    ensures a * b >= 0
  {
  }

  function AutoShard(m: Member, layers: Option<LayerRange>): Shard
    requires Eligible(m)
  {
    Shard(
      ShardBody("shard-" + m.peer.id, ["layer-" + m.peer.id], [], [], TransformerLayers, layers, Fp16, "", ""),
      m.capability.value.availableMemory / 2,
      [LlamaCpp],
      [Cpu],
      40000.0,
      0.0)
  }

  ghost predicate IsAutoSplit(shards: seq<Shard>, members: seq<Member>, total: U32) {
    var chosen := EligibleOf(members);
    && |shards| == |chosen|
    && forall i :: 0 <= i < |shards| ==>
        shards[i] == AutoShard(chosen[i], Some(ShareRange(i, |shards|, total)))
  }

  lemma EligibleFrom(done: seq<Member>, members: seq<Member>, i: nat)
    requires i < |members|
    ensures done + EligibleOf(members[i..]) ==
            (if Eligible(members[i]) then done + [members[i]] else done) + EligibleOf(members[i + 1..])
  {
    assert members[i..][1..] == members[i + 1..];
    var rest := EligibleOf(members[i + 1..]);
    assert done + ([members[i]] + rest) == (done + [members[i]]) + rest;
    assert [] + rest == rest;
  }

  /** One shard for each alive member with a capability profile, without layers yet. */
  method CollectShards(members: seq<Member>) returns (shards: seq<Shard>)
    ensures |shards| == |EligibleOf(members)|
    ensures forall j :: 0 <= j < |shards| ==> shards[j] == AutoShard(EligibleOf(members)[j], None)
  {
    ghost var done: seq<Member> := [];
    assert members[0..] == members;
    assert EligibleOf(members[|members|..]) == [];
    hide AutoShard, EligibleOf;
    shards := [];
    for i := 0 to |members|
      invariant |shards| == |done| && done + EligibleOf(members[i..]) == EligibleOf(members)
      invariant forall j :: 0 <= j < |done| ==> Eligible(done[j]) && shards[j] == AutoShard(done[j], None)
    {
      EligibleFrom(done, members, i);
      if members[i].state != Alive {
        continue;
      }
      if members[i].capability.None? {
        continue;
      }
      done := done + [members[i]];
      shards := shards + [AutoShard(members[i], None)];
    }
  }

  /** Gives shard `i` its share of the layers, and the remainder to the last shard. */
  method AssignLayers(plain: seq<Shard>, total: U32) returns (shards: seq<Shard>)
    ensures |shards| == |plain|
    ensures forall i :: 0 <= i < |plain| ==> shards[i] == SetLayers(plain[i], ShareRange(i, |plain|, total))
  {
    shards := plain;
    var n := |plain|;
    var per := Share(n, total);
    var offset := 0;
    for i := 0 to n
      invariant offset == i * per
      invariant |shards| == n
      invariant forall j :: 0 <= j < i ==> shards[j] == SetLayers(plain[j], EvenRange(j, n, total))
      invariant forall j :: i <= j < n ==> shards[j] == plain[j]
    {
      ShareFits(i, n, total);
      shards := shards[i := SetLayers(shards[i], LayerRange(offset, offset + per))];
      offset := offset + per;
    }
    if n > 0 && offset < total {
      var last := shards[n - 1].body.layers.value;
      shards := shards[n - 1 := SetLayers(shards[n - 1], LayerRange(last.start, total))];
    }
  }

  /** The two loops and the final correction of the code. */
  method GenerateShards(members: seq<Member>, total: U32) returns (shards: seq<Shard>)
    ensures IsAutoSplit(shards, members, total)
    ensures forall i :: 0 <= i < |shards| ==> GeneratedFor(EligibleOf(members)[i], shards[i])
  {
    var plain := CollectShards(members);
    shards := AssignLayers(plain, total);
    assert IsAutoSplit(shards, members, total);
    hide IsAutoSplit, EligibleOf, ShareRange;
    GeneratedShards(shards, members, total);
  }

  /** A shard names its member, asks for half of its memory, runs on the llama.cpp backend on a processor and is
      estimated at 40 ms a token. */
  predicate GeneratedFor(m: Member, s: Shard) {
    && m.capability.Some? && s.peakMemory == m.capability.value.availableMemory / 2
    && s.body.id == "shard-" + m.peer.id && s.body.stageIds == ["layer-" + m.peer.id]
    && s.body.kind == TransformerLayers && s.body.quantization == Fp16 && s.body.layers.Some?
    && s.compatibleBackends == [LlamaCpp] && s.requiredUnits == [Cpu]
    && s.decodeMicroseconds == 40000.0
  }

  lemma GeneratedShards(shards: seq<Shard>, members: seq<Member>, total: U32)
    requires IsAutoSplit(shards, members, total)
    ensures |shards| == |EligibleOf(members)|
    ensures forall i :: 0 <= i < |shards| ==> GeneratedFor(EligibleOf(members)[i], shards[i])
  {
    hide EligibleOf, ShareRange;
  }

  /** Eligible are exactly the alive members with a profile, in order. */
  lemma {:induction false} EligibleAreAlive(members: seq<Member>)
    ensures EligibleOf(members) == Filter(members, (m: Member) => m.state == Alive && m.capability.Some?)
    decreases |members|
  {
    if members != [] {
      EligibleAreAlive(members[1..]);
    }
  }

  function SetLayers(s: Shard, range: LayerRange): Shard {
    s.(body := s.body.(layers := Some(range)))
  }

  /** Range before the remainder is given to the last shard. */
  function EvenRange(i: nat, n: nat, total: U32): LayerRange
    requires i < n
  {
    ShareFits(i, n, total);
    LayerRange(i * Share(n, total), (i + 1) * Share(n, total))
  }

  // ---------------------------------------------------------------------------------------------
  // The split is a partition
  // ---------------------------------------------------------------------------------------------

  function AutoRanges(n: nat, total: U32, from: nat): seq<LayerRange>
    requires from <= n
    decreases n - from
  {
    if from == n then [] else [ShareRange(from, n, total)] + AutoRanges(n, total, from + 1)
  }

  lemma {:induction false} AutoRangesAt(n: nat, total: U32, from: nat)
    requires from <= n
    ensures |AutoRanges(n, total, from)| == n - from
    ensures forall i :: 0 <= i < n - from ==> AutoRanges(n, total, from)[i] == ShareRange(from + i, n, total)
    decreases n - from
  {
    if from < n {
      AutoRangesAt(n, total, from + 1);
    }
  }

  lemma ShareRangeShape(i: nat, n: nat, total: U32)
    requires i < n
    requires 1 <= n <= total
    ensures ShareRange(i, n, total).start == i * Share(n, total)
    ensures ShareRange(i, n, total).endExclusive == if i == n - 1 then total else (i + 1) * Share(n, total)
    ensures ShareRange(i, n, total).Valid()
  {
    ShareFits(i, n, total);
    assert Share(n, total) >= 1;
  }

  lemma {:induction false} AutoRangesChain(n: nat, total: U32, from: nat)
    requires 1 <= n <= total
    requires from < n
    ensures from * Share(n, total) <= total
    ensures Chain(AutoRanges(n, total, from), from * Share(n, total), total) == None
    decreases n - from
  {
    ShareFits(from, n, total);
    ShareRangeShape(from, n, total);
    var ranges := AutoRanges(n, total, from);
    assert ranges[1..] == AutoRanges(n, total, from + 1);
    if from + 1 < n {
      AutoRangesChain(n, total, from + 1);
    } else {
      assert ranges[1..] == [];
    }
  }

  lemma LaterShare(i: nat, j: nat, per: nat)
    requires i <= j
    ensures i * per <= j * per
  {
    assert j * per == i * per + (j - i) * per;
  }

  lemma AutoRangesSorted(n: nat, total: U32)
    requires 1 <= n <= total
    ensures Sorted(AutoRanges(n, total, 0), EarlierStart)
    ensures AllValid(AutoRanges(n, total, 0))
  {
    var ranges := AutoRanges(n, total, 0);
    AutoRangesAt(n, total, 0);
    forall i, j | 0 <= i < j < |ranges|
      ensures !EarlierStart(ranges[j], ranges[i])
    {
      ShareRangeShape(i, n, total);
      ShareRangeShape(j, n, total);
      hide ShareRange;
      LaterShare(i, j, Share(n, total));
    }
    forall i | 0 <= i < |ranges|
      ensures ranges[i].Valid()
    {
      ShareRangeShape(i, n, total);
    }
  }

  lemma {:induction false} ShardCountIsRangeCount(shards: seq<Shard>, n: nat, total: U32, from: nat, l: nat)
    requires from <= n && |shards| == n - from
    requires forall i :: 0 <= i < |shards| ==> shards[i].body.layers == Some(ShareRange(from + i, n, total))
    ensures Sum(shards, ShardCoverAt(l)) == Sum(AutoRanges(n, total, from), CoverAt(l))
    decreases n - from
  {
    if from < n {
      ShardCountIsRangeCount(shards[1..], n, total, from + 1, l);
      assert AutoRanges(n, total, from)[1..] == AutoRanges(n, total, from + 1);
    }
  }

  lemma SplitIsForward(inp: Input)
    requires IsAutoSplit(inp.shards, inp.members, inp.totalLayers)
    requires 1 <= |inp.shards| <= inp.totalLayers
    ensures LayersValid(inp) && SomeLayered(inp)
  {
    var n := |inp.shards|;
    assert inp.shards[0] in inp.shards;
    forall s | s in inp.shards && s.body.layers.Some?
      ensures s.body.layers.value.Valid()
    {
      var i :| 0 <= i < n && inp.shards[i] == s;
      ShareRangeShape(i, n, inp.totalLayers);
    }
  }

  /** With at least as many layers as members the generated ranges are forward and partition the model. */
  lemma {:induction false} SplitIsPartition(inp: Input)
    requires IsAutoSplit(inp.shards, inp.members, inp.totalLayers)
    requires 1 <= |inp.shards| <= inp.totalLayers
    ensures Partition(inp) && LayersValid(inp) && SomeLayered(inp)
  {
    var n := |inp.shards|;
    SplitIsForward(inp);
    AutoRangesTile(n, inp.totalLayers);
    hide Sum, AutoRanges, LayersValid, SomeLayered;
    forall l: nat
      ensures Sum(inp.shards, ShardCoverAt(l)) == if l < inp.totalLayers then 1 else 0
    {
      ShardCountIsRangeCount(inp.shards, n, inp.totalLayers, 0, l);
    }
  }

  lemma {:induction false} AutoRangesTile(n: nat, total: U32)
    requires 1 <= n <= total
    ensures Tiles(AutoRanges(n, total, 0), 0, total)
  {
    var ranges := AutoRanges(n, total, 0);
    AutoRangesAt(n, total, 0);
    AutoRangesSorted(n, total);
    AutoRangesChain(n, total, 0);
    assert AllValid(ranges) by {
      forall i | 0 <= i < n
        ensures ranges[i].Valid()
      {
        ShareRangeShape(i, n, total);
      }
    }
    hide Chain, Sum, AutoRanges, Tiles;
    AcceptedIffTiling(ranges, ranges, total);
  }

  /** The split is even: every shard gets the whole quotient of layers by shards, in order, and the last one gets
      the remainder on top. */
  lemma {:induction false} SplitIsEven(inp: Input, i: nat)
    requires IsAutoSplit(inp.shards, inp.members, inp.totalLayers)
    requires i < |inp.shards|
    ensures inp.shards[i].body.layers.Some?
    ensures var n, range := |inp.shards|, inp.shards[i].body.layers.value;
            && range.start == i * (inp.totalLayers / n)
            && range.endExclusive - range.start == inp.totalLayers / n + if i == n - 1 then inp.totalLayers % n else 0
  {
    var n, total := |inp.shards|, inp.totalLayers;
    assert Share(n, total) == total / n;
    assert total == n * (total / n) + total % n;
    assert n * (total / n) == (n - 1) * (total / n) + total / n;
    hide EligibleOf;
    assert inp.shards[i].body.layers == Some(ShareRange(i, n, total));
  }

  // ---------------------------------------------------------------------------------------------
  // What the scheduler makes of it
  // ---------------------------------------------------------------------------------------------

  /** The slots are those of the eligible members in order, with the memory they have available. */
  lemma {:induction false} OneShardPerSlot(members: seq<Member>)
    ensures |EligibleOf(members)| == |SlotsOf(members)|
    ensures forall i :: 0 <= i < |SlotsOf(members)| ==> OffersOf(EligibleOf(members)[i], SlotsOf(members)[i])
    decreases |members|
  {
    if members != [] {
      OneShardPerSlot(members[1..]);
    }
  }

  predicate OffersOf(m: Member, slot: Slot) {
    slot.node == m.peer.id && m.capability == Some(slot.capability) && slot.remaining == slot.capability.availableMemory
  }

  /** The split never fails on account of its layers: the scheduler answers with a plan, or with
      resource exhaustion, whatever the members are. */
  lemma {:induction false} SplitIsAccepted(inp: Input, r: Result<Plan, Failure>, order: seq<Shard>, run: seq<Config>)
    requires IsAutoSplit(inp.shards, inp.members, inp.totalLayers)
    requires 1 <= |inp.shards| <= inp.totalLayers
    requires Outcome(inp, r, order, run)
    ensures |inp.shards| == |SlotsOf(inp.members)|
    ensures r.Ok? || r.error.ResourceExhausted?
  {
    OneShardPerSlot(inp.members);
    SplitIsPartition(inp);
    hide Outcome, Partition, IsAutoSplit, SlotsOf;
    LayerVerdictIffPartition(inp, r, order, run);
  }

  /** With more members than layers, and at least three, scheduling always fails: two shards get the
      same empty range. */
  lemma {:induction false} TooManyMembersFails(inp: Input, r: Result<Plan, Failure>, order: seq<Shard>, run: seq<Config>)
    requires IsAutoSplit(inp.shards, inp.members, inp.totalLayers)
    requires |inp.shards| > inp.totalLayers && |inp.shards| >= 3
    requires Outcome(inp, r, order, run)
    ensures r.Err?
  {
    OneShardPerSlot(inp.members);
    if r.Ok? {
      var n, empty := |inp.shards|, LayerRange(0, 0);
      assert Share(n, inp.totalLayers) == 0;
      assert inp.shards[0].body.layers == Some(ShareRange(0, n, inp.totalLayers)) == Some(empty);
      assert inp.shards[1].body.layers == Some(ShareRange(1, n, inp.totalLayers)) == Some(empty);
      hide IsAutoSplit, SlotsOf, Outcome;
      assert RangeSeen(inp.shards, 1);
      SeenTwice(inp.shards, 1, empty);
      DuplicatesAreRefused(inp, r, order, run, empty);
    }
  }
}
