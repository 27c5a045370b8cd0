/** Which models a cluster can run, and how long a context its memory holds, over real arithmetic. */
module Catalog {
  import opened Core
  import opened Sequences
  import Pipeline

  const GIB: real := 1073741824.0

  /** Key and value bytes of one token in one layer. */
  const KV_BYTES: real := 4096.0

  datatype PipelineOption = PipelineOption(name: string, minDevices: U32, minRamGb: U32)

  datatype Entry = Entry(
    model: string,
    layers: U32,
    sizeGb: real,
    contextMax: U32,
    defaultContext: U32,
    pipelines: seq<PipelineOption>)

  datatype Limit = ModelMax | Vram

  /** `Unspecified` is a division by zero or a conversion that does not fit, which the language leaves open. */
  datatype Estimate =
    | Insufficient
    | Unspecified
    | Window(maxTokens: U32, recommended: U32, limit: Limit)

  // ---------------------------------------------------------------------------------------------
  // The cluster
  // ---------------------------------------------------------------------------------------------

  predicate Participates(m: Member) {
    m.state == Alive && m.role == Participant
  }

  function Bytes(m: Member): int {
    if Participates(m) && m.capability.Some? then m.capability.value.totalMemory else 0
  }

  function One(m: Member): int {
    if Participates(m) then 1 else 0
  }

  method TotalRamGb(members: seq<Member>) returns (ram: real)
    ensures ram == RamGb(members)
  {
    ram := 0.0;
    assert members[..0] == [];
    for i := 0 to |members|
      invariant ram == Sum(members[..i], Bytes) as real / GIB
    {
      var m := members[i];
      assert members[..i + 1] == members[..i] + [m];
      SumOfConcatenation(members[..i], [m], Bytes);
      SumOfOne(m, Bytes);
      hide Sum;
      if m.state != Alive || m.role != Participant {
        continue;
      }
      if m.capability.Some? {
        ram := ram + m.capability.value.totalMemory as real / GIB;
      }
    }
    assert members[..|members|] == members;
  }

  method ParticipantCount(members: seq<Member>) returns (count: U32)
    ensures count == Devices(members)
  {
    count := 0;
    assert members[..0] == [];
    for i := 0 to |members|
      invariant count == Sum(members[..i], One) % TWO_32
    {
      var m := members[i];
      assert members[..i + 1] == members[..i] + [m];
      SumOfConcatenation(members[..i], [m], One);
      SumOfOne(m, One);
      hide Sum;
      if m.state == Alive && m.role == Participant {
        count := (count + 1) % TWO_32;
      }
    }
    assert members[..|members|] == members;
  }

  lemma SumOfOne<T>(x: T, f: T -> int)
    ensures Sum([x], f) == f(x)
  {
    assert [x][1..] == [];
  }

  // ---------------------------------------------------------------------------------------------
  // Options
  // ---------------------------------------------------------------------------------------------

  predicate Runs(option: PipelineOption, ram: real, devices: U32) {
    ram >= option.minRamGb as real && devices >= option.minDevices
  }

  predicate Runnable(entry: Entry, ram: real, devices: U32) {
    exists option :: option in entry.pipelines && Runs(option, ram, devices)
  }

  ghost function RamGb(members: seq<Member>): real {
    Sum(members, Bytes) as real / GIB
  }

  ghost function Devices(members: seq<Member>): U32 {
    Sum(members, One) % TWO_32
  }

  /** The entries with an option that the cluster can run, in catalogue order. */
  method AvailableModels(all: seq<Entry>, members: seq<Member>) returns (available: seq<Entry>)
    ensures available == Filter(all, (e: Entry) => Runnable(e, RamGb(members), Devices(members)))
  {
    var ram := TotalRamGb(members);
    var devices := ParticipantCount(members);
    ghost var keep := (e: Entry) => Runnable(e, RamGb(members), Devices(members));
    available := [];
    hide Filter, Runnable;
    for i := 0 to |all|
      invariant available == Filter(all[..i], keep)
    {
      var e := all[i];
      var found := HasRunnableOption(e, ram, devices);
      assert all[..i + 1] == all[..i] + [e];
      FilterOfConcatenation(all[..i], [e], keep);
      FilterOfOne(e, keep);
      if found {
        available := available + [e];
      }
    }
    assert all[..|all|] == all;
  }

  method HasRunnableOption(entry: Entry, ram: real, devices: U32) returns (found: bool)
    ensures found == Runnable(entry, ram, devices)
  {
    for j := 0 to |entry.pipelines|
      invariant forall k :: 0 <= k < j ==> !Runs(entry.pipelines[k], ram, devices)
    {
      if Runs(entry.pipelines[j], ram, devices) {
        return true;
      }
    }
    return false;
  }

  lemma FilterOfOne<T(!new)>(x: T, keep: T -> bool)
    ensures Filter([x], keep) == if keep(x) then [x] else []
  {
    assert [x][1..] == [];
  }

  /** The first of the runnable options that ask for the most memory. */
  method BestOption(entry: Entry, ram: real, devices: U32) returns (best: Option<PipelineOption>)
    ensures best.Some? <==> Runnable(entry, ram, devices)
    ensures best.Some? ==>
              && best.value in entry.pipelines && Runs(best.value, ram, devices)
              && forall o :: o in entry.pipelines && Runs(o, ram, devices) ==> o.minRamGb <= best.value.minRamGb
  {
    best := None;
    for i := 0 to |entry.pipelines|
      invariant best.None? ==> forall k :: 0 <= k < i ==> !Runs(entry.pipelines[k], ram, devices)
      invariant best.Some? ==>
                  && best.value in entry.pipelines && Runs(best.value, ram, devices)
                  && forall k :: 0 <= k < i && Runs(entry.pipelines[k], ram, devices) ==> entry.pipelines[k].minRamGb <= best.value.minRamGb
    {
      var option := entry.pipelines[i];
      if Runs(option, ram, devices) {
        if best.None? || option.minRamGb > best.value.minRamGb {
          best := Some(option);
        }
      }
    }
  }

  // ---------------------------------------------------------------------------------------------
  // The context window
  // ---------------------------------------------------------------------------------------------

  /** Adaptive batching holds as many sequences as a batch may have, at least one; the other modes hold one. */
  function Multiplier(batching: Pipeline.BatchingConfig): (m: U32)
    ensures batching.mode == Pipeline.Adaptive ==> m >= batching.maxBatch && m >= 1 && (m == batching.maxBatch || m == 1)
    ensures batching.mode != Pipeline.Adaptive ==> m == 1
  {
    if batching.mode.Adaptive? && batching.maxBatch > 1 then batching.maxBatch else 1
  }

  function BytesPerToken(entry: Entry, devices: U32): real
    requires devices >= 1
  {
    KV_BYTES * (entry.layers as real / devices as real)
  }

  /** Memory of one device left for keys and values, never below zero. */
  function KvRam(entry: Entry, ram: real, devices: U32): real
    requires devices >= 1
  {
    var kv := ram / devices as real * 0.7 - entry.sizeGb / devices as real;
    if kv < 0.0 then 0.0 else kv
  }

  /** The division and the conversion to a 32-bit integer are defined. */
  predicate Computable(entry: Entry, ram: real, devices: U32) {
    && devices >= 1 && entry.layers >= 1
    && BytesPerToken(entry, devices) > 0.0
    && (KvRam(entry, ram, devices) * GIB / BytesPerToken(entry, devices)).Floor < TWO_32
  }

  /** The weights and `tokens` tokens fit in 70% of the average memory of a device. */
  ghost predicate Fits(entry: Entry, ram: real, devices: U32, tokens: nat)
    requires devices >= 1
  {
    entry.sizeGb / devices as real + tokens as real * BytesPerToken(entry, devices) / GIB <= ram / devices as real * 0.7
  }

  /** `n` is the longest window: exactly the context lengths up to `n` are allowed by the model and fit the
      memory, with the batch multiplier. */
  ghost predicate IsWindow(entry: Entry, ram: real, devices: U32, m: nat, n: nat)
    requires devices >= 1
  {
    && n <= entry.contextMax
    && forall t: nat :: 1 <= t ==> (t <= n <==> t <= entry.contextMax && Fits(entry, ram, devices, t * m))
  }

  /** The estimate is insufficient exactly for the models that are not listed as available.  Otherwise it is
      the longest window: it fits the memory, and one token more does not or is beyond the model. */
  method EstimateContextWindow(members: seq<Member>, entry: Entry, batching: Pipeline.BatchingConfig) returns (est: Estimate)
    ensures est.Insufficient? <==> !Runnable(entry, RamGb(members), Devices(members))
    ensures est.Window? <==> Runnable(entry, RamGb(members), Devices(members)) && Computable(entry, RamGb(members), Devices(members))
    ensures est.Window? ==>
              && IsWindow(entry, RamGb(members), Devices(members), Multiplier(batching), est.maxTokens)
              && (est.maxTokens > 0 ==> Fits(entry, RamGb(members), Devices(members), est.maxTokens * Multiplier(batching)))
              && (est.maxTokens < entry.contextMax ==>
                    !Fits(entry, RamGb(members), Devices(members), (est.maxTokens + 1) * Multiplier(batching)))
              && est.recommended == (if est.maxTokens < entry.defaultContext then est.maxTokens else entry.defaultContext)
              && (est.limit == ModelMax <==> est.maxTokens == entry.contextMax)
  {
    hide Sum;
    var ram := TotalRamGb(members);
    var devices := ParticipantCount(members);
    var best := BestOption(entry, ram, devices);
    if best.None? {
      return Insufficient;
    }
    if !Computable(entry, ram, devices) {
      return Unspecified;
    }
    var kvRam := KvRam(entry, ram, devices);
    var quotient := kvRam * GIB / BytesPerToken(entry, devices);
    QuotientNonNegative(kvRam, BytesPerToken(entry, devices));
    var maxCtx: U32 := quotient.Floor;
    var m := Multiplier(batching);
    WindowIsExact(entry, ram, devices, m);
    maxCtx := maxCtx / m;
    if maxCtx > entry.contextMax {
      maxCtx := entry.contextMax;
    }
    assert IsWindow(entry, ram, devices, m, maxCtx);
    WindowFits(entry, ram, devices, m, maxCtx);
    hide IsWindow, Fits, Computable, Runnable, KvRam, BytesPerToken, Multiplier;
    return Window(maxCtx, if maxCtx < entry.defaultContext then maxCtx else entry.defaultContext,
                  if maxCtx >= entry.contextMax then ModelMax else Vram);
  }

  lemma QuotientNonNegative(kv: real, bytes: real)
    requires kv >= 0.0 && bytes > 0.0
    ensures kv * GIB / bytes >= 0.0
    ensures (kv * GIB / bytes).Floor >= 0
  {
  }

  lemma WindowIsExact(entry: Entry, ram: real, devices: U32, m: U32)
    requires Computable(entry, ram, devices) && m >= 1
    ensures var quotient := KvRam(entry, ram, devices) * GIB / BytesPerToken(entry, devices);
            forall t: nat :: 1 <= t ==> (t <= quotient.Floor / m <==> Fits(entry, ram, devices, t * m))
  {
    var quotient := KvRam(entry, ram, devices) * GIB / BytesPerToken(entry, devices);
    QuotientNonNegative(KvRam(entry, ram, devices), BytesPerToken(entry, devices));
    forall t: nat | 1 <= t
      ensures t <= quotient.Floor / m <==> Fits(entry, ram, devices, t * m)
    {
      DivideIff(t, quotient.Floor, m);
      assert t * m >= 1;
      FitsIff(entry, ram, devices, t * m);
    }
  }

  lemma DivideIff(t: nat, n: nat, m: nat)
    requires m >= 1
    ensures t <= n / m <==> t * m <= n
  {
    assert n == n / m * m + n % m;
    if t <= n / m {
      assert t * m <= n / m * m;
    } else {
      assert (n / m + 1) * m <= t * m;
    }
  }

  lemma FitsIff(entry: Entry, ram: real, devices: U32, tokens: nat)
    requires Computable(entry, ram, devices) && tokens >= 1
    ensures tokens <= (KvRam(entry, ram, devices) * GIB / BytesPerToken(entry, devices)).Floor <==> Fits(entry, ram, devices, tokens)
  {
    var b := BytesPerToken(entry, devices);
    var usable := ram / devices as real * 0.7;
    var weights := entry.sizeGb / devices as real;
    var kv := KvRam(entry, ram, devices);
    assert kv == if usable - weights < 0.0 then 0.0 else usable - weights;
    assert Fits(entry, ram, devices, tokens) <==> weights + tokens as real * b / GIB <= usable;
    hide BytesPerToken, KvRam, Fits;
    FloorIff(tokens, kv * GIB / b);
    QuotientIff(tokens as real, kv, b);
  }

  lemma FloorIff(n: nat, x: real)
    ensures n <= x.Floor <==> n as real <= x
  {
  }

  lemma QuotientIff(t: real, kv: real, b: real)
    requires b > 0.0 && t > 0.0
    ensures t <= kv * GIB / b <==> t * b / GIB <= kv
    ensures t * b / GIB > 0.0
  {
    var q := kv * GIB / b;
    assert q * b == kv * GIB;
    if t <= q {
      assert t * b <= q * b;
    } else {
      assert t * b > q * b;
    }
  }

  // ---------------------------------------------------------------------------------------------
  // Consequences
  // ---------------------------------------------------------------------------------------------

  /** A positive estimate fits the memory, and no longer one does unless the model forbids it. */
  lemma WindowFits(entry: Entry, ram: real, devices: U32, m: U32, n: nat)
    requires devices >= 1 && IsWindow(entry, ram, devices, m, n)
    ensures n > 0 ==> Fits(entry, ram, devices, n * m)
    ensures n < entry.contextMax ==> !Fits(entry, ram, devices, (n + 1) * m)
  {
    hide Fits;
    var longer: nat := n + 1;
    assert longer <= n <==> longer <= entry.contextMax && Fits(entry, ram, devices, longer * m);
  }

  lemma FewerTokensFit(entry: Entry, ram: real, devices: U32, a: nat, b: nat)
    requires devices >= 1 && a <= b
    requires Fits(entry, ram, devices, b)
    ensures Fits(entry, ram, devices, a)
  {
    var bytes := BytesPerToken(entry, devices);
    assert bytes >= 0.0;
    hide BytesPerToken;
    assert a as real * bytes <= b as real * bytes;
  }

  lemma MoreRamFits(entry: Entry, less: real, more: real, devices: U32, tokens: nat)
    requires devices >= 1 && less <= more
    requires Fits(entry, less, devices, tokens)
    ensures Fits(entry, more, devices, tokens)
  {
    var d := devices as real;
    assert less / d <= more / d;
  }

  /** A larger batch never lengthens the window. */
  lemma {:induction false} LargerBatchNeverLonger(entry: Entry, ram: real, devices: U32, m1: nat, m2: nat, n1: nat, n2: nat)
    requires devices >= 1 && m1 <= m2
    requires IsWindow(entry, ram, devices, m1, n1) && IsWindow(entry, ram, devices, m2, n2)
    ensures n2 <= n1
  {
    if n2 >= 1 {
      assert Fits(entry, ram, devices, n2 * m2);
      assert n2 * m1 <= n2 * m2;
      FewerTokensFit(entry, ram, devices, n2 * m1, n2 * m2);
    }
  }

  /** With the same devices, more memory never shortens the window. */
  lemma {:induction false} MoreRamNeverShorter(entry: Entry, less: real, more: real, devices: U32, m: nat, n1: nat, n2: nat)
    requires devices >= 1 && less <= more
    requires IsWindow(entry, less, devices, m, n1) && IsWindow(entry, more, devices, m, n2)
    ensures n1 <= n2
  {
    if n1 >= 1 {
      assert Fits(entry, less, devices, n1 * m);
      MoreRamFits(entry, less, more, devices, n1 * m);
    }
  }

  // ---------------------------------------------------------------------------------------------
  // In total
  // ---------------------------------------------------------------------------------------------

  /** The number of devices cancels: what counts is whether the weights and 4096 bytes for each token and layer are
      at most 70% of the memory of the whole cluster. */
  lemma {:induction false} FitsInTotal(entry: Entry, ram: real, devices: U32, tokens: nat)
    requires devices >= 1
    ensures Fits(entry, ram, devices, tokens)
            <==> entry.sizeGb + tokens as real * (4096.0 * entry.layers as real) / 1073741824.0 <= ram * 0.7
  {
    var d, t, l := devices as real, tokens as real, entry.layers as real;
    assert Fits(entry, ram, devices, tokens) <==> entry.sizeGb / d + t * (4096.0 * (l / d)) / 1073741824.0 <= ram / d * 0.7;
    ShareOfCache(t, l, d);
    SharesCompare(entry.sizeGb, t * (4096.0 * l) / 1073741824.0, ram, d);
  }

  lemma ShareOfCache(t: real, l: real, d: real)
    requires d > 0.0
    ensures t * (4096.0 * (l / d)) / 1073741824.0 == (t * (4096.0 * l) / 1073741824.0) / d
  {
    assert 4096.0 * (l / d) == (4096.0 * l) / d;
    MoveDivision(t, 4096.0 * l, d);
    SwapDivisions(t * (4096.0 * l), d, 1073741824.0);
  }

  lemma MoveDivision(t: real, x: real, d: real)
    requires d > 0.0
    ensures t * (x / d) == (t * x) / d
  {
    assert (x / d) * d == x;
    assert t * (x / d) * d == t * x;
  }

  lemma SwapDivisions(x: real, d: real, e: real)
    requires d > 0.0 && e > 0.0
    ensures x / d / e == x / e / d
  {
    var a, b := x / d / e, x / e / d;
    assert a * e * d == x && b * d * e == x;
    assert a * (d * e) == b * (d * e);
  }

  lemma SharesCompare(size: real, cache: real, ram: real, d: real)
    requires d > 0.0
    ensures size / d + cache / d <= ram / d * 0.7 <==> size + cache <= ram * 0.7
  {
    var l, r := size / d + cache / d, ram / d * 0.7;
    assert l * d == size + cache && r * d == ram * 0.7;
    if l <= r {
      assert l * d <= r * d;
    } else {
      assert l * d > r * d;
    }
  }

  /** Memory and participants add up over the members. */
  lemma ClusterAddsUp(a: seq<Member>, b: seq<Member>)
    ensures RamGb(a + b) == RamGb(a) + RamGb(b)
    ensures Devices(a + b) == (Devices(a) + Devices(b)) % TWO_32
  {
    SumOfConcatenation(a, b, Bytes);
    SumOfConcatenation(a, b, One);
    hide Sum, Bytes, One;
    AddShares(Sum(a, Bytes), Sum(b, Bytes));
    AddCounts(Sum(a, One), Sum(b, One));
  }

  lemma AddShares(x: int, y: int)
    ensures (x + y) as real / GIB == x as real / GIB + y as real / GIB
  {
  }

  lemma AddCounts(x: int, y: int)
    ensures (x + y) % TWO_32 == (x % TWO_32 + y % TWO_32) % TWO_32
  {
  }

  /** One member counts if it is alive and participates, with the total memory of its profile if it has one. */
  lemma MemberCounts(m: Member)
    ensures RamGb([m]) == if m.state == Alive && m.role == Participant && m.capability.Some?
                          then m.capability.value.totalMemory as real / 1073741824.0 else 0.0
    ensures Devices([m]) == if m.state == Alive && m.role == Participant then 1 else 0
  {
    SumOfOne(m, Bytes);
    SumOfOne(m, One);
    hide Sum;
  }

  /** A model is runnable exactly if some option asks for no more memory and no more devices than there are. */
  lemma RunnableIff(entry: Entry, ram: real, devices: U32)
    ensures Runnable(entry, ram, devices)
            <==> exists i :: 0 <= i < |entry.pipelines| && entry.pipelines[i].minRamGb as real <= ram
                             && entry.pipelines[i].minDevices <= devices
  {
    if i :| 0 <= i < |entry.pipelines| && entry.pipelines[i].minRamGb as real <= ram && entry.pipelines[i].minDevices <= devices {
      assert entry.pipelines[i] in entry.pipelines && Runs(entry.pipelines[i], ram, devices);
    }
  }

  /** The arithmetic is defined exactly if there is a device and a layer and the weights with 16384 GB for each layer
      exceed 70% of the memory: then fewer than 2^32 tokens fit. */
  lemma {:induction false} ComputableIff(entry: Entry, ram: real, devices: U32)
    ensures Computable(entry, ram, devices)
            <==> devices >= 1 && entry.layers >= 1 && entry.sizeGb + 16384.0 * entry.layers as real > ram * 0.7
  {
    if devices >= 1 && entry.layers >= 1 {
      var d, l := devices as real, entry.layers as real;
      var b, kv := BytesPerToken(entry, devices), KvRam(entry, ram, devices);
      PositiveShare(l, d);
      assert b == 4096.0 * (l / d) && b > 0.0;
      var usable, weights := ram / d * 0.7, entry.sizeGb / d;
      assert kv == if usable - weights < 0.0 then 0.0 else usable - weights;
      FloorIff(0x1_0000_0000, kv * GIB / b);
      QuotientIff(4294967296.0, kv, b);
      FitsInTotal(entry, ram, devices, 0x1_0000_0000);
      assert Fits(entry, ram, devices, 0x1_0000_0000) <==> weights + 4294967296.0 * b / GIB <= usable;
      SixteenK(l);
      hide BytesPerToken, KvRam, Fits;
    }
  }

  lemma PositiveShare(l: real, d: real)
    requires l > 0.0 && d > 0.0
    ensures l / d > 0.0
  {
  }

  lemma SixteenK(l: real)
    ensures 4294967296.0 * (4096.0 * l) / 1073741824.0 == 16384.0 * l
  {
  }
}
