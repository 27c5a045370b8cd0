/** Vocabulary shared by the components: optional values, machine integers, cluster members,
    model shards and pipeline plans. */
module Core {
  datatype Option<+T> = None | Some(value: T)

  datatype Result<+T, +E> = Ok(value: T) | Err(error: E)

  const TWO_31: nat := 0x8000_0000
  const TWO_32: nat := 0x1_0000_0000
  const TWO_63: nat := 0x8000_0000_0000_0000
  const TWO_64: nat := 0x1_0000_0000_0000_0000

  type U32 = n: nat | n < TWO_32
  type U64 = n: nat | n < TWO_64
  type I32 = i: int | 0 - TWO_31 <= i < TWO_31
  type I64 = i: int | 0 - TWO_63 <= i < TWO_63

  /** Conversions between signed and unsigned integers of one width. */
  function ToI32(n: U32): I32 {
    if n < TWO_31 then n else n - TWO_32
  }

  function ToU32(i: I32): U32 {
    if i >= 0 then i else i + TWO_32
  }

  function ToI64(n: U64): I64 {
    if n < TWO_63 then n else n - TWO_64
  }

  function ToU64(i: I64): U64 {
    if i >= 0 then i else i + TWO_64
  }

  type NodeId = string

  // ---------------------------------------------------------------------------------------------
  // Capabilities and members
  // ---------------------------------------------------------------------------------------------

  datatype BackendKind = LlamaCpp | ExecuTorchQnn | ExecuTorchCpu | Mlx | LiteRt

  datatype ComputeUnit = Cpu | Gpu | Npu

  datatype QuantizationKind = Fp16 | Int8 | Int4 | Int2 | Ternary

  datatype BackendCapability = BackendCapability(kind: BackendKind, computeUnits: seq<ComputeUnit>)

  datatype Benchmark = Benchmark(
    backend: BackendKind,
    quantization: QuantizationKind,
    decodeTokensPerSecond: real,
    firstTokenMicroseconds: int)

  datatype Capability = Capability(
    totalMemory: U64,
    availableMemory: U64,
    backends: seq<BackendCapability>,
    benchmarks: seq<Benchmark>)

  datatype MemberState = Joining | Alive | Suspect | Left | Removed

  datatype NodeRole = Leech | Participant

  /** What a peer announces about itself. */
  datatype Peer = Peer(id: NodeId, incarnation: nat, fingerprint: string)

  datatype ModelPresence = ModelPresence(model: string, revision: string, ready: bool)

  datatype Member = Member(
    peer: Peer,
    state: MemberState,
    role: NodeRole,
    capability: Option<Capability>,
    models: seq<ModelPresence>,
    lastSeen: int)

  // ---------------------------------------------------------------------------------------------
  // Shards and plans
  // ---------------------------------------------------------------------------------------------

  datatype StageKind = TokenEmbedding | TransformerLayers | OutputNormalization | LmHead

  datatype LayerRange = LayerRange(start: U32, endExclusive: U32) {
    predicate Valid() {
      start < endExclusive
    }
  }

  /** The part of a shard that a stage assignment copies. */
  datatype ShardBody = ShardBody(
    id: string,
    stageIds: seq<string>,
    inputBoundaries: seq<string>,
    outputBoundaries: seq<string>,
    kind: StageKind,
    layers: Option<LayerRange>,
    quantization: QuantizationKind,
    executionProfile: string,
    artifact: string)

  datatype Shard = Shard(
    body: ShardBody,
    peakMemory: U64,
    compatibleBackends: seq<BackendKind>,
    requiredUnits: seq<ComputeUnit>,
    decodeMicroseconds: real,
    sensitivity: real)

  datatype Stage = Stage(
    ordinal: U32,
    node: NodeId,
    body: ShardBody,
    backend: BackendKind,
    reserved: U64,
    estimate: real)

  datatype Fence = Fence(term: U64, token: string, membershipRevision: U64)

  datatype Plan = Plan(
    id: string,
    model: string,
    revision: string,
    fence: Fence,
    stages: seq<Stage>,
    boundaries: seq<string>,
    issuedAt: I64,
    validFor: I64)
}
