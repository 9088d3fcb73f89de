/** The durable records of the repository. Strings are byte strings, enumerations their byte codes. */
module Records {
  import opened Basics

  datatype TargetModule = TargetModule(name: Bytes, inFeatures: u32, outFeatures: u32, shape: seq<u32>)
  datatype Dependency = Dependency(name: Bytes, version: Bytes, requirement: Bytes)
  datatype RuntimeCapability = RuntimeCapability(name: Bytes, value: Bytes, required: bool)
  datatype ExecutionConstraint = ExecutionConstraint(key: Bytes, value: Bytes)
  datatype Provenance = Provenance(source: Bytes, author: Bytes, timestamp: Bytes, originDigest: Bytes, notes: Bytes)

  datatype AdapterDescriptor = AdapterDescriptor(
    id: Uuid, revision: Uuid, artifact: Uuid, artifactDigest: Bytes, kind: byte, name: Bytes,
    baseModel: Uuid, baseModelRevision: Uuid, targets: seq<TargetModule>,
    rank: u32, dtype: byte, paramCount: u64, paramBytes: u64, memoryBytes: u64,
    format: Bytes, formatVersion: u32,
    dependencies: seq<Dependency>, capabilities: seq<RuntimeCapability>, constraints: seq<ExecutionConstraint>,
    provenance: Provenance, generation: u64, policyGeneration: u64, validation: byte)

  datatype CompositionMember = CompositionMember(
    adapterId: Uuid, revision: Uuid, generation: u64, memoryBytes: u64, kind: byte)

  datatype Composition = Composition(
    id: Uuid, members: seq<CompositionMember>, generation: u64, baseModel: Uuid, baseModelRevision: Uuid,
    policy: Bytes, totalMemoryBytes: u64, digest: Bytes, validationSummary: Bytes, isValid: bool)

  datatype WorkerCapability = WorkerCapability(name: Bytes, value: Bytes)

  datatype WorkerRecord = WorkerRecord(
    id: Uuid, boot: Uuid, address: Bytes, node: Uuid, device: Uuid, connected: bool, epoch: u64,
    capabilities: seq<WorkerCapability>, deviceMemoryBytes: u64, localAdapters: seq<Uuid>)

  datatype FabricSnapshot = FabricSnapshot(
    epoch: u64, nextAdapterGeneration: u64, nextCompositionGeneration: u64,
    adapters: seq<AdapterDescriptor>, compositions: seq<Composition>, workers: seq<WorkerRecord>)

  /** Everything an execution-relevant activation binds to. */
  datatype AuthorityFence = AuthorityFence(
    adapter: Uuid, composition: Uuid, adapterGeneration: u64, compositionGeneration: u64,
    residencyGeneration: u64, artifactGeneration: u64, baseModelRevision: Uuid, epoch: u64,
    worker: Uuid, boot: Uuid, attempt: Uuid, device: Uuid, node: Uuid)

  datatype Message = Message(
    kind: byte, text: Bytes, text2: Bytes, text3: Bytes, text4: Bytes,
    a: u64, b: u64, c: u64, reqId: u64, ok: bool, payload: Bytes)
}

/** Strongly typed monotonic generations; zero means "none". */
module Generations {
  import opened Basics

  /** Saturates at the largest 64-bit value; the guard against returning to none never fires. */
  function Next(g: u64): (n: u64)
    ensures n != 0 && g <= n
    ensures g < n <==> g != U64_MAX
  {
    if g == U64_MAX then g else g + 1
  }
}
