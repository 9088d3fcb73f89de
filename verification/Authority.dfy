/** Fence verdicts and the pairwise reference check (src/authority.cpp). */
module Authorities {
  import opened Basics
  import opened Records

  datatype Verdict =
    | Authorized | StaleWorker | StaleBoot | StaleAttempt | StaleAdapterGeneration | StaleCompositionGeneration
    | StaleResidencyGeneration | StaleArtifactGeneration | StaleBaseModel | StaleEpoch | Unknown

  /** The pairwise reference check of a candidate fence (src/authority.cpp). */
  function ValidateAuthority(c: AuthorityFence, ref: AuthorityFence): Verdict {
    if c.worker != ref.worker then StaleWorker
    else if c.boot != ref.boot then StaleBoot
    else if c.attempt != ref.attempt then StaleAttempt
    else if c.adapterGeneration != ref.adapterGeneration then StaleAdapterGeneration
    else if c.compositionGeneration != ref.compositionGeneration then StaleCompositionGeneration
    else if c.residencyGeneration != ref.residencyGeneration then StaleResidencyGeneration
    else if c.artifactGeneration != ref.artifactGeneration then StaleArtifactGeneration
    else if c.baseModelRevision != ref.baseModelRevision then StaleBaseModel
    else if c.epoch != ref.epoch then StaleEpoch
    else Authorized
  }
}
