/**
 * The workflow the dependency service fetches through. The fetch itself (caches,
 * remote repositories) and the metadata parser are not part of this model: they come
 * in as functions, so the same request always gets the same answer.
 */
module Workflows {
  import opened Wrappers
  import Domain
  import DependencyDeclarations
  import opened Graphs

  /** An artifact's metadata: its license and its own dependencies, if it declares any. */
  datatype ArtifactMetaData = ArtifactMetaData(license: License, dependencies: Option<DependencyDeclarations.Dependencies>) {
    /** `toLicensedArtifact`: the dependency as a service artifact carrying this license. */
    function ToLicensedArtifact(d: Domain.Dependency): (a: Artifact)
      ensures a.Key() == d.Key() && a.license == license
    {
      Artifact(d.id, d.version, license)
    }
  }

  /**
   * `fetchItem(artifact, item)` returns the local file of the named item of an artifact,
   * None when no repository has it, or a process failure; `parseMetaData` reads an AMD file.
   */
  datatype Workflow = Workflow(fetchItem: (Domain.Artifact, string) -> Result<Option<Domain.Path>, string>,
                               parseMetaData: Domain.Path -> ArtifactMetaData,
                               versions: Versions.VersionOps)

  /** `fetchMetaData`: the parsed AMD file, or ArtifactMetaDataMissing when there is none. */
  function FetchMetaData(w: Workflow, a: Domain.Artifact): (r: Result<ArtifactMetaData, DependencyError>)
    ensures r.Failure? ==> r.error == ArtifactMetaDataMissing(a) || r.error.ProcessFailure?
    ensures w.fetchItem(a, Domain.ArtifactMetaDataFile(w.versions, a)) == Success(None) ==> r == Failure(ArtifactMetaDataMissing(a))
  {
    match w.fetchItem(a, Domain.ArtifactMetaDataFile(w.versions, a))
    case Failure(message) => Failure(ProcessFailure(message))
    case Success(None) => Failure(ArtifactMetaDataMissing(a))
    case Success(Some(file)) => Success(w.parseMetaData(file))
  }

  /** `fetchArtifact`: the artifact's file and never nothing; ArtifactMissing instead. */
  function FetchArtifact(w: Workflow, a: Artifact): (r: Result<Domain.Path, DependencyError>)
    ensures r.Failure? ==> r.error == ArtifactMissing(a) || r.error.ProcessFailure?
    ensures r.Success? <==> exists f :: w.fetchItem(a.Key(), Domain.ArtifactFile(w.versions, a.Key())) == Success(Some(f))
  {
    match w.fetchItem(a.Key(), Domain.ArtifactFile(w.versions, a.Key()))
    case Failure(message) => Failure(ProcessFailure(message))
    case Success(None) => Failure(ArtifactMissing(a))
    case Success(Some(file)) => Success(file)
  }

  /**
   * `fetchSource`: the source file, or None when there is none (the source then writes
   * a negative marker so that the lookup is not repeated; that write is not modelled).
   */
  function FetchSource(w: Workflow, a: ResolvedArtifact): (r: Result<Option<Domain.Path>, DependencyError>)
    ensures r.Failure? ==> r.error.ProcessFailure?
  {
    var key := Domain.Artifact(a.id, a.version);
    match w.fetchItem(key, Domain.ArtifactSourceFile(w.versions, key))
    case Failure(message) => Failure(ProcessFailure(message))
    case Success(file) => Success(file)
  }
}
