/**
 * The graphs the dependency pipeline builds: the multi-version dependency graph over
 * artifact identities, the reduced artifact graph and the resolved artifact graph,
 * together with the licensed artifacts they hold and the errors the pipeline raises.
 */
module Graphs {
  import opened Wrappers
  import opened Versions
  import Domain

  /** A license identifier; only its identity matters. */
  type License(==, !new)

  /**
   * The artifact of the dependency service: an identity, a version and the license
   * that the artifact's metadata declares.
   */
  datatype Artifact = Artifact(id: Domain.ArtifactID, version: Version, license: License) {
    /** The identity and version alone, by which files are named and metadata is fetched. */
    function Key(): Domain.Artifact { Domain.Artifact(id, version) }
  }

  /** An artifact together with the file it was fetched to (None for the project itself). */
  datatype ResolvedArtifact = ResolvedArtifact(id: Domain.ArtifactID, version: Version, license: License, file: Option<Domain.Path>) {
    function Unresolved(): Artifact { Artifact(id, version, license) }
  }

  /**
   * The value of one dependency-graph edge: the version of the depending artifact it
   * was recorded under, the version it asks for, the group it was declared in, whether
   * it is optional, and the license of the dependency's metadata.
   */
  datatype DependencyEdgeValue = DependencyEdgeValue(dependentVersion: Version, dependencyVersion: Version,
                                                     group: string, optional: bool, license: License)

  /** A directed edge carrying a value. */
  datatype Edge<N, V> = Edge(origin: N, destination: N, value: V)

  /** The errors of the dependency service, each the exception of the same name. */
  datatype DependencyError =
    | ArtifactMetaDataMissing(dependency: Domain.Artifact)
    | ArtifactMissing(artifact: Artifact)
    | ProcessFailure(message: string)
    | Compatibility(destination: Domain.ArtifactID, min: Version, max: Version)
    | LicenseViolation(artifact: Artifact)

  /** `edges` after adding `e`: an edge equal to one already there adds nothing. */
  function WithEdge<N(==, !new), V(==, !new)>(edges: seq<Edge<N, V>>, e: Edge<N, V>): (r: seq<Edge<N, V>>)
    ensures edges <= r && e in r
    ensures forall x :: x in r <==> x in edges || x == e
  {
    if e in edges then edges else edges + [e]
  }

  /** The edges leaving `n`, in the order they were added. */
  function Outbound<N(==, !new), V(!new)>(edges: seq<Edge<N, V>>, n: N): (r: seq<Edge<N, V>>)
    ensures forall e :: e in r <==> e in edges && e.origin == n
  {
    if edges == [] then []
    else (if edges[0].origin == n then [edges[0]] else []) + Outbound(edges[1..], n)
  }

  /** The edges entering `n`, in the order they were added. */
  function Inbound<N(==, !new), V(!new)>(edges: seq<Edge<N, V>>, n: N): (r: seq<Edge<N, V>>)
    ensures forall e :: e in r <==> e in edges && e.destination == n
  {
    if edges == [] then []
    else (if edges[0].destination == n then [edges[0]] else []) + Inbound(edges[1..], n)
  }

  /**
   * A directed graph with a root, kept as the list of its edges in the order they were
   * first added; nodes are the edges' end points. Adding an edge equal to one present
   * changes nothing, so two graphs built from the same edges compare equal.
   */
  class Graph<R, N(==, !new), V(==, !new)> {
    const root: R
    var edges: seq<Edge<N, V>>

    constructor (root: R)
      ensures this.root == root && edges == []
    {
      this.root := root;
      edges := [];
    }

    method AddEdge(origin: N, destination: N, value: V)
      modifies this
      ensures edges == WithEdge(old(edges), Edge(origin, destination, value))
    {
      edges := WithEdge(edges, Edge(origin, destination, value));
    }
  }

  /** The multi-version graph over artifact identities, rooted at the project. */
  type DependencyGraph = Graph<Artifact, Domain.ArtifactID, DependencyEdgeValue>

  /** The reduced graph: one version of each artifact, edges labelled with their group. */
  type ArtifactGraph = Graph<Artifact, Artifact, string>

  /** The graph of fetched artifacts. */
  type ResolvedArtifactGraph = Graph<ResolvedArtifact, ResolvedArtifact, string>

  /** `rank` strictly decreases along every edge, which makes the graph acyclic. */
  ghost predicate Ranked<N(!new), V(!new)>(edges: seq<Edge<N, V>>, rank: N -> nat) {
    forall e :: e in edges ==> rank(e.origin) > rank(e.destination)
  }
}
