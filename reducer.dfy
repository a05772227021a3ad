/**
 * `reduce`: the multi-version dependency graph collapsed to one version per artifact.
 * A depth-first walk from the project visits every edge along every followed path; a
 * destination is decided once every origin pointing at it is decided, from the edges
 * recorded under the versions kept for those origins (the significant edges): it keeps
 * the highest version they ask for, provided the lowest is compatible with it.
 */
module Reducer {
  import opened Wrappers
  import opened Versions
  import Domain
  import opened Graphs

  type DepEdge = Edge<Domain.ArtifactID, DependencyEdgeValue>
  type ArtifactEdge = Edge<Artifact, string>

  /**
   * `alreadyCheckedAllParents`: the destination has inbound edges and every one of them
   * comes from an origin already kept.
   */
  predicate AllParentsChecked(edges: seq<DepEdge>, d: Domain.ArtifactID, kept: map<Domain.ArtifactID, Artifact>) {
    |Inbound(edges, d)| > 0 && forall e :: e in Inbound(edges, d) ==> e.origin in kept
  }

  /** The edges of `inbound` recorded under the version kept for their origin. */
  function SignificantOf(inbound: seq<DepEdge>, kept: map<Domain.ArtifactID, Artifact>): (r: seq<DepEdge>)
    ensures forall e :: e in r <==> e in inbound && e.origin in kept && e.value.dependentVersion == kept[e.origin].version
  {
    if inbound == [] then []
    else
      (if inbound[0].origin in kept && inbound[0].value.dependentVersion == kept[inbound[0].origin].version then [inbound[0]] else [])
      + SignificantOf(inbound[1..], kept)
  }

  /** `significantInbound` of destination `d`, once all its parents are checked. */
  function Significant(edges: seq<DepEdge>, d: Domain.ArtifactID, kept: map<Domain.ArtifactID, Artifact>): seq<DepEdge>
  {
    SignificantOf(Inbound(edges, d), kept)
  }

  /** The versions the edges ask for, in order. */
  function Asked(edges: seq<DepEdge>): (r: seq<Version>)
    ensures |r| == |edges| && forall i :: 0 <= i < |edges| ==> r[i] == edges[i].value.dependencyVersion
  {
    seq(|edges|, i requires 0 <= i < |edges| => edges[i].value.dependencyVersion)
  }

  /**
   * What a decided destination `d` satisfies: its parents are all decided, its
   * significant edges are not empty, it keeps the highest version they ask for, the
   * lowest is compatible with that, and its license is that of a non-optional edge
   * into it (the edge that was being visited when it was decided).
   */
  ghost predicate Decided(ops: VersionOps, edges: seq<DepEdge>, d: Domain.ArtifactID, kept: map<Domain.ArtifactID, Artifact>) {
    && d in kept
    && AllParentsChecked(edges, d, kept)
    && |Significant(edges, d, kept)| > 0
    && kept[d].version == Max(ops, Asked(Significant(edges, d, kept)))
    && ops.compatible(Min(ops, Asked(Significant(edges, d, kept))), Max(ops, Asked(Significant(edges, d, kept))))
    && exists e :: e in Inbound(edges, d) && !e.value.optional && e.value.license == kept[d].license
  }

  /**
   * An artifact-graph edge joins the kept versions of its end points along a
   * significant edge of its destination, and carries that edge's group.
   */
  ghost predicate SoundArtifactEdge(edges: seq<DepEdge>, root: Artifact, kept: map<Domain.ArtifactID, Artifact>, ae: ArtifactEdge) {
    && ae.destination.id != root.id
    && ae.origin.id in kept && ae.destination.id in kept
    && ae.origin.version == kept[ae.origin.id].version
    && ae.destination.version == kept[ae.destination.id].version
    && AllParentsChecked(edges, ae.destination.id, kept)
    && exists s :: s in Significant(edges, ae.destination.id, kept) && s.origin == ae.origin.id && s.value.group == ae.value
  }

  /** Every significant edge of the decided `d` has its artifact-graph edge between the kept versions. */
  ghost predicate EdgesOfDecided(edges: seq<DepEdge>, d: Domain.ArtifactID, kept: map<Domain.ArtifactID, Artifact>, aedges: seq<ArtifactEdge>) {
    d in kept && forall s :: s in Significant(edges, d, kept) ==>
      exists ae :: ae in aedges && ae.origin.id == s.origin && ae.origin.version == kept[s.origin].version
                   && ae.destination.id == d && ae.destination.version == kept[d].version && ae.value == s.value.group
  }

  /** Each artifact is kept under its own identity. */
  ghost predicate KeyedById(kept: map<Domain.ArtifactID, Artifact>) {
    forall o :: o in kept ==> kept[o].id == o
  }

  /** Every kept artifact other than the root is decided. */
  ghost predicate AllDecided(ops: VersionOps, edges: seq<DepEdge>, root: Artifact, kept: map<Domain.ArtifactID, Artifact>) {
    forall d {:trigger Decided(ops, edges, d, kept)} :: d in kept && d != root.id ==> Decided(ops, edges, d, kept)
  }

  /** Every artifact-graph edge is sound. */
  ghost predicate AllSound(edges: seq<DepEdge>, root: Artifact, kept: map<Domain.ArtifactID, Artifact>, aedges: seq<ArtifactEdge>) {
    forall ae :: ae in aedges ==> SoundArtifactEdge(edges, root, kept, ae)
  }

  /** Every kept artifact other than the root has the artifact-graph edges of its significant edges. */
  ghost predicate AllServed(edges: seq<DepEdge>, root: Artifact, kept: map<Domain.ArtifactID, Artifact>, aedges: seq<ArtifactEdge>) {
    forall d {:trigger EdgesOfDecided(edges, d, kept, aedges)} :: d in kept && d != root.id ==> AllParentsChecked(edges, d, kept) && EdgesOfDecided(edges, d, kept, aedges)
  }

  /** The state `reduce` keeps between visits: the map of kept artifacts and the artifact graph. */
  ghost predicate Consistent(ops: VersionOps, edges: seq<DepEdge>, root: Artifact, kept: map<Domain.ArtifactID, Artifact>, aedges: seq<ArtifactEdge>) {
    && root.id in kept && kept[root.id] == root
    && KeyedById(kept)
    && AllDecided(ops, edges, root, kept)
    && AllSound(edges, root, kept, aedges)
    && AllServed(edges, root, kept, aedges)
  }

  /** The failure `reduce` reports: a destination whose significant versions have an incompatible minimum and maximum. */
  ghost predicate IncompatibleAt(ops: VersionOps, edges: seq<DepEdge>, kept: map<Domain.ArtifactID, Artifact>, err: DependencyError) {
    && err.Compatibility?
    && AllParentsChecked(edges, err.destination, kept)
    && |Significant(edges, err.destination, kept)| > 0
    && err.min == Min(ops, Asked(Significant(edges, err.destination, kept)))
    && err.max == Max(ops, Asked(Significant(edges, err.destination, kept)))
    && !ops.compatible(err.min, err.max)
  }

  /** Every artifact already kept keeps its version in `kept2`. */
  ghost predicate VersionsKept(kept1: map<Domain.ArtifactID, Artifact>, kept2: map<Domain.ArtifactID, Artifact>) {
    forall o :: o in kept1 ==> o in kept2 && kept2[o].version == kept1[o].version
  }

  /** The significant edges depend on the kept map only through the versions of the origins. */
  lemma {:induction false} SignificantOfFrame(inbound: seq<DepEdge>, k1: map<Domain.ArtifactID, Artifact>, k2: map<Domain.ArtifactID, Artifact>)
    requires forall e :: e in inbound ==> e.origin in k1
    requires VersionsKept(k1, k2)
    ensures forall e :: e in inbound ==> e.origin in k2
    ensures SignificantOf(inbound, k1) == SignificantOf(inbound, k2)
  {
    if inbound != [] {
      assert forall e :: e in inbound[1..] ==> e in inbound;
      SignificantOfFrame(inbound[1..], k1, k2);
    }
  }

  lemma SignificantFrame(edges: seq<DepEdge>, d: Domain.ArtifactID, k1: map<Domain.ArtifactID, Artifact>, k2: map<Domain.ArtifactID, Artifact>)
    requires AllParentsChecked(edges, d, k1) && VersionsKept(k1, k2)
    ensures AllParentsChecked(edges, d, k2)
    ensures Significant(edges, d, k1) == Significant(edges, d, k2)
  {
    SignificantOfFrame(Inbound(edges, d), k1, k2);
  }

  /** Applying `WithEdge` for each edge of `added` in turn. */
  function WithEdges(aedges: seq<ArtifactEdge>, added: seq<ArtifactEdge>): (r: seq<ArtifactEdge>)
    ensures aedges <= r
    ensures forall x :: x in r <==> x in aedges || x in added
    decreases |added|
  {
    if added == [] then aedges
    else
      var r := WithEdges(WithEdge(aedges, added[0]), added[1..]);
      assert forall x :: x in added <==> x == added[0] || x in added[1..] by {
        assert added == [added[0]] + added[1..];
      }
      r
  }

  /** The artifact-graph edges that deciding `d` as `a` adds: one per significant edge, from its origin's kept artifact. */
  function DecisionEdges(sig: seq<DepEdge>, kept: map<Domain.ArtifactID, Artifact>, a: Artifact): (r: seq<ArtifactEdge>)
    requires forall s :: s in sig ==> s.origin in kept
    ensures |r| == |sig|
    ensures forall i :: 0 <= i < |sig| ==> r[i] == Edge(kept[sig[i].origin], a, sig[i].value.group)
  {
    seq(|sig|, i requires 0 <= i < |sig| => Edge(kept[sig[i].origin], a, sig[i].value.group))
  }

  /**
   * A decision of `visit` on edge `e` into `x` in a consistent state: `x` is not the root,
   * its parents are all kept, its significant edges are not empty with a compatible
   * minimum and maximum, and `a` keeps `x` at that maximum with the license of `e`.
   */
  ghost predicate DecisionStep(ops: VersionOps, edges: seq<DepEdge>, root: Artifact, kept: map<Domain.ArtifactID, Artifact>,
                               aedges: seq<ArtifactEdge>, x: Domain.ArtifactID, e: DepEdge, a: Artifact) {
    && Consistent(ops, edges, root, kept, aedges)
    && x != root.id && AllParentsChecked(edges, x, kept)
    && |Significant(edges, x, kept)| > 0
    && ops.compatible(Min(ops, Asked(Significant(edges, x, kept))), Max(ops, Asked(Significant(edges, x, kept))))
    && e in Inbound(edges, x) && !e.value.optional
    && a == Artifact(x, Max(ops, Asked(Significant(edges, x, kept))), e.value.license)
  }

  /** A decision changes no version already kept: a destination decided again gets the same version. */
  lemma DecisionKeepsVersions(ops: VersionOps, edges: seq<DepEdge>, root: Artifact, kept: map<Domain.ArtifactID, Artifact>,
                              aedges: seq<ArtifactEdge>, x: Domain.ArtifactID, e: DepEdge, a: Artifact)
    requires DecisionStep(ops, edges, root, kept, aedges, x, e, a)
    ensures VersionsKept(kept, kept[x := a])
  {
    if x in kept {
      assert Decided(ops, edges, x, kept);
    }
  }

  /** After a decision every kept artifact, `x` among them, is decided. */
  lemma AllDecidedAfter(ops: VersionOps, edges: seq<DepEdge>, root: Artifact, kept: map<Domain.ArtifactID, Artifact>,
                        aedges: seq<ArtifactEdge>, x: Domain.ArtifactID, e: DepEdge, a: Artifact)
    requires DecisionStep(ops, edges, root, kept, aedges, x, e, a)
    ensures AllDecided(ops, edges, root, kept[x := a])
  {
    var kept2 := kept[x := a];
    DecisionKeepsVersions(ops, edges, root, kept, aedges, x, e, a);
    SignificantFrame(edges, x, kept, kept2);
    forall d | d in kept2 && d != root.id
      ensures Decided(ops, edges, d, kept2)
    {
      if d != x {
        assert Decided(ops, edges, d, kept);
        SignificantFrame(edges, d, kept, kept2);
      }
    }
  }

  /** The edges a decision adds serve the decided artifact. */
  lemma {:induction false} ServedByDecision(edges: seq<DepEdge>, kept: map<Domain.ArtifactID, Artifact>, aedges: seq<ArtifactEdge>,
                                            x: Domain.ArtifactID, a: Artifact)
    requires AllParentsChecked(edges, x, kept) && x in kept && kept[x] == a && KeyedById(kept)
    ensures forall s :: s in Significant(edges, x, kept) ==> s.origin in kept
    ensures EdgesOfDecided(edges, x, kept, WithEdges(aedges, DecisionEdges(Significant(edges, x, kept), kept, a)))
  {
    var sig := Significant(edges, x, kept);
    var added := DecisionEdges(sig, kept, a);
    var aedges2 := WithEdges(aedges, added);
    forall s | s in sig
      ensures exists ae :: ae in aedges2 && ae.origin.id == s.origin && ae.origin.version == kept[s.origin].version
                           && ae.destination.id == x && ae.destination.version == kept[x].version && ae.value == s.value.group
    {
      var i :| 0 <= i < |sig| && sig[i] == s;
      assert added[i] in aedges2;
    }
  }

  /** An artifact keeps its artifact-graph edges when no version changes and no edge is removed. */
  lemma {:induction false} ServedStays(edges: seq<DepEdge>, kept: map<Domain.ArtifactID, Artifact>, kept2: map<Domain.ArtifactID, Artifact>,
                                       aedges: seq<ArtifactEdge>, aedges2: seq<ArtifactEdge>, d: Domain.ArtifactID)
    requires d in kept && AllParentsChecked(edges, d, kept) && EdgesOfDecided(edges, d, kept, aedges)
    requires VersionsKept(kept, kept2) && forall ae :: ae in aedges ==> ae in aedges2
    ensures AllParentsChecked(edges, d, kept2) && EdgesOfDecided(edges, d, kept2, aedges2)
  {
    SignificantFrame(edges, d, kept, kept2);
    forall s | s in Significant(edges, d, kept2)
      ensures exists ae :: ae in aedges2 && ae.origin.id == s.origin && ae.origin.version == kept2[s.origin].version
                           && ae.destination.id == d && ae.destination.version == kept2[d].version && ae.value == s.value.group
    {
      var ae :| ae in aedges && ae.origin.id == s.origin && ae.origin.version == kept[s.origin].version
                && ae.destination.id == d && ae.destination.version == kept[d].version && ae.value == s.value.group;
      assert ae in aedges2;
    }
  }

  /** After a decision every kept artifact has its artifact-graph edges. */
  lemma AllServedAfter(ops: VersionOps, edges: seq<DepEdge>, root: Artifact, kept: map<Domain.ArtifactID, Artifact>,
                       aedges: seq<ArtifactEdge>, x: Domain.ArtifactID, e: DepEdge, a: Artifact)
    requires DecisionStep(ops, edges, root, kept, aedges, x, e, a)
    ensures VersionsKept(kept, kept[x := a])
    ensures AllServed(edges, root, kept[x := a], WithEdges(aedges, DecisionEdges(Significant(edges, x, kept), kept[x := a], a)))
  {
    var kept2 := kept[x := a];
    DecisionKeepsVersions(ops, edges, root, kept, aedges, x, e, a);
    SignificantFrame(edges, x, kept, kept2);
    var added := DecisionEdges(Significant(edges, x, kept), kept2, a);
    var aedges2 := WithEdges(aedges, added);
    ServedByDecision(edges, kept2, aedges, x, a);
    forall d | d in kept2 && d != root.id && d != x
      ensures AllParentsChecked(edges, d, kept2) && EdgesOfDecided(edges, d, kept2, aedges2)
    {
      assert EdgesOfDecided(edges, d, kept, aedges);
      ServedStays(edges, kept, kept2, aedges, aedges2, d);
    }
  }

  /** After a decision every artifact-graph edge, old or added, is sound. */
  lemma AllSoundAfter(ops: VersionOps, edges: seq<DepEdge>, root: Artifact, kept: map<Domain.ArtifactID, Artifact>,
                      aedges: seq<ArtifactEdge>, x: Domain.ArtifactID, e: DepEdge, a: Artifact)
    requires DecisionStep(ops, edges, root, kept, aedges, x, e, a)
    ensures VersionsKept(kept, kept[x := a])
    ensures AllSound(edges, root, kept[x := a], WithEdges(aedges, DecisionEdges(Significant(edges, x, kept), kept[x := a], a)))
  {
    var kept2 := kept[x := a];
    DecisionKeepsVersions(ops, edges, root, kept, aedges, x, e, a);
    var sig := Significant(edges, x, kept);
    SignificantFrame(edges, x, kept, kept2);
    var added := DecisionEdges(sig, kept2, a);
    var aedges2 := WithEdges(aedges, added);
    forall ae | ae in aedges2 ensures SoundArtifactEdge(edges, root, kept2, ae) {
      if ae in aedges {
        assert SoundArtifactEdge(edges, root, kept, ae);
        SignificantFrame(edges, ae.destination.id, kept, kept2);
      } else {
        var i :| 0 <= i < |added| && added[i] == ae;
        assert sig[i] in Significant(edges, x, kept2);
      }
    }
  }

  /**
   * A decision keeps the state consistent: every version already kept stays as it was,
   * so every earlier decision and every artifact-graph edge stays valid, and the new
   * edges serve `x`.
   */
  lemma DecideKeepsConsistent(ops: VersionOps, edges: seq<DepEdge>, root: Artifact, kept: map<Domain.ArtifactID, Artifact>,
                              aedges: seq<ArtifactEdge>, x: Domain.ArtifactID, e: DepEdge, a: Artifact)
    requires DecisionStep(ops, edges, root, kept, aedges, x, e, a)
    ensures VersionsKept(kept, kept[x := a])
    ensures Consistent(ops, edges, root, kept[x := a], WithEdges(aedges, DecisionEdges(Significant(edges, x, kept), kept[x := a], a)))
  {
    AllDecidedAfter(ops, edges, root, kept, aedges, x, e, a);
    AllSoundAfter(ops, edges, root, kept, aedges, x, e, a);
    AllServedAfter(ops, edges, root, kept, aedges, x, e, a);
  }

  /**
   * The visitor of `reduce`, with the state its lambda captures: the map from identity
   * to kept artifact and the artifact graph under construction.
   */
  class ReduceVisitor {
    const graph: DependencyGraph
    const artifactGraph: ArtifactGraph
    const versions: VersionOps
    ghost const rank: Domain.ArtifactID -> nat
    var artifacts: map<Domain.ArtifactID, Artifact>
    /** The record of the walk: nodes whose traversal finished, edges visited, edges the visitor answered true for, and those of them whose destination's traversal finished. */
    ghost var walked: set<Domain.ArtifactID>
    ghost var visited: set<DepEdge>
    ghost var answered: set<DepEdge>
    ghost var descended: set<DepEdge>

    /** Every edge out of a finished node was visited, and every descended edge's destination is finished. */
    ghost predicate Walk()
      reads this`walked, this`visited, this`answered, this`descended, graph
    {
      && descended <= answered <= visited
      && (forall e :: e in descended ==> e.destination in walked)
      && (forall e :: e in graph.edges && e.origin in walked ==> e in visited)
    }

    ghost predicate Valid()
      reads this, graph, artifactGraph
    {
      && Ranked(graph.edges, rank)
      && artifactGraph.root == graph.root
      && Consistent(versions, graph.edges, graph.root, artifacts, artifactGraph.edges)
    }

    /** `new ArtifactGraph(graph.root)` and the map holding just the root. */
    constructor (graph: DependencyGraph, versions: VersionOps, ghost rank: Domain.ArtifactID -> nat)
      requires Ranked(graph.edges, rank)
      ensures Valid() && fresh(artifactGraph) && Walk()
      ensures walked == {} && visited == {} && answered == {} && descended == {}
      ensures this.graph == graph && this.versions == versions && this.rank == rank
      ensures artifacts == map[graph.root.id := graph.root] && artifactGraph.edges == []
    {
      this.graph := graph;
      this.versions := versions;
      this.rank := rank;
      artifactGraph := new Graph<Artifact, Artifact, string>(graph.root);
      artifacts := map[graph.root.id := graph.root];
      walked, visited, answered, descended := {}, {}, {}, {};
    }

    /**
     * The visitor on edge `e`: false for an optional edge; true, changing nothing, while
     * some parent of the destination is undecided; false for a destination with no
     * significant edge; a CompatibilityException for incompatible minimum and maximum;
     * otherwise the destination is kept at the maximum with the visited edge's license,
     * one artifact-graph edge is added per significant edge, and the result is true.
     */
    method Visit(e: DepEdge) returns (r: Result<bool, DependencyError>)
      requires Valid() && e in graph.edges && e.destination != graph.root.id
      modifies this`artifacts, artifactGraph
      ensures Valid()
      ensures e.value.optional ==>
        r == Success(false) && artifacts == old(artifacts) && artifactGraph.edges == old(artifactGraph.edges)
      ensures !e.value.optional && !AllParentsChecked(graph.edges, e.destination, old(artifacts)) ==>
        r == Success(true) && artifacts == old(artifacts) && artifactGraph.edges == old(artifactGraph.edges)
      ensures !e.value.optional && AllParentsChecked(graph.edges, e.destination, old(artifacts))
              && Significant(graph.edges, e.destination, old(artifacts)) == [] ==>
        r == Success(false) && artifacts == old(artifacts) && artifactGraph.edges == old(artifactGraph.edges)
      ensures !e.value.optional && AllParentsChecked(graph.edges, e.destination, old(artifacts))
              && Significant(graph.edges, e.destination, old(artifacts)) != []
              && !versions.compatible(Min(versions, Asked(Significant(graph.edges, e.destination, old(artifacts)))),
                                      Max(versions, Asked(Significant(graph.edges, e.destination, old(artifacts))))) ==>
        && r == Failure(Compatibility(e.destination, Min(versions, Asked(Significant(graph.edges, e.destination, old(artifacts)))),
                                      Max(versions, Asked(Significant(graph.edges, e.destination, old(artifacts))))))
        && artifacts == old(artifacts) && artifactGraph.edges == old(artifactGraph.edges)
      ensures !e.value.optional && AllParentsChecked(graph.edges, e.destination, old(artifacts))
              && Significant(graph.edges, e.destination, old(artifacts)) != []
              && versions.compatible(Min(versions, Asked(Significant(graph.edges, e.destination, old(artifacts)))),
                                     Max(versions, Asked(Significant(graph.edges, e.destination, old(artifacts))))) ==>
        && r == Success(true)
        && artifacts == old(artifacts)[e.destination := Artifact(e.destination, Max(versions, Asked(Significant(graph.edges, e.destination, old(artifacts)))), e.value.license)]
        && artifactGraph.edges == WithEdges(old(artifactGraph.edges), DecisionEdges(Significant(graph.edges, e.destination, old(artifacts)), artifacts, artifacts[e.destination]))
    {
      if e.value.optional {
        return Success(false);
      }
      var d := e.destination;
      var inbound := Inbound(graph.edges, d);
      var checked := |inbound| > 0 && forall i :: i in inbound ==> i.origin in artifacts;
      if !checked {
        return Success(true);
      }
      var sig := SignificantOf(inbound, artifacts);
      if sig == [] {
        return Success(false);
      }
      var min := Min(versions, Asked(sig));
      var max := Max(versions, Asked(sig));
      if !versions.compatible(min, max) {
        return Failure(Compatibility(d, min, max));
      }
      Decide(e, sig, max);
      r := Success(true);
    }

    /** The decision of `visit`: the destination is put at `max` and its artifact-graph edges are added. */
    method Decide(e: DepEdge, sig: seq<DepEdge>, max: Version)
      requires Valid() && e in graph.edges && e.destination != graph.root.id && !e.value.optional
      requires AllParentsChecked(graph.edges, e.destination, artifacts)
      requires sig == Significant(graph.edges, e.destination, artifacts) && |sig| > 0
      requires max == Max(versions, Asked(sig)) && versions.compatible(Min(versions, Asked(sig)), max)
      modifies this`artifacts, artifactGraph
      ensures Valid()
      ensures artifacts == old(artifacts)[e.destination := Artifact(e.destination, max, e.value.license)]
      ensures artifactGraph.edges == WithEdges(old(artifactGraph.edges), DecisionEdges(sig, artifacts, artifacts[e.destination]))
    {
      var destinationArtifact := Artifact(e.destination, max, e.value.license);
      DecideKeepsConsistent(versions, graph.edges, graph.root, artifacts, artifactGraph.edges, e.destination, e, destinationArtifact);
      artifacts := artifacts[e.destination := destinationArtifact];
      AddDecisionEdges(sig, destinationArtifact);
    }

    /** The loop of `visit` adding, for each significant edge, the edge from its origin's kept artifact to `a`. */
    method AddDecisionEdges(sig: seq<DepEdge>, a: Artifact)
      requires forall s :: s in sig ==> s.origin in artifacts
      modifies artifactGraph
      ensures artifactGraph.edges == WithEdges(old(artifactGraph.edges), DecisionEdges(sig, artifacts, a))
    {
      ghost var added := DecisionEdges(sig, artifacts, a);
      var i := 0;
      while i < |sig|
        invariant 0 <= i <= |sig|
        invariant artifactGraph.edges == WithEdges(old(artifactGraph.edges), added[..i])
      {
        artifactGraph.AddEdge(artifacts[sig[i].origin], a, sig[i].value.group);
        WithEdgesSnoc(old(artifactGraph.edges), added[..i], added[i]);
        assert added[..i + 1] == added[..i] + [added[i]];
        i := i + 1;
      }
      assert added[..i] == added;
    }

    /**
     * `traverse` from `node`: every outbound edge in the order it was added is visited,
     * and the walk goes on below its destination when the visitor says so. The first
     * exception ends the whole walk; a walk that passes finishes `node` and leaves no
     * edge the visitor answered true for without its destination finished.
     */
    method Traverse(node: Domain.ArtifactID) returns (r: Outcome<DependencyError>)
      requires Valid() && Walk()
      requires node == graph.root.id || rank(node) < rank(graph.root.id)
      modifies this, artifactGraph
      decreases rank(node), 1
      ensures Valid() && Walk()
      ensures old(walked) <= walked && old(visited) <= visited && old(answered) <= answered
      ensures r.Pass? ==> node in walked && answered - descended <= old(answered - descended)
      ensures r.Fail? ==> IncompatibleAt(versions, graph.edges, artifacts, r.error)
    {
      var outbound := Outbound(graph.edges, node);
      ghost var pending := answered - descended;
      var i := 0;
      while i < |outbound|
        invariant 0 <= i <= |outbound|
        invariant Valid() && Walk()
        invariant old(walked) <= walked && old(visited) <= visited && old(answered) <= answered
        invariant answered - descended <= pending
        invariant forall j :: 0 <= j < i ==> outbound[j] in visited
      {
        r := Step(node, outbound[i]);
        if r.Fail? {
          return;
        }
        i := i + 1;
      }
      walked := walked + {node};
      r := Pass;
    }

    /** One turn of the loop of `traverse`: visit `e`, then walk below its destination when the visitor answers true. */
    method Step(node: Domain.ArtifactID, e: DepEdge) returns (r: Outcome<DependencyError>)
      requires Valid() && Walk() && e in graph.edges && e.origin == node
      requires node == graph.root.id || rank(node) < rank(graph.root.id)
      modifies this, artifactGraph
      decreases rank(node), 0
      ensures Valid() && Walk()
      ensures old(walked) <= walked && old(visited) <= visited && old(answered) <= answered && e in visited
      ensures r.Pass? ==> answered - descended <= old(answered - descended)
      ensures r.Fail? ==> IncompatibleAt(versions, graph.edges, artifacts, r.error)
    {
      assert rank(e.destination) < rank(node);
      var descend := Visit(e);
      visited := visited + {e};
      if descend.Failure? {
        return Fail(descend.error);
      }
      if descend.value {
        ghost var before := answered - descended;
        answered := answered + {e};
        assert answered - descended <= before + {e};
        r := Traverse(e.destination);
        if r.Fail? {
          return;
        }
        ghost var after := answered - descended;
        descended := descended + {e};
        assert answered - descended == after - {e};
      }
      r := Pass;
    }
  }

  lemma WithEdgesSnoc(aedges: seq<ArtifactEdge>, added: seq<ArtifactEdge>, x: ArtifactEdge)
    ensures WithEdges(aedges, added + [x]) == WithEdge(WithEdges(aedges, added), x)
    decreases |added|
  {
    if added == [] {
      assert [] + [x] == [x];
    } else {
      assert (added + [x])[0] == added[0];
      assert (added + [x])[1..] == added[1..] + [x];
      WithEdgesSnoc(WithEdge(aedges, added[0]), added[1..], x);
    }
  }

  /**
   * `reduce(graph)`: the artifact graph rooted at the graph's root, with the kept map it
   * was built with, or the CompatibilityException of the first incompatible destination.
   */
  method Reduce(graph: DependencyGraph, versions: VersionOps, ghost rank: Domain.ArtifactID -> nat)
    returns (r: Result<ArtifactGraph, DependencyError>, ghost kept: map<Domain.ArtifactID, Artifact>, ghost aedges: seq<ArtifactEdge>)
    requires Ranked(graph.edges, rank)
    ensures Consistent(versions, graph.edges, graph.root, kept, aedges)
    ensures r.Success? ==> fresh(r.value) && r.value.root == graph.root && r.value.edges == aedges
    ensures r.Failure? ==> IncompatibleAt(versions, graph.edges, kept, r.error)
  {
    var visitor := new ReduceVisitor(graph, versions, rank);
    var outcome := visitor.Traverse(graph.root.id);
    kept, aedges := visitor.artifacts, visitor.artifactGraph.edges;
    if outcome.Fail? {
      return Failure(outcome.error), kept, aedges;
    }
    r := Success(visitor.artifactGraph);
  }

  /**
   * The kept version of a decided artifact is the one some significant edge asks for,
   * and, when versions are ordered, no significant edge asks for a higher one.
   */
  lemma KeptIsMaximum(ops: VersionOps, edges: seq<DepEdge>, root: Artifact, kept: map<Domain.ArtifactID, Artifact>,
                      aedges: seq<ArtifactEdge>, d: Domain.ArtifactID)
    requires Consistent(ops, edges, root, kept, aedges) && d in kept && d != root.id
    ensures AllParentsChecked(edges, d, kept)
    ensures exists s :: s in Significant(edges, d, kept) && s.value.dependencyVersion == kept[d].version
    ensures ops.Ordered() ==> forall s :: s in Significant(edges, d, kept) ==> ops.le(s.value.dependencyVersion, kept[d].version)
    ensures ops.compatible(Min(ops, Asked(Significant(edges, d, kept))), kept[d].version)
  {
    assert Decided(ops, edges, d, kept);
    var sig := Significant(edges, d, kept);
    var i :| 0 <= i < |sig| && Asked(sig)[i] == kept[d].version;
    assert sig[i] in sig;
    if ops.Ordered() {
      forall s | s in sig ensures ops.le(s.value.dependencyVersion, kept[d].version) {
        var j :| 0 <= j < |sig| && sig[j] == s;
        assert Asked(sig)[j] in Asked(sig);
      }
    }
  }

  /** An artifact other than the root that only optional edges reach is never kept. */
  lemma OnlyOptionalNotKept(ops: VersionOps, edges: seq<DepEdge>, root: Artifact, kept: map<Domain.ArtifactID, Artifact>,
                            aedges: seq<ArtifactEdge>, d: Domain.ArtifactID)
    requires Consistent(ops, edges, root, kept, aedges) && d != root.id
    ensures (forall e :: e in edges && e.destination == d ==> e.value.optional) ==> d !in kept
  {
    if d in kept {
      assert Decided(ops, edges, d, kept);
    }
  }

  /** An artifact whose parents are all kept but none of whose edges is significant is not kept. */
  lemma UnusedNotKept(ops: VersionOps, edges: seq<DepEdge>, root: Artifact, kept: map<Domain.ArtifactID, Artifact>,
                      aedges: seq<ArtifactEdge>, d: Domain.ArtifactID)
    requires Consistent(ops, edges, root, kept, aedges) && d != root.id
    ensures (forall e :: e in edges && e.destination == d && e.origin in kept ==> e.value.dependentVersion != kept[e.origin].version)
            ==> d !in kept
  {
    if d in kept {
      KeptIsMaximum(ops, edges, root, kept, aedges, d);
    }
  }
}
