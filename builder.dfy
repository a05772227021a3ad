/**
 * `buildGraph` and `populateGraph`: the project's declared dependencies, and theirs in
 * turn as their metadata declares them, expanded into the multi-version dependency
 * graph. Each occurrence of a dependency fetches its metadata and adds an edge; an
 * artifact (identity and version) is expanded at most once, tracked by the set of
 * artifacts already recursed.
 */
module Builder {
  import opened Wrappers
  import Domain
  import opened DependencyDeclarations
  import opened Graphs
  import opened Workflows

  /** `d` is declared in group `group` of `deps`. */
  ghost predicate GroupDeclares(deps: Dependencies, group: string, d: Domain.Dependency) {
    group in deps.groups && d in deps.groups[group].dependencies
  }

  /** The edge that an occurrence of `d`, declared in `group` by `origin`, adds, given the metadata of `d`. */
  function OccurrenceEdge(origin: Artifact, group: string, d: Domain.Dependency, md: ArtifactMetaData): (e: Edge<Domain.ArtifactID, DependencyEdgeValue>)
    ensures e.origin == origin.id && e.destination == d.id
    ensures e.value == DependencyEdgeValue(origin.version, d.version, group, d.optional, md.license)
  {
    Edge(origin.id, d.id, DependencyEdgeValue(origin.version, d.version, group, d.optional, md.license))
  }

  /** The artifact an edge leads to: its destination at the version the edge asks for. */
  function DestinationOf(e: Edge<Domain.ArtifactID, DependencyEdgeValue>): Domain.Artifact {
    Domain.Artifact(e.destination, e.value.dependencyVersion)
  }

  /** The service artifact for `a` with the license of its metadata. */
  function Licensed(a: Domain.Artifact, md: ArtifactMetaData): Artifact {
    Artifact(a.id, a.version, md.license)
  }

  /** The edge of the occurrence of `d` in `group` of `origin` is in `edges`. */
  ghost predicate EdgePresent(w: Workflow, edges: seq<Edge<Domain.ArtifactID, DependencyEdgeValue>>, origin: Artifact, group: string, d: Domain.Dependency) {
    FetchMetaData(w, d.Key()).Success? && OccurrenceEdge(origin, group, d, FetchMetaData(w, d.Key()).value) in edges
  }

  /** Every dependency `deps` declares has its occurrence edge from `origin`. */
  ghost predicate DeclarationsPresent(w: Workflow, edges: seq<Edge<Domain.ArtifactID, DependencyEdgeValue>>, origin: Artifact, deps: Dependencies) {
    forall g, d :: GroupDeclares(deps, g, d) ==> EdgePresent(w, edges, origin, g, d)
  }

  /** Every dependency `deps` declares has its occurrence edge from `origin` and has been recursed. */
  ghost predicate Expanded(w: Workflow, edges: seq<Edge<Domain.ArtifactID, DependencyEdgeValue>>, recursed: set<Domain.Artifact>,
                           origin: Artifact, deps: Dependencies) {
    DeclarationsPresent(w, edges, origin, deps) && forall g, d :: GroupDeclares(deps, g, d) ==> d.Key() in recursed
  }

  /** Every recursed artifact has metadata, and when that declares dependencies, they are expanded. */
  ghost predicate Closed(w: Workflow, edges: seq<Edge<Domain.ArtifactID, DependencyEdgeValue>>, recursed: set<Domain.Artifact>) {
    forall a :: a in recursed ==>
      && FetchMetaData(w, a).Success?
      && (FetchMetaData(w, a).value.dependencies.Some? ==>
            Expanded(w, edges, recursed, Licensed(a, FetchMetaData(w, a).value), FetchMetaData(w, a).value.dependencies.value))
  }

  /**
   * `origin` declares `d` in `group`: it is the project and its declarations say so, or
   * its metadata's dependencies say so.
   */
  ghost predicate OriginDeclares(w: Workflow, project: Artifact, projectDeps: Dependencies, origin: Domain.Artifact,
                                 group: string, d: Domain.Dependency) {
    || (origin == project.Key() && GroupDeclares(projectDeps, group, d))
    || (FetchMetaData(w, origin).Success? && FetchMetaData(w, origin).value.dependencies.Some?
        && GroupDeclares(FetchMetaData(w, origin).value.dependencies.value, group, d))
  }

  /**
   * Edge `e` stands for a declaration: its origin (project or metadata) declares the
   * dependency it leads to, and it carries the license of that dependency's metadata.
   */
  ghost predicate SoundEdge(w: Workflow, project: Artifact, projectDeps: Dependencies, e: Edge<Domain.ArtifactID, DependencyEdgeValue>) {
    && FetchMetaData(w, DestinationOf(e)).Success?
    && e.value.license == FetchMetaData(w, DestinationOf(e)).value.license
    && OriginDeclares(w, project, projectDeps, Domain.Artifact(e.origin, e.value.dependentVersion), e.value.group,
                      Domain.Dependency(e.destination, e.value.dependencyVersion, e.value.optional))
  }

  /**
   * The graph is complete: the project's declarations all have their edges, and so do
   * the metadata declarations of every artifact an edge leads to.
   */
  ghost predicate Complete(w: Workflow, project: Artifact, projectDeps: Dependencies, edges: seq<Edge<Domain.ArtifactID, DependencyEdgeValue>>) {
    && DeclarationsPresent(w, edges, project, projectDeps)
    && forall e :: e in edges ==>
         && FetchMetaData(w, DestinationOf(e)).Success?
         && (FetchMetaData(w, DestinationOf(e)).value.dependencies.Some? ==>
               DeclarationsPresent(w, edges, Licensed(DestinationOf(e), FetchMetaData(w, DestinationOf(e)).value),
                                   FetchMetaData(w, DestinationOf(e)).value.dependencies.value))
  }

  /** Every dependency `deps` declares ranks below `bound`. */
  ghost predicate DependenciesBelow(deps: Dependencies, rank: Domain.Artifact -> nat, bound: nat) {
    forall g, d :: GroupDeclares(deps, g, d) ==> rank(d.Key()) < bound
  }

  /** Every dependency `deps` declares is one of `universe`. */
  ghost predicate DependenciesWithin(deps: Dependencies, universe: set<Domain.Artifact>) {
    forall g, d :: GroupDeclares(deps, g, d) ==> d.Key() in universe
  }

  /**
   * The metadata's dependency relation is well founded on `universe`, a set of artifacts
   * closed under declared dependencies: the dependencies a member's metadata declares
   * are members and rank below it. Artifacts outside `universe` are unconstrained. (On
   * cyclic metadata the source recurses without end.)
   */
  ghost predicate MetaDataRanked(w: Workflow, rank: Domain.Artifact -> nat, universe: set<Domain.Artifact>) {
    forall a :: a in universe && FetchMetaData(w, a).Success? && FetchMetaData(w, a).value.dependencies.Some? ==>
      && DependenciesWithin(FetchMetaData(w, a).value.dependencies.value, universe)
      && DependenciesBelow(FetchMetaData(w, a).value.dependencies.value, rank, rank(a))
  }

  /** The artifact an edge leaves: its origin at the version the edge was recorded under. */
  function OriginOf(e: Edge<Domain.ArtifactID, DependencyEdgeValue>): Domain.Artifact {
    Domain.Artifact(e.origin, e.value.dependentVersion)
  }

  /** `a` is the project or the artifact some edge of `edges` leads to. */
  ghost predicate Reached(project: Artifact, edges: seq<Edge<Domain.ArtifactID, DependencyEdgeValue>>, a: Domain.Artifact) {
    a == project.Key() || exists e :: e in edges && DestinationOf(e) == a
  }

  /** Every edge leaves the project or an artifact another edge leads to. */
  ghost predicate Rooted(project: Artifact, edges: seq<Edge<Domain.ArtifactID, DependencyEdgeValue>>) {
    forall e :: e in edges ==> Reached(project, edges, OriginOf(e))
  }

  /** `path` is a chain of edges of `edges` that leaves the project and leads to `a` (the empty chain when `a` is the project). */
  ghost predicate PathTo(project: Artifact, edges: seq<Edge<Domain.ArtifactID, DependencyEdgeValue>>,
                         path: seq<Edge<Domain.ArtifactID, DependencyEdgeValue>>, a: Domain.Artifact) {
    && (forall i :: 0 <= i < |path| ==> path[i] in edges)
    && (|path| == 0 ==> a == project.Key())
    && (|path| > 0 ==> OriginOf(path[0]) == project.Key() && DestinationOf(path[|path| - 1]) == a)
    && (forall i :: 0 < i < |path| ==> DestinationOf(path[i - 1]) == OriginOf(path[i]))
  }

  /** The edges that leave an artifact other than the project ranked at least `r`. */
  ghost function EdgesFromAbove(project: Artifact, edges: seq<Edge<Domain.ArtifactID, DependencyEdgeValue>>,
                                rank: Domain.Artifact -> nat, r: nat): set<Edge<Domain.ArtifactID, DependencyEdgeValue>> {
    set x | x in edges && OriginOf(x) != project.Key() && rank(OriginOf(x)) >= r
  }

  /**
   * In a graph whose edges all stand for declarations, lead into `universe` and leave
   * reached artifacts, every edge leaves an artifact at the end of a path from the
   * project: ranked metadata rules out a cycle of artifacts that support each other.
   */
  lemma {:induction false} OriginOnPath(w: Workflow, project: Artifact, projectDeps: Dependencies,
                                        edges: seq<Edge<Domain.ArtifactID, DependencyEdgeValue>>,
                                        rank: Domain.Artifact -> nat, universe: set<Domain.Artifact>,
                                        e: Edge<Domain.ArtifactID, DependencyEdgeValue>)
    requires MetaDataRanked(w, rank, universe) && Rooted(project, edges)
    requires forall x :: x in edges ==> DestinationOf(x) in universe && SoundEdge(w, project, projectDeps, x)
    requires e in edges
    ensures exists path :: PathTo(project, edges, path, OriginOf(e))
    decreases EdgesFromAbove(project, edges, rank, rank(OriginOf(e)))
  {
    var o := OriginOf(e);
    if o == project.Key() {
      assert PathTo(project, edges, [], o);
    } else {
      var e1 :| e1 in edges && DestinationOf(e1) == o;
      var o1 := OriginOf(e1);
      if o1 == project.Key() {
        assert PathTo(project, edges, [e1], o);
      } else {
        var e2 :| e2 in edges && DestinationOf(e2) == o1;
        RankDrops(w, project, projectDeps, rank, universe, e1);
        AboveShrinks(project, edges, rank, e, rank(o1));
        OriginOnPath(w, project, projectDeps, edges, rank, universe, e1);
        var p :| PathTo(project, edges, p, o1);
        PathSnoc(project, edges, p, e1);
      }
    }
  }

  /** A declaration made by metadata in `universe` leads to an artifact ranked below the declarer. */
  lemma RankDrops(w: Workflow, project: Artifact, projectDeps: Dependencies, rank: Domain.Artifact -> nat,
                  universe: set<Domain.Artifact>, e: Edge<Domain.ArtifactID, DependencyEdgeValue>)
    requires MetaDataRanked(w, rank, universe) && SoundEdge(w, project, projectDeps, e)
    requires OriginOf(e) != project.Key() && OriginOf(e) in universe
    ensures rank(DestinationOf(e)) < rank(OriginOf(e))
  {
    var d := Domain.Dependency(e.destination, e.value.dependencyVersion, e.value.optional);
    assert MetaDeclares(w, OriginOf(e), e.value.group, d);
    assert d.Key() == DestinationOf(e);
  }

  lemma AboveShrinks(project: Artifact, edges: seq<Edge<Domain.ArtifactID, DependencyEdgeValue>>,
                     rank: Domain.Artifact -> nat, e: Edge<Domain.ArtifactID, DependencyEdgeValue>, r: nat)
    requires e in edges && OriginOf(e) != project.Key() && rank(OriginOf(e)) < r
    ensures EdgesFromAbove(project, edges, rank, r) < EdgesFromAbove(project, edges, rank, rank(OriginOf(e)))
  {
    assert e in EdgesFromAbove(project, edges, rank, rank(OriginOf(e)));
  }

  lemma PathSnoc(project: Artifact, edges: seq<Edge<Domain.ArtifactID, DependencyEdgeValue>>,
                 path: seq<Edge<Domain.ArtifactID, DependencyEdgeValue>>, e: Edge<Domain.ArtifactID, DependencyEdgeValue>)
    requires PathTo(project, edges, path, OriginOf(e)) && e in edges
    ensures PathTo(project, edges, path + [e], DestinationOf(e))
  {
    var q := path + [e];
    forall i | 0 < i < |q| ensures DestinationOf(q[i - 1]) == OriginOf(q[i]) {
      if i < |path| { assert q[i - 1] == path[i - 1] && q[i] == path[i]; }
    }
  }

  /** The metadata of `o` declares `d` in `group`. */
  ghost predicate MetaDeclares(w: Workflow, o: Domain.Artifact, group: string, d: Domain.Dependency) {
    && FetchMetaData(w, o).Success? && FetchMetaData(w, o).value.dependencies.Some?
    && GroupDeclares(FetchMetaData(w, o).value.dependencies.value, group, d)
  }

  /** `a` is declared by the project, or by the metadata of an artifact among `earlier`. */
  ghost predicate DeclaredBefore(w: Workflow, projectDeps: Dependencies, earlier: seq<Domain.Artifact>, a: Domain.Artifact) {
    || (exists g, d :: GroupDeclares(projectDeps, g, d) && d.Key() == a)
    || (exists o, g, d :: o in earlier && MetaDeclares(w, o, g, d) && d.Key() == a)
  }

  /** Every metadata fetch is of an artifact declared by the project or by an artifact fetched before it. */
  ghost predicate FetchesDeclared(w: Workflow, projectDeps: Dependencies, fetches: seq<Domain.Artifact>) {
    forall i {:trigger fetches[..i]} :: 0 <= i < |fetches| ==> DeclaredBefore(w, projectDeps, fetches[..i], fetches[i])
  }

  /**
   * The occurrence of `d` in `group` of `origin` is declared: by the project's own
   * declarations, or by the metadata of an artifact whose metadata was fetched.
   */
  ghost predicate DeclaredIn(w: Workflow, project: Artifact, projectDeps: Dependencies, fetches: seq<Domain.Artifact>,
                             origin: Artifact, group: string, d: Domain.Dependency) {
    || (origin == project && GroupDeclares(projectDeps, group, d))
    || (origin.Key() in fetches && MetaDeclares(w, origin.Key(), group, d))
  }

  lemma FetchesDeclaredSnoc(w: Workflow, projectDeps: Dependencies, fetches: seq<Domain.Artifact>, a: Domain.Artifact)
    requires FetchesDeclared(w, projectDeps, fetches) && DeclaredBefore(w, projectDeps, fetches, a)
    ensures FetchesDeclared(w, projectDeps, fetches + [a])
  {
    var s := fetches + [a];
    forall i | 0 <= i < |s| ensures DeclaredBefore(w, projectDeps, s[..i], s[i]) {
      if i < |fetches| {
        assert s[..i] == fetches[..i] && s[i] == fetches[i];
        assert DeclaredBefore(w, projectDeps, fetches[..i], fetches[i]);
      } else {
        assert s[..i] == fetches && s[i] == a;
      }
    }
  }

  /** A declared occurrence is declared before the fetch it makes, and its origin declares it. */
  lemma DeclaredInBefore(w: Workflow, project: Artifact, projectDeps: Dependencies, fetches: seq<Domain.Artifact>,
                         origin: Artifact, group: string, d: Domain.Dependency)
    requires DeclaredIn(w, project, projectDeps, fetches, origin, group, d)
    ensures DeclaredBefore(w, projectDeps, fetches, d.Key())
    ensures OriginDeclares(w, project, projectDeps, origin.Key(), group, d)
  {
    if origin == project && GroupDeclares(projectDeps, group, d) {
    } else {
      assert MetaDeclares(w, origin.Key(), group, d);
    }
  }

  lemma ReachedGrows(project: Artifact, e1: seq<Edge<Domain.ArtifactID, DependencyEdgeValue>>, e2: seq<Edge<Domain.ArtifactID, DependencyEdgeValue>>,
                     a: Domain.Artifact)
    requires e1 <= e2 && Reached(project, e1, a)
    ensures Reached(project, e2, a)
  {
    if a != project.Key() {
      var e :| e in e1 && DestinationOf(e) == a;
      var i :| 0 <= i < |e1| && e1[i] == e;
      assert e2[i] == e;
    }
  }

  lemma InPrefix<T>(x: T, s1: seq<T>, s2: seq<T>)
    requires x in s1 && s1 <= s2
    ensures x in s2
  {
    var i :| 0 <= i < |s1| && s1[i] == x;
    assert s2[i] == x;
  }

  lemma EdgePresentGrows(w: Workflow, e1: seq<Edge<Domain.ArtifactID, DependencyEdgeValue>>, e2: seq<Edge<Domain.ArtifactID, DependencyEdgeValue>>,
                         origin: Artifact, group: string, d: Domain.Dependency)
    requires e1 <= e2 && EdgePresent(w, e1, origin, group, d)
    ensures EdgePresent(w, e2, origin, group, d)
  {
    var e := OccurrenceEdge(origin, group, d, FetchMetaData(w, d.Key()).value);
    var i :| 0 <= i < |e1| && e1[i] == e;
    assert e2[i] == e;
  }

  lemma ExpandedGrows(w: Workflow, e1: seq<Edge<Domain.ArtifactID, DependencyEdgeValue>>, e2: seq<Edge<Domain.ArtifactID, DependencyEdgeValue>>,
                      r1: set<Domain.Artifact>, r2: set<Domain.Artifact>, origin: Artifact, deps: Dependencies)
    requires e1 <= e2 && r1 <= r2
    requires Expanded(w, e1, r1, origin, deps)
    ensures Expanded(w, e2, r2, origin, deps)
  {
    forall g, d | GroupDeclares(deps, g, d) ensures EdgePresent(w, e2, origin, g, d) {
      EdgePresentGrows(w, e1, e2, origin, g, d);
    }
  }

  lemma ClosedGrows(w: Workflow, e1: seq<Edge<Domain.ArtifactID, DependencyEdgeValue>>, e2: seq<Edge<Domain.ArtifactID, DependencyEdgeValue>>,
                    r1: set<Domain.Artifact>, r2: set<Domain.Artifact>)
    requires e1 <= e2 && r1 <= r2
    requires Closed(w, e1, r1)
    ensures forall a :: a in r1 ==>
      && FetchMetaData(w, a).Success?
      && (FetchMetaData(w, a).value.dependencies.Some? ==>
            Expanded(w, e2, r2, Licensed(a, FetchMetaData(w, a).value), FetchMetaData(w, a).value.dependencies.value))
  {
    forall a | a in r1 && FetchMetaData(w, a).Success? && FetchMetaData(w, a).value.dependencies.Some?
      ensures Expanded(w, e2, r2, Licensed(a, FetchMetaData(w, a).value), FetchMetaData(w, a).value.dependencies.value)
    {
      ExpandedGrows(w, e1, e2, r1, r2, Licensed(a, FetchMetaData(w, a).value), FetchMetaData(w, a).value.dependencies.value);
    }
  }

  /**
   * The state `populateGraph` threads through its recursion: the graph it fills and the
   * HashSet of recursed dependencies, kept here as their identities and versions, which
   * is what `Dependency.equals` compares.
   */
  class GraphBuilder {
    const graph: DependencyGraph
    const workflow: Workflow
    const project: Artifact
    const projectDeps: Dependencies
    var artifactsRecursed: set<Domain.Artifact>
    /** The metadata fetches made so far, in order. */
    ghost var fetches: seq<Domain.Artifact>
    /** The artifacts whose expansion has begun and not yet ended. */
    ghost var inProgress: set<Domain.Artifact>
    ghost const rank: Domain.Artifact -> nat
    /** A set of artifacts closed under declared dependencies, on which `rank` is well founded. */
    ghost const universe: set<Domain.Artifact>

    ghost predicate Valid()
      reads this`artifactsRecursed, this`inProgress, graph
    {
      && graph.root == project
      && MetaDataRanked(workflow, rank, universe)
      && (forall e :: e in graph.edges ==> SoundEdge(workflow, project, projectDeps, e))
      && Rooted(project, graph.edges)
      && (forall e :: e in graph.edges ==> DestinationOf(e) in universe)
      && Closed(workflow, graph.edges, artifactsRecursed)
      && (forall e :: e in graph.edges ==> DestinationOf(e) in artifactsRecursed || DestinationOf(e) in inProgress)
    }

    /** `new DependencyGraph(project)` and `new HashSet<>()`. */
    constructor (project: Artifact, projectDeps: Dependencies, workflow: Workflow, ghost rank: Domain.Artifact -> nat,
                 ghost universe: set<Domain.Artifact>)
      requires MetaDataRanked(workflow, rank, universe)
      ensures Valid() && fresh(graph)
      ensures this.project == project && this.projectDeps == projectDeps && this.workflow == workflow
      ensures this.rank == rank && this.universe == universe
      ensures graph.edges == [] && artifactsRecursed == {} && fetches == [] && inProgress == {}
    {
      graph := new Graph<Artifact, Domain.ArtifactID, DependencyEdgeValue>(project);
      this.workflow := workflow;
      this.project := project;
      this.projectDeps := projectDeps;
      this.rank := rank;
      this.universe := universe;
      artifactsRecursed := {};
      fetches := [];
      inProgress := {};
    }

    /**
     * One occurrence of `d` in group `group` of `origin`: fetch its metadata, add the
     * edge, and unless `d` was recursed already, expand its own dependencies (when its
     * metadata declares any) with `d` at its metadata's license as their origin, then
     * mark it recursed.
     */
    method AddOccurrence(origin: Artifact, group: string, d: Domain.Dependency) returns (r: Outcome<DependencyError>)
      requires Valid() && FetchesDeclared(workflow, projectDeps, fetches)
      requires DeclaredIn(workflow, project, projectDeps, fetches, origin, group, d)
      requires Reached(project, graph.edges, origin.Key()) && d.Key() in universe
      requires forall a :: a in inProgress ==> rank(a) > rank(d.Key())
      modifies this, graph
      decreases rank(d.Key()), 4
      ensures FetchesDeclared(workflow, projectDeps, fetches)
      ensures old(graph.edges) <= graph.edges && old(artifactsRecursed) <= artifactsRecursed
      ensures |fetches| > |old(fetches)| && fetches[..|old(fetches)| + 1] == old(fetches) + [d.Key()]
      ensures r.Fail? ==> FetchMetaData(workflow, fetches[|fetches| - 1]) == Failure(r.error)
      ensures r.Pass? ==> Valid() && inProgress == old(inProgress)
      ensures r.Pass? ==> d.Key() in artifactsRecursed && EdgePresent(workflow, graph.edges, origin, group, d)
      ensures FetchMetaData(workflow, d.Key()).Failure? ==>
        r == Fail(FetchMetaData(workflow, d.Key()).error) && graph.edges == old(graph.edges)
        && artifactsRecursed == old(artifactsRecursed) && fetches == old(fetches) + [d.Key()]
      ensures FetchMetaData(workflow, d.Key()).Success? && old(d.Key() in artifactsRecursed) ==>
        && r == Pass && artifactsRecursed == old(artifactsRecursed) && fetches == old(fetches) + [d.Key()]
        && graph.edges == WithEdge(old(graph.edges), OccurrenceEdge(origin, group, d, FetchMetaData(workflow, d.Key()).value))
      ensures FetchMetaData(workflow, d.Key()).Success? && old(d.Key() !in artifactsRecursed)
              && FetchMetaData(workflow, d.Key()).value.dependencies.None? ==>
        && r == Pass && artifactsRecursed == old(artifactsRecursed) + {d.Key()} && fetches == old(fetches) + [d.Key()]
        && graph.edges == WithEdge(old(graph.edges), OccurrenceEdge(origin, group, d, FetchMetaData(workflow, d.Key()).value))
    {
      var key := d.Key();
      DeclaredInBefore(workflow, project, projectDeps, fetches, origin, group, d);
      FetchesDeclaredSnoc(workflow, projectDeps, fetches, key);
      fetches := fetches + [key];
      var fetched := FetchMetaData(workflow, key);
      if fetched.Failure? {
        return Fail(fetched.error);
      }
      var amd := fetched.value;
      if key in artifactsRecursed {
        AddOccurrenceEdge(origin, group, d, amd);
        return Pass;
      }
      r := Expand(origin, group, d, amd);
    }

    /** The first occurrence of an artifact whose metadata was fetched: its edge and, when it declares dependencies, the walk below it. */
    method Expand(origin: Artifact, group: string, d: Domain.Dependency, amd: ArtifactMetaData) returns (r: Outcome<DependencyError>)
      requires Valid() && FetchesDeclared(workflow, projectDeps, fetches)
      requires OriginDeclares(workflow, project, projectDeps, origin.Key(), group, d)
      requires Reached(project, graph.edges, origin.Key()) && d.Key() in universe
      requires d.Key() in fetches && FetchMetaData(workflow, d.Key()) == Success(amd) && d.Key() !in artifactsRecursed
      requires forall a :: a in inProgress ==> rank(a) > rank(d.Key())
      modifies this, graph
      decreases rank(d.Key()), 3
      ensures FetchesDeclared(workflow, projectDeps, fetches)
      ensures old(graph.edges) <= graph.edges && old(artifactsRecursed) <= artifactsRecursed && old(fetches) <= fetches
      ensures r.Fail? ==> |fetches| > 0 && FetchMetaData(workflow, fetches[|fetches| - 1]) == Failure(r.error)
      ensures r.Pass? ==> Valid() && inProgress == old(inProgress)
      ensures r.Pass? ==> d.Key() in artifactsRecursed && EdgePresent(workflow, graph.edges, origin, group, d)
      ensures amd.dependencies.None? ==>
        && r == Pass && artifactsRecursed == old(artifactsRecursed) + {d.Key()} && fetches == old(fetches)
        && graph.edges == WithEdge(old(graph.edges), OccurrenceEdge(origin, group, d, amd))
    {
      var key := d.Key();
      inProgress := inProgress + {key};
      AddOccurrenceEdge(origin, group, d, amd);
      if amd.dependencies.Some? {
        var artifact := amd.ToLicensedArtifact(d);
        assert artifact == Licensed(key, amd);
        assert DestinationOf(OccurrenceEdge(origin, group, d, amd)) == key;
        ghost var edgesMid := graph.edges;
        r := PopulateGraph(artifact, amd.dependencies.value, rank(key));
        if r.Fail? {
          return;
        }
        EdgePresentGrows(workflow, edgesMid, graph.edges, origin, group, d);
      }
      MarkRecursed(key, amd);
      r := Pass;
    }

    /** `graph.addEdge(origin.id, dependency.id, edge value)` for an occurrence whose metadata is `amd`. */
    method AddOccurrenceEdge(origin: Artifact, group: string, d: Domain.Dependency, amd: ArtifactMetaData)
      requires Valid()
      requires OriginDeclares(workflow, project, projectDeps, origin.Key(), group, d)
      requires Reached(project, graph.edges, origin.Key())
      requires FetchMetaData(workflow, d.Key()) == Success(amd) && d.Key() in universe
      requires d.Key() in artifactsRecursed || d.Key() in inProgress
      modifies graph
      ensures Valid()
      ensures graph.edges == WithEdge(old(graph.edges), OccurrenceEdge(origin, group, d, amd))
    {
      ghost var edgesBefore := graph.edges;
      graph.AddEdge(origin.id, d.id, DependencyEdgeValue(origin.version, d.version, group, d.optional, amd.license));
      ClosedGrows(workflow, edgesBefore, graph.edges, artifactsRecursed, artifactsRecursed);
      assert forall e :: e in graph.edges ==> e in edgesBefore || e == OccurrenceEdge(origin, group, d, amd);
      forall e | e in graph.edges ensures Reached(project, graph.edges, OriginOf(e)) {
        ReachedGrows(project, edgesBefore, graph.edges, OriginOf(e));
      }
    }

    /** `artifactsRecursed.add(dependency)` once the expansion of `key` has ended. */
    method MarkRecursed(key: Domain.Artifact, amd: ArtifactMetaData)
      requires Valid() && key in inProgress && FetchMetaData(workflow, key) == Success(amd)
      requires amd.dependencies.Some? ==> Expanded(workflow, graph.edges, artifactsRecursed, Licensed(key, amd), amd.dependencies.value)
      modifies this`artifactsRecursed, this`inProgress
      ensures Valid()
      ensures artifactsRecursed == old(artifactsRecursed) + {key} && inProgress == old(inProgress) - {key}
    {
      ghost var recursedBefore := artifactsRecursed;
      artifactsRecursed := artifactsRecursed + {key};
      inProgress := inProgress - {key};
      ClosedGrows(workflow, graph.edges, graph.edges, recursedBefore, artifactsRecursed);
      if amd.dependencies.Some? {
        ExpandedGrows(workflow, graph.edges, graph.edges, recursedBefore, artifactsRecursed, Licensed(key, amd), amd.dependencies.value);
      }
    }

    /**
     * `populateGraph(graph, origin, dependencies, ...)`: every dependency of every group,
     * groups in the map's iteration order and dependencies in declaration order, as one
     * occurrence each. The first failure aborts the whole build.
     */
    method PopulateGraph(origin: Artifact, deps: Dependencies, ghost bound: nat) returns (r: Outcome<DependencyError>)
      requires Valid()
      requires FetchesDeclared(workflow, projectDeps, fetches)
      requires (origin == project && deps == projectDeps)
               || (origin.Key() in fetches && FetchMetaData(workflow, origin.Key()).Success?
                   && FetchMetaData(workflow, origin.Key()).value.dependencies == Some(deps))
      requires Reached(project, graph.edges, origin.Key())
      requires DependenciesBelow(deps, rank, bound) && DependenciesWithin(deps, universe)
      requires forall a :: a in inProgress ==> rank(a) >= bound
      modifies this, graph
      decreases bound, 2
      ensures FetchesDeclared(workflow, projectDeps, fetches)
      ensures old(graph.edges) <= graph.edges && old(artifactsRecursed) <= artifactsRecursed && old(fetches) <= fetches
      ensures r.Fail? ==> |fetches| > 0 && FetchMetaData(workflow, fetches[|fetches| - 1]) == Failure(r.error)
      ensures r.Pass? ==> Valid() && inProgress == old(inProgress)
      ensures r.Pass? ==> Expanded(workflow, graph.edges, artifactsRecursed, origin, deps)
    {
      var remaining := deps.groups.Keys;
      ghost var done: set<string> := {};
      while remaining != {}
        invariant remaining + done == deps.groups.Keys && remaining !! done
        invariant Valid() && inProgress == old(inProgress)
        invariant FetchesDeclared(workflow, projectDeps, fetches)
        invariant old(graph.edges) <= graph.edges && old(artifactsRecursed) <= artifactsRecursed && old(fetches) <= fetches
        invariant Reached(project, graph.edges, origin.Key())
        invariant (origin == project && deps == projectDeps) || origin.Key() in fetches
        invariant forall g, d :: g in done && GroupDeclares(deps, g, d) ==>
          d.Key() in artifactsRecursed && EdgePresent(workflow, graph.edges, origin, g, d)
        decreases remaining
      {
        var group :| group in remaining;
        ghost var edgesBefore := graph.edges;
        ghost var fetchesBefore := fetches;
        r := PopulateGroup(origin, deps, group, bound);
        if r.Fail? {
          return;
        }
        ReachedGrows(project, edgesBefore, graph.edges, origin.Key());
        if origin.Key() in fetchesBefore {
          InPrefix(origin.Key(), fetchesBefore, fetches);
        }
        forall g, d | (g in done && GroupDeclares(deps, g, d))
          ensures d.Key() in artifactsRecursed && EdgePresent(workflow, graph.edges, origin, g, d)
        {
          EdgePresentGrows(workflow, edgesBefore, graph.edges, origin, g, d);
        }
        remaining := remaining - {group};
        done := done + {group};
      }
      r := Pass;
    }

    /** The dependencies of one group of `deps`, in declaration order, as one occurrence each. */
    method PopulateGroup(origin: Artifact, deps: Dependencies, group: string, ghost bound: nat) returns (r: Outcome<DependencyError>)
      requires Valid() && group in deps.groups
      requires FetchesDeclared(workflow, projectDeps, fetches)
      requires (origin == project && deps == projectDeps)
               || (origin.Key() in fetches && FetchMetaData(workflow, origin.Key()).Success?
                   && FetchMetaData(workflow, origin.Key()).value.dependencies == Some(deps))
      requires Reached(project, graph.edges, origin.Key())
      requires DependenciesBelow(deps, rank, bound) && DependenciesWithin(deps, universe)
      requires forall a :: a in inProgress ==> rank(a) >= bound
      modifies this, graph
      decreases bound, 1
      ensures FetchesDeclared(workflow, projectDeps, fetches)
      ensures old(graph.edges) <= graph.edges && old(artifactsRecursed) <= artifactsRecursed && old(fetches) <= fetches
      ensures r.Fail? ==> |fetches| > 0 && FetchMetaData(workflow, fetches[|fetches| - 1]) == Failure(r.error)
      ensures r.Pass? ==> Valid() && inProgress == old(inProgress)
      ensures r.Pass? ==> forall d :: GroupDeclares(deps, group, d) ==>
        d.Key() in artifactsRecursed && EdgePresent(workflow, graph.edges, origin, group, d)
    {
      var list := deps.groups[group].dependencies;
      var i := 0;
      while i < |list|
        invariant 0 <= i <= |list|
        invariant Valid() && inProgress == old(inProgress)
        invariant FetchesDeclared(workflow, projectDeps, fetches)
        invariant old(graph.edges) <= graph.edges && old(artifactsRecursed) <= artifactsRecursed && old(fetches) <= fetches
        invariant Reached(project, graph.edges, origin.Key())
        invariant (origin == project && deps == projectDeps) || origin.Key() in fetches
        invariant forall d :: d in list[..i] ==> d.Key() in artifactsRecursed && EdgePresent(workflow, graph.edges, origin, group, d)
      {
        assert GroupDeclares(deps, group, list[i]);
        ghost var edgesBefore := graph.edges;
        r := AddDeclared(origin, deps, group, list[i], bound);
        if r.Fail? {
          return;
        }
        forall d | d in list[..i]
          ensures d.Key() in artifactsRecursed && EdgePresent(workflow, graph.edges, origin, group, d)
        {
          EdgePresentGrows(workflow, edgesBefore, graph.edges, origin, group, d);
        }
        assert list[..i + 1] == list[..i] + [list[i]];
        i := i + 1;
      }
      assert list[..i] == list;
      r := Pass;
    }

    /** The occurrence of `d`, declared in `group` of `deps`, the declarations of `origin`. */
    method AddDeclared(origin: Artifact, deps: Dependencies, group: string, d: Domain.Dependency, ghost bound: nat)
      returns (r: Outcome<DependencyError>)
      requires Valid() && GroupDeclares(deps, group, d)
      requires FetchesDeclared(workflow, projectDeps, fetches)
      requires (origin == project && deps == projectDeps)
               || (origin.Key() in fetches && FetchMetaData(workflow, origin.Key()).Success?
                   && FetchMetaData(workflow, origin.Key()).value.dependencies == Some(deps))
      requires Reached(project, graph.edges, origin.Key())
      requires DependenciesBelow(deps, rank, bound) && DependenciesWithin(deps, universe)
      requires forall a :: a in inProgress ==> rank(a) >= bound
      modifies this, graph
      decreases bound, 0
      ensures FetchesDeclared(workflow, projectDeps, fetches)
      ensures old(graph.edges) <= graph.edges && old(artifactsRecursed) <= artifactsRecursed && old(fetches) <= fetches
      ensures r.Fail? ==> |fetches| > 0 && FetchMetaData(workflow, fetches[|fetches| - 1]) == Failure(r.error)
      ensures r.Pass? ==> Valid() && inProgress == old(inProgress)
      ensures r.Pass? ==> Reached(project, graph.edges, origin.Key())
      ensures r.Pass? ==> (origin == project && deps == projectDeps) || origin.Key() in fetches
      ensures r.Pass? ==> d.Key() in artifactsRecursed && EdgePresent(workflow, graph.edges, origin, group, d)
    {
      ghost var edgesBefore := graph.edges;
      ghost var fetchesBefore := fetches;
      r := AddOccurrence(origin, group, d);
      if r.Fail? {
        return;
      }
      ReachedGrows(project, edgesBefore, graph.edges, origin.Key());
      if origin.Key() in fetchesBefore {
        InPrefix(origin.Key(), fetchesBefore, fetches);
      }
    }
  }

  /**
   * `buildGraph(project, dependencies, workflow)`: a graph rooted at the project,
   * populated from the project's declarations with an empty recursed set. On success
   * every edge stands for a declaration, leads into `universe` and lies on a path from
   * the project, and every declaration reachable from the project has its edge; on failure the error is that of a metadata fetch.
   */
  method BuildGraph(project: Artifact, dependencies: Dependencies, workflow: Workflow,
                    ghost rank: Domain.Artifact -> nat, ghost universe: set<Domain.Artifact>, ghost bound: nat)
    returns (r: Result<DependencyGraph, DependencyError>, ghost fetches: seq<Domain.Artifact>)
    requires MetaDataRanked(workflow, rank, universe)
    requires DependenciesWithin(dependencies, universe) && DependenciesBelow(dependencies, rank, bound)
    ensures FetchesDeclared(workflow, dependencies, fetches)
    ensures r.Success? ==> fresh(r.value) && r.value.root == project
    ensures r.Success? ==> forall e :: e in r.value.edges ==> SoundEdge(workflow, project, dependencies, e)
    ensures r.Success? ==> Rooted(project, r.value.edges)
    ensures r.Success? ==> forall e :: e in r.value.edges ==> DestinationOf(e) in universe
    ensures r.Success? ==> forall e :: e in r.value.edges ==> exists path :: PathTo(project, r.value.edges, path, OriginOf(e))
    ensures r.Success? ==> Complete(workflow, project, dependencies, r.value.edges)
    ensures r.Failure? ==> |fetches| > 0 && FetchMetaData(workflow, fetches[|fetches| - 1]) == Failure(r.error)
  {
    var builder := new GraphBuilder(project, dependencies, workflow, rank, universe);
    var outcome := builder.PopulateGraph(project, dependencies, bound);
    fetches := builder.fetches;
    if outcome.Fail? {
      return Failure(outcome.error), fetches;
    }
    var graph := builder.graph;
    forall e | e in graph.edges
      ensures FetchMetaData(workflow, DestinationOf(e)).Success?
      ensures FetchMetaData(workflow, DestinationOf(e)).value.dependencies.Some? ==>
                DeclarationsPresent(workflow, graph.edges, Licensed(DestinationOf(e), FetchMetaData(workflow, DestinationOf(e)).value),
                                    FetchMetaData(workflow, DestinationOf(e)).value.dependencies.value)
    {
      assert DestinationOf(e) in builder.artifactsRecursed;
    }
    forall e | e in graph.edges
      ensures exists path :: PathTo(project, graph.edges, path, OriginOf(e))
    {
      OriginOnPath(workflow, project, dependencies, graph.edges, rank, universe, e);
    }
    r := Success(graph);
  }
}
