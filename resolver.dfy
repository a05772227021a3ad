/**
 * `resolve`: the walk over the reduced artifact graph that fetches every artifact it
 * reaches, records the resolved artifacts in a new graph, optionally fetches sources,
 * notifies the listeners, and goes on below an artifact only when its group is
 * configured as transitive. The current visitor first drops groups that have no
 * configuration and rejects disallowed licenses; the older visitor fetches first and
 * looks the configuration up afterwards, so it needs every group configured.
 */
module Resolver {
  import opened Wrappers
  import Domain
  import opened Graphs
  import opened Workflows

  /** A `DependencyListener`; only its identity matters. */
  type Listener(==, !new)

  /** How the artifacts of one group are resolved. */
  datatype TypeResolveConfiguration = TypeResolveConfiguration(fetchSource: bool, transitive: bool, disallowedLicenses: set<License>)

  /** The configuration of each group by name. */
  datatype ResolveConfiguration = ResolveConfiguration(groupConfigurations: map<string, TypeResolveConfiguration>)

  /** One `artifactFetched` call. */
  datatype Notification = ArtifactFetched(listener: Listener, artifact: ResolvedArtifact)

  type ArtifactEdge = Edge<Artifact, string>
  type ResolvedEdge = Edge<ResolvedArtifact, string>

  /** `new ResolvedArtifact(root.id, root.version, root.license, null)`. */
  function RootOf(a: Artifact): (r: ResolvedArtifact)
    ensures r.Unresolved() == a && r.file == None
  {
    ResolvedArtifact(a.id, a.version, a.license, None)
  }

  /** The destination with the file it was fetched to. */
  function ResolvedOf(a: Artifact, file: Domain.Path): (r: ResolvedArtifact)
    ensures r.Unresolved() == a && r.file == Some(file)
  {
    ResolvedArtifact(a.id, a.version, a.license, Some(file))
  }

  /** `asList(listeners).forEach(listener -> listener.artifactFetched(ra))`. */
  function Notify(listeners: seq<Listener>, ra: ResolvedArtifact): (r: seq<Notification>)
  {
    seq(|listeners|, i requires 0 <= i < |listeners| => ArtifactFetched(listeners[i], ra))
  }

  /** The group of `ae` is configured and, when licenses are checked, admits the destination's license. */
  predicate Admitted(config: ResolveConfiguration, gate: bool, ae: ArtifactEdge) {
    && ae.value in config.groupConfigurations
    && (gate ==> ae.destination.license !in config.groupConfigurations[ae.value].disallowedLicenses)
  }

  /** The visitor on `ae` throws `err`: the license gate, the artifact fetch or the source fetch. */
  ghost predicate FailsAt(w: Workflow, config: ResolveConfiguration, gate: bool, ae: ArtifactEdge, err: DependencyError) {
    && ae.value in config.groupConfigurations
    && var c := config.groupConfigurations[ae.value];
       if gate && ae.destination.license in c.disallowedLicenses then err == LicenseViolation(ae.destination)
       else if FetchArtifact(w, ae.destination).Failure? then err == FetchArtifact(w, ae.destination).error
       else c.fetchSource && FetchSource(w, ResolvedOf(ae.destination, FetchArtifact(w, ae.destination).value)) == Failure(err)
  }

  /** The map from artifact to resolved artifact: the root to itself without a file, every other artifact to its fetched file. */
  ghost predicate MapSound(w: Workflow, root: Artifact, m: map<Artifact, ResolvedArtifact>) {
    && root in m && m[root] == RootOf(root)
    && forall a :: a in m && a != root ==> FetchArtifact(w, a).Success? && m[a] == ResolvedOf(a, FetchArtifact(w, a).value)
  }

  /** A resolved edge is the image of an admitted edge out of an artifact whose walk has begun. */
  ghost predicate SoundResolvedEdge(edges: seq<ArtifactEdge>, config: ResolveConfiguration, gate: bool,
                                    m: map<Artifact, ResolvedArtifact>, started: set<Artifact>, re: ResolvedEdge) {
    exists ae :: ae in edges && ae.origin in started && ae.origin in m && ae.destination in m && Admitted(config, gate, ae)
                 && re == Edge(m[ae.origin], m[ae.destination], ae.value)
  }

  /**
   * The edge `ae` out of a walked artifact has been handled: when its group is configured
   * the license passed the gate, the destination is resolved, its resolved edge is in
   * the graph and, for a transitive group, the walk below the destination has finished.
   */
  ghost predicate Served(config: ResolveConfiguration, gate: bool, m: map<Artifact, ResolvedArtifact>,
                         redges: seq<ResolvedEdge>, expanded: set<Artifact>, ae: ArtifactEdge) {
    ae.value in config.groupConfigurations ==>
      && Admitted(config, gate, ae)
      && ae.origin in m && ae.destination in m
      && Edge(m[ae.origin], m[ae.destination], ae.value) in redges
      && (config.groupConfigurations[ae.value].transitive ==> ae.destination in expanded)
  }

  /**
   * What a visit that returned `descend` leaves for `ae`: an unconfigured group is
   * not descended; a configured one passed the gate, has its destination resolved and
   * its resolved edge in the graph, and is descended exactly when it is transitive.
   */
  ghost predicate Handled(config: ResolveConfiguration, gate: bool, m: map<Artifact, ResolvedArtifact>,
                          redges: seq<ResolvedEdge>, ae: ArtifactEdge, descend: bool) {
    if ae.value in config.groupConfigurations then
      && Admitted(config, gate, ae)
      && ae.origin in m && ae.destination in m
      && Edge(m[ae.origin], m[ae.destination], ae.value) in redges
      && descend == config.groupConfigurations[ae.value].transitive
    else
      !descend
  }

  /** A handled edge is served once the walk below a descended destination has finished. */
  lemma HandledThenServed(config: ResolveConfiguration, gate: bool, m1: map<Artifact, ResolvedArtifact>, m2: map<Artifact, ResolvedArtifact>,
                          r1: seq<ResolvedEdge>, r2: seq<ResolvedEdge>, e1: set<Artifact>, e2: set<Artifact>, ae: ArtifactEdge, descend: bool)
    requires Handled(config, gate, m1, r1, ae, descend) && Grown(m1, m2, r1, r2, e1, e2)
    requires descend ==> ae.destination in e2
    ensures Served(config, gate, m2, r2, e2, ae)
  {
    if ae.value in config.groupConfigurations {
      assert Edge(m1[ae.origin], m1[ae.destination], ae.value) in r2;
    }
  }

  /** Every edge out of a finished artifact has been handled. */
  ghost predicate Closed(edges: seq<ArtifactEdge>, config: ResolveConfiguration, gate: bool, m: map<Artifact, ResolvedArtifact>,
                         redges: seq<ResolvedEdge>, expanded: set<Artifact>) {
    forall ae :: ae in edges && ae.origin in expanded ==> Served(config, gate, m, redges, expanded, ae)
  }

  /** The walk went below an artifact only for the root or along an admitted edge of a transitive group. */
  ghost predicate Justified(edges: seq<ArtifactEdge>, root: Artifact, config: ResolveConfiguration, gate: bool, started: set<Artifact>) {
    forall n :: n in started && n != root ==>
      exists ae :: ae in edges && ae.destination == n && ae.origin in started && Admitted(config, gate, ae)
                   && config.groupConfigurations[ae.value].transitive
  }

  /** The state' growth between two points of the walk: entries, edges and finished artifacts are only added. */
  ghost predicate Grown(m1: map<Artifact, ResolvedArtifact>, m2: map<Artifact, ResolvedArtifact>,
                        r1: seq<ResolvedEdge>, r2: seq<ResolvedEdge>, e1: set<Artifact>, e2: set<Artifact>) {
    && (forall a :: a in m1 ==> a in m2 && m2[a] == m1[a])
    && r1 <= r2 && e1 <= e2
  }

  lemma GrownTransitive(m1: map<Artifact, ResolvedArtifact>, m2: map<Artifact, ResolvedArtifact>, m3: map<Artifact, ResolvedArtifact>,
                        r1: seq<ResolvedEdge>, r2: seq<ResolvedEdge>, r3: seq<ResolvedEdge>, e1: set<Artifact>, e2: set<Artifact>, e3: set<Artifact>)
    requires Grown(m1, m2, r1, r2, e1, e2) && Grown(m2, m3, r2, r3, e2, e3)
    ensures Grown(m1, m3, r1, r3, e1, e3)
  {
  }

  lemma ServedGrows(config: ResolveConfiguration, gate: bool, m1: map<Artifact, ResolvedArtifact>, m2: map<Artifact, ResolvedArtifact>,
                    r1: seq<ResolvedEdge>, r2: seq<ResolvedEdge>, e1: set<Artifact>, e2: set<Artifact>, ae: ArtifactEdge)
    requires Served(config, gate, m1, r1, e1, ae) && Grown(m1, m2, r1, r2, e1, e2)
    ensures Served(config, gate, m2, r2, e2, ae)
  {
    if ae.value in config.groupConfigurations {
      assert Edge(m1[ae.origin], m1[ae.destination], ae.value) in r2;
    }
  }

  /** Every edge of `es` has been served. */
  ghost predicate AllServed(config: ResolveConfiguration, gate: bool, m: map<Artifact, ResolvedArtifact>,
                            redges: seq<ResolvedEdge>, expanded: set<Artifact>, es: seq<ArtifactEdge>) {
    forall ae :: ae in es ==> Served(config, gate, m, redges, expanded, ae)
  }

  /** Served edges stay served as the walk grows, and one more served edge extends the list. */
  lemma {:induction false} AllServedSnoc(config: ResolveConfiguration, gate: bool, m1: map<Artifact, ResolvedArtifact>, m2: map<Artifact, ResolvedArtifact>,
                                         r1: seq<ResolvedEdge>, r2: seq<ResolvedEdge>, e1: set<Artifact>, e2: set<Artifact>,
                                         es: seq<ArtifactEdge>, ae: ArtifactEdge)
    requires AllServed(config, gate, m1, r1, e1, es) && Grown(m1, m2, r1, r2, e1, e2)
    requires Served(config, gate, m2, r2, e2, ae)
    ensures AllServed(config, gate, m2, r2, e2, es + [ae])
  {
    forall x | x in es + [ae]
      ensures Served(config, gate, m2, r2, e2, x)
    {
      if x != ae {
        ServedGrows(config, gate, m1, m2, r1, r2, e1, e2, x);
      }
    }
  }

  /** Soundness of the resolved edges survives a larger set of started artifacts. */
  lemma SoundEdgesGrow(edges: seq<ArtifactEdge>, config: ResolveConfiguration, gate: bool, m: map<Artifact, ResolvedArtifact>,
                       s1: set<Artifact>, s2: set<Artifact>, redges: seq<ResolvedEdge>)
    requires s1 <= s2
    requires forall re :: re in redges ==> SoundResolvedEdge(edges, config, gate, m, s1, re)
    ensures forall re :: re in redges ==> SoundResolvedEdge(edges, config, gate, m, s2, re)
  {
  }

  /** An artifact reached from a started one along an admitted transitive edge may start too. */
  lemma JustifiedAdd(edges: seq<ArtifactEdge>, root: Artifact, config: ResolveConfiguration, gate: bool,
                     started: set<Artifact>, n: Artifact)
    requires Justified(edges, root, config, gate, started)
    requires n == root ||
      exists ae :: ae in edges && ae.destination == n && ae.origin in started
                   && Admitted(config, gate, ae) && config.groupConfigurations[ae.value].transitive
    ensures Justified(edges, root, config, gate, started + {n})
  {
  }

  /** A prefix one element longer is the shorter prefix followed by that element. */
  lemma PrefixSnoc<T>(s: seq<T>, i: nat)
    requires i < |s|
    ensures s[..i + 1] == s[..i] + [s[i]]
  {
  }

  lemma MapSoundGrows(w: Workflow, root: Artifact, m: map<Artifact, ResolvedArtifact>, a: Artifact, file: Domain.Path)
    requires MapSound(w, root, m) && a != root && FetchArtifact(w, a) == Success(file)
    ensures MapSound(w, root, m[a := ResolvedOf(a, file)])
    ensures forall x :: x in m ==> x in m[a := ResolvedOf(a, file)] && m[a := ResolvedOf(a, file)][x] == m[x]
  {
  }

  /**
   * The visitor of `resolve`, with the state its lambda captures: the map from artifact
   * to resolved artifact and the resolved graph; the fetches, source fetches and
   * notifications it makes are logged, and the artifacts whose walk has begun or ended
   * are tracked.
   */
  class ResolveVisitor {
    const graph: ArtifactGraph
    const workflow: Workflow
    const configuration: ResolveConfiguration
    const listeners: seq<Listener>
    /** The older visitor: no group filter and no license gate. */
    const legacy: bool
    const resolvedGraph: ResolvedArtifactGraph
    var map_: map<Artifact, ResolvedArtifact>
    ghost const rank: Artifact -> nat
    ghost var fetched: seq<Artifact>
    ghost var sourcesFetched: seq<ResolvedArtifact>
    ghost var notifications: seq<Notification>
    ghost var expanded: set<Artifact>
    ghost var inProgress: set<Artifact>

    ghost predicate Valid()
      reads this`map_, this`expanded, this`inProgress, graph, resolvedGraph
    {
      && Ranked(graph.edges, rank)
      && (legacy ==> forall ae :: ae in graph.edges ==> ae.value in configuration.groupConfigurations)
      && resolvedGraph.root == RootOf(graph.root)
      && MapSound(workflow, graph.root, map_)
      && (forall n :: n in expanded + inProgress ==> n in map_)
      && (forall re :: re in resolvedGraph.edges ==>
            SoundResolvedEdge(graph.edges, configuration, !legacy, map_, expanded + inProgress, re))
      && Closed(graph.edges, configuration, !legacy, map_, resolvedGraph.edges, expanded)
      && Justified(graph.edges, graph.root, configuration, !legacy, expanded + inProgress)
    }

    /** The root resolved without a file and a map holding just the root. */
    constructor (graph: ArtifactGraph, workflow: Workflow, configuration: ResolveConfiguration, listeners: seq<Listener>,
                 legacy: bool, ghost rank: Artifact -> nat)
      requires Ranked(graph.edges, rank)
      requires legacy ==> forall ae :: ae in graph.edges ==> ae.value in configuration.groupConfigurations
      ensures Valid() && fresh(resolvedGraph)
      ensures this.graph == graph && this.workflow == workflow && this.configuration == configuration
      ensures this.listeners == listeners && this.legacy == legacy && this.rank == rank
      ensures map_ == map[graph.root := RootOf(graph.root)] && resolvedGraph.edges == []
      ensures fetched == [] && sourcesFetched == [] && notifications == [] && expanded == {} && inProgress == {}
    {
      this.graph := graph;
      this.workflow := workflow;
      this.configuration := configuration;
      this.listeners := listeners;
      this.legacy := legacy;
      this.rank := rank;
      var root := RootOf(graph.root);
      resolvedGraph := new Graph<ResolvedArtifact, ResolvedArtifact, string>(root);
      map_ := map[graph.root := root];
      fetched := [];
      sourcesFetched := [];
      notifications := [];
      expanded := {};
      inProgress := {};
    }

    /**
     * The current visitor on `ae`: false, changing nothing, when the group has no
     * configuration; a LicenseException for a disallowed license; otherwise the
     * artifact is fetched and resolved, then its source when configured, the listeners
     * are notified, and the result is whether the group is transitive.
     */
    method Visit(ae: ArtifactEdge) returns (r: Result<bool, DependencyError>)
      requires Valid() && !legacy && ae in graph.edges && ae.origin in inProgress && ae.destination != graph.root
      modifies this, resolvedGraph
      ensures Valid()
      ensures expanded == old(expanded) && inProgress == old(inProgress)
      ensures Grown(old(map_), map_, old(resolvedGraph.edges), resolvedGraph.edges, old(expanded), expanded)
      ensures ae.value !in configuration.groupConfigurations ==>
        && r == Success(false) && map_ == old(map_) && resolvedGraph.edges == old(resolvedGraph.edges)
        && fetched == old(fetched) && sourcesFetched == old(sourcesFetched) && notifications == old(notifications)
      ensures ae.value in configuration.groupConfigurations
              && ae.destination.license in configuration.groupConfigurations[ae.value].disallowedLicenses ==>
        && r == Failure(LicenseViolation(ae.destination)) && map_ == old(map_) && resolvedGraph.edges == old(resolvedGraph.edges)
        && fetched == old(fetched) && sourcesFetched == old(sourcesFetched) && notifications == old(notifications)
      ensures Admitted(configuration, true, ae) ==> fetched == old(fetched) + [ae.destination]
      ensures Admitted(configuration, true, ae) ==> Fetched(ae, r)
      ensures r.Failure? ==> FailsAt(workflow, configuration, true, ae, r.error)
      ensures r.Success? ==> Handled(configuration, true, map_, resolvedGraph.edges, ae, r.value)
    {
      if ae.value !in configuration.groupConfigurations {
        return Success(false);
      }
      var c := configuration.groupConfigurations[ae.value];
      if ae.destination.license in c.disallowedLicenses {
        return Failure(LicenseViolation(ae.destination));
      }
      r := ResolveEdge(ae, c);
    }

    /**
     * The older visitor on `ae`: the artifact is fetched and resolved first, the group's
     * configuration is looked up afterwards, then the source is fetched when configured,
     * the listeners are notified, and the result is whether the group is transitive.
     */
    method VisitLegacy(ae: ArtifactEdge) returns (r: Result<bool, DependencyError>)
      requires Valid() && legacy && ae in graph.edges && ae.origin in inProgress && ae.destination != graph.root
      modifies this, resolvedGraph
      ensures Valid()
      ensures expanded == old(expanded) && inProgress == old(inProgress)
      ensures Grown(old(map_), map_, old(resolvedGraph.edges), resolvedGraph.edges, old(expanded), expanded)
      ensures fetched == old(fetched) + [ae.destination]
      ensures Fetched(ae, r)
      ensures r.Failure? ==> FailsAt(workflow, configuration, false, ae, r.error)
      ensures r.Success? ==> Handled(configuration, false, map_, resolvedGraph.edges, ae, r.value)
    {
      assert ae.value in configuration.groupConfigurations;
      r := ResolveEdge(ae, configuration.groupConfigurations[ae.value]);
    }

    /**
     * What both visitors do with an admitted edge, in the order of the code: the fetch
     * (whose failure ends the visit), the resolved edge from the origin's resolved
     * artifact, the map entry, the optional source fetch, the notifications.
     */
    twostate predicate Fetched(ae: ArtifactEdge, new r: Result<bool, DependencyError>)
      requires ae.value in configuration.groupConfigurations
      reads this, resolvedGraph
    {
      var c := configuration.groupConfigurations[ae.value];
      match FetchArtifact(workflow, ae.destination)
      case Failure(err) =>
        && r == Failure(err) && map_ == old(map_) && resolvedGraph.edges == old(resolvedGraph.edges)
        && sourcesFetched == old(sourcesFetched) && notifications == old(notifications)
      case Success(file) =>
        var ra := ResolvedOf(ae.destination, file);
        && ae.origin in old(map_)
        && map_ == old(map_)[ae.destination := ra]
        && resolvedGraph.edges == WithEdge(old(resolvedGraph.edges), Edge(old(map_)[ae.origin], ra, ae.value))
        && sourcesFetched == old(sourcesFetched) + (if c.fetchSource then [ra] else [])
        && if c.fetchSource && FetchSource(workflow, ra).Failure? then
             r == Failure(FetchSource(workflow, ra).error) && notifications == old(notifications)
           else
             r == Success(c.transitive) && notifications == old(notifications) + Notify(listeners, ra)
    }

    /** The fetch-and-record part shared by both visitors. */
    method ResolveEdge(ae: ArtifactEdge, c: TypeResolveConfiguration) returns (r: Result<bool, DependencyError>)
      requires Valid() && ae in graph.edges && ae.origin in inProgress && ae.destination != graph.root
      requires ae.value in configuration.groupConfigurations && c == configuration.groupConfigurations[ae.value]
      requires Admitted(configuration, !legacy, ae)
      modifies this, resolvedGraph
      ensures Valid()
      ensures expanded == old(expanded) && inProgress == old(inProgress)
      ensures Grown(old(map_), map_, old(resolvedGraph.edges), resolvedGraph.edges, old(expanded), expanded)
      ensures fetched == old(fetched) + [ae.destination]
      ensures Fetched(ae, r)
      ensures r.Failure? ==> FailsAt(workflow, configuration, !legacy, ae, r.error)
      ensures r.Success? ==> Handled(configuration, !legacy, map_, resolvedGraph.edges, ae, r.value)
    {
      fetched := fetched + [ae.destination];
      var fetch := FetchArtifact(workflow, ae.destination);
      if fetch.Failure? {
        return Failure(fetch.error);
      }
      var resolvedArtifact := ResolvedOf(ae.destination, fetch.value);
      Record(ae, fetch.value);
      r := SourceAndNotify(resolvedArtifact, c);
    }

    /**
     * After the artifact is recorded: its source is fetched when the group asks for it
     * (a failure ends the visit), then the listeners are notified, and the visitor
     * answers whether the group is transitive.
     */
    method SourceAndNotify(ra: ResolvedArtifact, c: TypeResolveConfiguration) returns (r: Result<bool, DependencyError>)
      modifies this`sourcesFetched, this`notifications
      ensures sourcesFetched == old(sourcesFetched) + (if c.fetchSource then [ra] else [])
      ensures if c.fetchSource && FetchSource(workflow, ra).Failure? then
                r == Failure(FetchSource(workflow, ra).error) && notifications == old(notifications)
              else
                r == Success(c.transitive) && notifications == old(notifications) + Notify(listeners, ra)
    {
      if c.fetchSource {
        sourcesFetched := sourcesFetched + [ra];
        var source := FetchSource(workflow, ra);
        if source.Failure? {
          return Failure(source.error);
        }
      }
      notifications := notifications + Notify(listeners, ra);
      r := Success(c.transitive);
    }

    /** `resolvedGraph.addEdge(map.get(origin), resolvedArtifact, group)` and `map.put(destination, resolvedArtifact)`. */
    method Record(ae: ArtifactEdge, file: Domain.Path)
      requires Valid() && ae in graph.edges && ae.origin in inProgress && ae.destination != graph.root
      requires Admitted(configuration, !legacy, ae) && FetchArtifact(workflow, ae.destination) == Success(file)
      modifies this`map_, resolvedGraph
      ensures Valid()
      ensures ae.origin in old(map_)
      ensures map_ == old(map_)[ae.destination := ResolvedOf(ae.destination, file)]
      ensures resolvedGraph.edges == WithEdge(old(resolvedGraph.edges), Edge(old(map_)[ae.origin], ResolvedOf(ae.destination, file), ae.value))
      ensures Grown(old(map_), map_, old(resolvedGraph.edges), resolvedGraph.edges, expanded, expanded)
    {
      var ra := ResolvedOf(ae.destination, file);
      ghost var m1 := map_;
      ghost var r1 := resolvedGraph.edges;
      MapSoundGrows(workflow, graph.root, map_, ae.destination, file);
      resolvedGraph.AddEdge(map_[ae.origin], ra, ae.value);
      map_ := map_[ae.destination := ra];
      forall re | re in resolvedGraph.edges
        ensures SoundResolvedEdge(graph.edges, configuration, !legacy, map_, expanded + inProgress, re)
      {
        if re in r1 {
          var x :| x in graph.edges && x.origin in expanded + inProgress && x.origin in m1 && x.destination in m1
                   && Admitted(configuration, !legacy, x) && re == Edge(m1[x.origin], m1[x.destination], x.value);
          assert re == Edge(map_[x.origin], map_[x.destination], x.value);
        } else {
          assert re == Edge(map_[ae.origin], map_[ae.destination], ae.value);
        }
      }
      forall x | x in graph.edges && x.origin in expanded
        ensures Served(configuration, !legacy, map_, resolvedGraph.edges, expanded, x)
      {
        ServedGrows(configuration, !legacy, m1, map_, r1, resolvedGraph.edges, expanded, expanded, x);
      }
    }

    /**
     * `traverse` from `node`: every outbound edge in the order it was added is visited and
     * the walk goes on below its destination when the visitor says so; the first
     * exception ends the whole walk.
     */
    method Traverse(node: Artifact) returns (r: Outcome<DependencyError>)
      requires Valid() && node in map_ && node !in inProgress
      requires forall p :: p in inProgress ==> rank(p) > rank(node)
      requires node == graph.root || rank(node) < rank(graph.root)
      requires node == graph.root ||
        exists ae :: ae in graph.edges && ae.destination == node && ae.origin in inProgress
                     && Admitted(configuration, !legacy, ae) && configuration.groupConfigurations[ae.value].transitive
      modifies this, resolvedGraph
      decreases rank(node), 2
      ensures r.Pass? ==> Valid() && inProgress == old(inProgress) && node in expanded
      ensures r.Pass? ==> Grown(old(map_), map_, old(resolvedGraph.edges), resolvedGraph.edges, old(expanded), expanded)
      ensures r.Fail? ==> Valid() && FailsFrom(expanded + inProgress, r.error)
    {
      Start(node);
      var outbound := Outbound(graph.edges, node);
      r := Children(node, outbound);
      if r.Pass? {
        Finish(node, outbound);
      }
    }

    /** The loop of `traverse` over the outbound edges of `node`, stopping at the first exception. */
    method Children(node: Artifact, outbound: seq<ArtifactEdge>) returns (r: Outcome<DependencyError>)
      requires Valid() && node in inProgress && outbound == Outbound(graph.edges, node)
      requires forall p :: p in inProgress - {node} ==> rank(p) > rank(node)
      requires node == graph.root || rank(node) < rank(graph.root)
      modifies this, resolvedGraph
      decreases rank(node), 1
      ensures r.Pass? ==> Valid() && inProgress == old(inProgress)
      ensures r.Pass? ==> Grown(old(map_), map_, old(resolvedGraph.edges), resolvedGraph.edges, old(expanded), expanded)
      ensures r.Pass? ==> AllServed(configuration, !legacy, map_, resolvedGraph.edges, expanded, outbound)
      ensures r.Fail? ==> Valid() && FailsFrom(expanded + inProgress, r.error)
    {
      var i := 0;
      while i < |outbound|
        invariant 0 <= i <= |outbound|
        invariant Valid() && inProgress == old(inProgress)
        invariant Grown(old(map_), map_, old(resolvedGraph.edges), resolvedGraph.edges, old(expanded), expanded)
        invariant AllServed(configuration, !legacy, map_, resolvedGraph.edges, expanded, outbound[..i])
      {
        ghost var m1, r1, e1 := map_, resolvedGraph.edges, expanded;
        r := Step(node, outbound[i]);
        if r.Fail? {
          return;
        }
        GrownTransitive(old(map_), m1, map_, old(resolvedGraph.edges), r1, resolvedGraph.edges, old(expanded), e1, expanded);
        AllServedSnoc(configuration, !legacy, m1, map_, r1, resolvedGraph.edges, e1, expanded, outbound[..i], outbound[i]);
        PrefixSnoc(outbound, i);
        i := i + 1;
      }
      assert outbound[..i] == outbound;
      r := Pass;
    }

    /** Some edge out of a started artifact is one at which the visitor throws `err`. */
    ghost predicate FailsFrom(started: set<Artifact>, err: DependencyError)
      reads graph
    {
      exists ae :: ae in graph.edges && ae.origin in started && FailsAt(workflow, configuration, !legacy, ae, err)
    }

    /** The visitor of this tree on `ae`. */
    method VisitEdge(ae: ArtifactEdge) returns (r: Result<bool, DependencyError>)
      requires Valid() && ae in graph.edges && ae.origin in inProgress && ae.destination != graph.root
      modifies this, resolvedGraph
      ensures Valid() && expanded == old(expanded) && inProgress == old(inProgress)
      ensures Grown(old(map_), map_, old(resolvedGraph.edges), resolvedGraph.edges, old(expanded), expanded)
      ensures r.Failure? ==> FailsAt(workflow, configuration, !legacy, ae, r.error)
      ensures r.Success? ==> Handled(configuration, !legacy, map_, resolvedGraph.edges, ae, r.value)
    {
      if legacy {
        r := VisitLegacy(ae);
      } else {
        r := Visit(ae);
      }
    }

    /** The visit of one outbound edge of `node`, and the walk below its destination when the visitor says so. */
    method Step(node: Artifact, ae: ArtifactEdge) returns (r: Outcome<DependencyError>)
      requires Valid() && node in inProgress && ae in graph.edges && ae.origin == node
      requires forall p :: p in inProgress - {node} ==> rank(p) > rank(node)
      requires node == graph.root || rank(node) < rank(graph.root)
      modifies this, resolvedGraph
      decreases rank(node), 0
      ensures r.Pass? ==> Valid() && inProgress == old(inProgress)
      ensures r.Pass? ==> Grown(old(map_), map_, old(resolvedGraph.edges), resolvedGraph.edges, old(expanded), expanded)
      ensures r.Pass? ==> Served(configuration, !legacy, map_, resolvedGraph.edges, expanded, ae)
      ensures r.Fail? ==> Valid() && FailsFrom(expanded + inProgress, r.error)
    {
      assert rank(ae.destination) < rank(node);
      var descend := VisitEdge(ae);
      if descend.Failure? {
        assert ae.origin in expanded + inProgress && FailsAt(workflow, configuration, !legacy, ae, descend.error);
        return Fail(descend.error);
      }
      ghost var m2, r2, e2 := map_, resolvedGraph.edges, expanded;
      r := Pass;
      if descend.value {
        r := Traverse(ae.destination);
        if r.Fail? {
          return;
        }
      }
      HandledThenServed(configuration, !legacy, m2, map_, r2, resolvedGraph.edges, e2, expanded, ae, descend.value);
    }

    /** The walk below `node` begins: it joins the artifacts in progress. */
    method Start(node: Artifact)
      requires Valid() && node in map_ && node !in inProgress
      requires node == graph.root ||
        exists ae :: ae in graph.edges && ae.destination == node && ae.origin in inProgress
                     && Admitted(configuration, !legacy, ae) && configuration.groupConfigurations[ae.value].transitive
      modifies this`inProgress
      ensures Valid() && inProgress == old(inProgress) + {node}
    {
      ghost var started := expanded + inProgress;
      JustifiedAdd(graph.edges, graph.root, configuration, !legacy, started, node);
      SoundEdgesGrow(graph.edges, configuration, !legacy, map_, started, started + {node}, resolvedGraph.edges);
      inProgress := inProgress + {node};
      assert expanded + inProgress == started + {node};
    }

    /** The walk below `node` has ended: it moves from the artifacts in progress to the finished ones. */
    method Finish(node: Artifact, outbound: seq<ArtifactEdge>)
      requires Valid() && node in inProgress && outbound == Outbound(graph.edges, node)
      requires AllServed(configuration, !legacy, map_, resolvedGraph.edges, expanded, outbound)
      modifies this`inProgress, this`expanded
      ensures Valid() && inProgress == old(inProgress) - {node} && expanded == old(expanded) + {node}
    {
      ghost var e1 := expanded;
      ghost var started := expanded + inProgress;
      inProgress := inProgress - {node};
      expanded := expanded + {node};
      assert expanded + inProgress == started;
      forall ae | ae in graph.edges && ae.origin in expanded
        ensures Served(configuration, !legacy, map_, resolvedGraph.edges, expanded, ae)
      {
        ServedGrows(configuration, !legacy, map_, map_, resolvedGraph.edges, resolvedGraph.edges, e1, expanded, ae);
      }
    }
  }
  /**
   * `resolve`: the resolved graph of `graph`, rooted at the root without a file. With
   * `legacy` the older visitor runs, which needs a configuration for every group.
   * On success the walk has finished below the root and every artifact it went below,
   * every admitted edge out of those is in the resolved graph, and nothing else is.
   */
  method Resolve(graph: ArtifactGraph, workflow: Workflow, configuration: ResolveConfiguration, listeners: seq<Listener>,
                 legacy: bool, ghost rank: Artifact -> nat)
    returns (r: Result<ResolvedArtifactGraph, DependencyError>, ghost m: map<Artifact, ResolvedArtifact>,
             ghost expanded: set<Artifact>, ghost started: set<Artifact>)
    requires Ranked(graph.edges, rank)
    requires legacy ==> forall ae :: ae in graph.edges ==> ae.value in configuration.groupConfigurations
    ensures expanded <= started
    ensures Justified(graph.edges, graph.root, configuration, !legacy, started)
    ensures r.Success? ==> started == expanded
    ensures r.Success? ==> fresh(r.value) && r.value.root == RootOf(graph.root) && graph.root in expanded
    ensures r.Success? ==> MapSound(workflow, graph.root, m) && expanded <= m.Keys
    ensures r.Success? ==> forall re :: re in r.value.edges ==> SoundResolvedEdge(graph.edges, configuration, !legacy, m, expanded, re)
    ensures r.Success? ==> Closed(graph.edges, configuration, !legacy, m, r.value.edges, expanded)
    ensures r.Success? ==> Justified(graph.edges, graph.root, configuration, !legacy, expanded)
    ensures r.Failure? ==> exists ae :: ae in graph.edges && ae.origin in started && FailsAt(workflow, configuration, !legacy, ae, r.error)
  {
    var visitor := new ResolveVisitor(graph, workflow, configuration, listeners, legacy, rank);
    var outcome := visitor.Traverse(graph.root);
    m, expanded, started := visitor.map_, visitor.expanded, visitor.expanded + visitor.inProgress;
    if outcome.Fail? {
      assert visitor.FailsFrom(started, outcome.error);
      return Failure(outcome.error), m, expanded, started;
    }
    assert visitor.expanded + visitor.inProgress == expanded;
    r := Success(visitor.resolvedGraph);
  }

  /**
   * With no transitive group the walk goes below the root alone, and every resolved
   * edge leaves the root.
   */
  lemma {:induction false} NonTransitiveResolvesRootOnly(edges: seq<ArtifactEdge>, root: Artifact, config: ResolveConfiguration, gate: bool,
                                                         m: map<Artifact, ResolvedArtifact>, redges: seq<ResolvedEdge>,
                                                         w: Workflow, expanded: set<Artifact>)
    requires forall g :: g in config.groupConfigurations ==> !config.groupConfigurations[g].transitive
    requires root in expanded && Justified(edges, root, config, gate, expanded) && MapSound(w, root, m)
    requires forall re :: re in redges ==> SoundResolvedEdge(edges, config, gate, m, expanded, re)
    ensures expanded == {root}
    ensures forall re :: re in redges ==> re.origin == RootOf(root)
  {
    forall n | n in expanded
      ensures n == root
    {
      if n != root {
        assert false;
      }
    }
    forall re | re in redges
      ensures re.origin == RootOf(root)
    {
      var ae :| ae in edges && ae.origin in expanded && ae.origin in m && ae.destination in m && Admitted(config, gate, ae)
                && re == Edge(m[ae.origin], m[ae.destination], ae.value);
      assert ae.origin == root;
    }
  }

  /**
   * The current visitor never resolves a disallowed license: every resolved edge is in
   * a configured group and its destination's license is not one the group disallows.
   */
  lemma {:induction false} ResolvedLicensesAllowed(edges: seq<ArtifactEdge>, root: Artifact, config: ResolveConfiguration,
                                                   m: map<Artifact, ResolvedArtifact>, redges: seq<ResolvedEdge>,
                                                   w: Workflow, started: set<Artifact>)
    requires MapSound(w, root, m)
    requires forall re :: re in redges ==> SoundResolvedEdge(edges, config, true, m, started, re)
    ensures forall re :: re in redges ==>
      re.value in config.groupConfigurations && re.destination.license !in config.groupConfigurations[re.value].disallowedLicenses
  {
    forall re | re in redges
      ensures re.value in config.groupConfigurations && re.destination.license !in config.groupConfigurations[re.value].disallowedLicenses
    {
      var ae :| ae in edges && ae.origin in started && ae.origin in m && ae.destination in m && Admitted(config, true, ae)
                && re == Edge(m[ae.origin], m[ae.destination], ae.value);
      assert m[ae.destination].license == ae.destination.license;
    }
  }
}

