# Savant dependency management, modelled in Dafny

This project models the core of Savant's dependency management. The core is the dependency pipeline of `DefaultDependencyService`, the artifact domain values, and the checksum-file reader `IOTools.parseMD5`. The repository holds two copies of the service: an older one under `src/java/main` and a newer one under `src/main/java`.

- **`buildGraph` / `populateGraph`** (`builder.dfy`, class `Builder.GraphBuilder`).
  - Every declared dependency is expanded into the multi-version `DependencyGraph`, and then so are the dependencies its metadata declares.
  - Every occurrence fetches the metadata and asks the graph to add its edge, and it does so before the "already recursed" check.
  - All three graphs keep one copy of identical edges: adding an edge equal to one already present adds nothing. Parallel edges that differ in any field, such as the version they were recorded under, are all kept.
  - The recursed set compares dependencies the way `Dependency.equals` does: by identity and version.
  - Every fetch is of a dependency that the project or an artifact fetched earlier declares.
  - `BuildGraph` succeeds with a graph whose every edge stands for a declaration, leads to an artifact of the ranked universe and leaves an artifact at the end of a path of edges from the project, and which holds every reachable declaration. Otherwise it fails with the error of the last metadata fetch.
- **`reduce`** (`reducer.dfy`, class `Reducer.ReduceVisitor`). This is the visitor over a depth-first walk.
  - A destination is decided once every origin of its inbound edges has been kept.
  - The significant edges are those recorded under their origin's kept version.
  - The kept version is the maximum that the significant edges ask for, and it carries the license of the edge being visited.
  - If the minimum and maximum are incompatible, the result is `CompatibilityException`.
  - Optional edges and unused destinations stop the walk.
  - The state it keeps is stated once as `Consistent` and proved kept by every decision, on success and on failure.
  - A ghost record of the walk says which nodes finished, which edges were visited and which the visitor answered true for.
- **`resolve`** (`resolver.dfy`, class `Resolver.ResolveVisitor`). This walk fetches every artifact it reaches, builds the resolved graph, fetches sources when configured, notifies the listeners, and descends only along transitive groups.
  - The newer visitor first drops groups that have no configuration and rejects disallowed licenses.
  - The older visitor (`legacy`) fetches first and looks the configuration up afterwards.
- **Domain values** (`domain.dfy`, `dependencies.dfy`):
  - the `Artifact(String)` spec parser over Java's `split`, which drops trailing empty parts;
  - `toString` and the file names;
  - class-sensitive `equals`/`hashCode` shared by `Dependency` and `ResolvedArtifact`;
  - `Dependencies.getAllArtifacts`, `equals` and `hashCode`.
- **`parseMD5`** (`checksums.dfy`): the validation of the file's text.

The code both trees share is modelled once:
- `buildGraph`, `populateGraph` and `reduce` are the same code in both trees, so `Builder` and `Reducer` model both.
- `resolve` differs between them, and the visitor's `legacy` flag picks the older one.

Things the core calls but does not define come in as parameters:
- `Version` is an opaque type with its operations in a `VersionOps` record: the order, `isCompatibleWith`, `toString` and the parser.
- The workflow is a record of functions: the fetch of one item of an artifact, and the metadata parser.
- `Graph.traverse` is written out as a depth-first walk over outbound edges in the order they were added. The visitor runs on an edge each time a followed path reaches it, and the walk descends only when the visitor returns true.
- Acyclicity is a precondition. It is stated with a ghost rank that decreases along every edge.

## Model

| member | source | states |
|---|---|---|
| Versions.Max | src/main/java/org/savantbuild/dep/DefaultDependencyService.java:136-139 | the maximum is one of the versions and, when `compareTo` is a total preorder, no version is above it |
| Versions.MaxFrom | src/main/java/org/savantbuild/dep/DefaultDependencyService.java:136-139 | the `maxBy` fold returns the accumulator or an element, and bounds both from above |
| Versions.Min | src/main/java/org/savantbuild/dep/DefaultDependencyService.java:132-135 | the minimum is one of the versions and, when ordered, no version is below it |
| Versions.MinFrom | src/main/java/org/savantbuild/dep/DefaultDependencyService.java:132-135 | the `minBy` fold returns the accumulator or an element, and bounds both from below |
| Versions.MinBelowMax | src/main/java/org/savantbuild/dep/DefaultDependencyService.java:132-139 | the minimum of the significant versions never exceeds their maximum |
| Domain.NewResolvedArtifact | src/java/main/org/savantbuild/dep/domain/ResolvedArtifact.java:29-32 | the constructor stores the id and version given and leaves `file` unset |
| Domain.EqualsIsEquivalence | src/java/main/org/savantbuild/dep/domain/Artifact.java:77-88 | `equals` is reflexive, symmetric and transitive |
| Domain.ToInt32 | src/java/main/org/savantbuild/dep/domain/Artifact.java:147-150 | the result is the one Java `int` congruent to the integer modulo 2^32 |
| Domain.KeyHash | src/java/main/org/savantbuild/dep/domain/Artifact.java:147-150 | the hash is `31 * id hash + version hash`, wrapped into a Java `int` |
| Domain.HashCode | src/java/main/org/savantbuild/dep/domain/Artifact.java:146-151 | an Artifact, a Dependency and a ResolvedArtifact all hash as that wrap of their id and version |
| Domain.HashCodeAgreesWithEquals | src/java/main/org/savantbuild/dep/domain/Artifact.java:146-151 | equal objects have equal 32-bit `31 * id + version` hash codes |
| Domain.DependencyEqualsIgnoresOptional | src/java/main/org/savantbuild/dep/domain/Artifact.java:86-87 | two dependencies are equal exactly when id and version agree, whatever their `optional` flags |
| Domain.ResolvedEqualsIgnoresFile | src/java/main/org/savantbuild/dep/domain/Artifact.java:86-87 | two resolved artifacts are equal exactly when id and version agree, whatever their files |
| Domain.DifferentClassesNeverEqual | src/java/main/org/savantbuild/dep/domain/Artifact.java:82 | an Artifact, a Dependency and a ResolvedArtifact are never equal to one another, in either order |
| Domain.FirstColon | src/java/main/org/savantbuild/dep/domain/Artifact.java:55 | the position found holds ':' and nothing before it does |
| Domain.SplitAll | src/java/main/org/savantbuild/dep/domain/Artifact.java:55 | the fields are free of ':' and joined with ':' give back the input |
| Domain.DropTrailingEmpty | src/java/main/org/savantbuild/dep/domain/Artifact.java:55 | a prefix of the fields whose last field is not empty, and only empty fields are removed |
| Domain.Split | src/java/main/org/savantbuild/dep/domain/Artifact.java:55 | every part of `split(":")` is free of ':' |
| Domain.SplitOfJoin | src/java/main/org/savantbuild/dep/domain/Artifact.java:55 | joining two or more ':'-free fields whose last is not empty and splitting again gives the fields back |
| Domain.Parse | src/java/main/org/savantbuild/dep/domain/Artifact.java:54-70 | the spec is rejected as invalid exactly when it splits into fewer than 3 or more than 5 parts; a version error names text the Version parser rejects; on success the version is the one parsed from part 3 (part 4 for five parts) |
| Domain.ParseThreeParts | src/java/main/org/savantbuild/dep/domain/Artifact.java:60-62 | `group:project:version` gives name = project and type "jar", or the version's error |
| Domain.ParseFourParts | src/java/main/org/savantbuild/dep/domain/Artifact.java:63-65 | `group:project:version:type` gives name = project and the given type |
| Domain.ParseFiveParts | src/java/main/org/savantbuild/dep/domain/Artifact.java:66-68 | `group:project:name:version:type` gives exactly those five fields, or the version's error |
| Domain.ParseToString | src/java/main/org/savantbuild/dep/domain/Artifact.java:161-163 | the five-part form reads `toString` back to an equal artifact when no field holds ':', the type is not empty and the version re-reads its printed form |
| Domain.ToString | src/java/main/org/savantbuild/dep/domain/Artifact.java:161-163 | the string is group, project, name, printed version and type, joined with ':' |
| Domain.ParseRejectsTwoParts | src/java/main/org/savantbuild/dep/domain/Artifact.java:56-58 | example: the two-part spec "a:b" is rejected as an invalid specification |
| Domain.ParseRejectsSixParts | src/java/main/org/savantbuild/dep/domain/Artifact.java:56-58 | example: the six-part spec "a:b:c:d:e:f" is rejected as an invalid specification |
| Domain.FileNameParts | src/java/main/org/savantbuild/dep/domain/Artifact.java:100-167 | the prefix is name, '-' and printed version; the artifact file is the prefix, '.' and the type; the source file is the prefix, "-src." and the type |
| Domain.ArtifactMetaDataFile | src/java/main/org/savantbuild/dep/domain/Artifact.java:114-116 | the metadata file is the artifact file with ".amd" appended |
| Domain.ArtifactNegativeMetaDataFile | src/java/main/org/savantbuild/dep/domain/Artifact.java:128-130 | the negative metadata marker is the artifact file with ".amd.neg" appended |
| Domain.MetaDataFileNames | src/java/main/org/savantbuild/dep/domain/Artifact.java:114-130 | the metadata file is the artifact file plus ".amd", and the negative marker adds ".neg" to that |
| Domain.FileNamesDistinct | src/java/main/org/savantbuild/dep/domain/Artifact.java:100-144 | the artifact, metadata, negative-metadata and source files of one artifact have four different names |
| Domain.FileNamesOfThreePartSpec | src/java/main/org/savantbuild/dep/domain/Artifact.java:165-167 | a three-part spec names its files `project-version.jar`, `.jar.amd` and `-src.jar` |
| DependencyDeclarations.GetAllArtifacts | src/java/main/org/savantbuild/dep/domain/Dependencies.java:63-67 | every declared dependency has an equal element; every element is declared; no two elements are equal; with no groups the set is empty |
| DependencyDeclarations.EntryHash | src/java/main/org/savantbuild/dep/domain/Dependencies.java:71 | an entry's hash is the XOR of the key's and the group's 32-bit hashes; the XOR is in the body, and the contract states only that the result lies in the 32-bit range |
| DependencyDeclarations.EntrySumConcat | src/java/main/org/savantbuild/dep/domain/Dependencies.java:71 | the entry-hash sum over two concatenated orders is the sum of the two |
| DependencyDeclarations.EntrySumRemove | src/java/main/org/savantbuild/dep/domain/Dependencies.java:71 | taking one key out of an order takes its entry hash out of the sum |
| DependencyDeclarations.EntrySumPermutation | src/java/main/org/savantbuild/dep/domain/Dependencies.java:71 | the map's hash does not depend on the iteration order |
| DependencyDeclarations.HashCode | src/java/main/org/savantbuild/dep/domain/Dependencies.java:70-74 | the hash is 31 times the sum of the entry hashes plus the name's hash (0 with no name), wrapped into a Java `int` |
| DependencyDeclarations.HashCodeAgreesWithEquals | src/java/main/org/savantbuild/dep/domain/Dependencies.java:70-74 | equal `Dependencies` have equal hash codes, whatever order each map iterates in |
| DependencyDeclarations.EqualsIsEquivalence | src/java/main/org/savantbuild/dep/domain/Dependencies.java:53-54 | `equals` is an equivalence, and two absent names count as equal |
| Checksums.SpaceRunEnd | src/java/main/org/savantbuild/dep/io/IOTools.java:69-71 | the scan ends at the first non-space at or after the start, or at the end of the content, and only spaces lie between |
| Checksums.Parsed | src/java/main/org/savantbuild/dep/io/IOTools.java:55-86 | the intended result: failure is always an invalid checksum of the content; the bytes are the decoded sum; a sum is the first 32 characters; a success with no name comes from empty or exactly 32-character content; a name is non-empty, does not start with a space, and follows the sum and a run of spaces up to the end |
| Checksums.ParseMD5 | src/java/main/org/savantbuild/dep/io/IOTools.java:53-86 | the parser, with its scan bounded by the length, returns exactly `Parsed` |
| Checksums.ParsedByLength | src/java/main/org/savantbuild/dep/io/IOTools.java:55-83 | empty content gives no sum and no name; lengths 1-31 and 33 are rejected; 32 characters give the whole sum; a first space not at index 32 is rejected |
| Checksums.ParseOfWritten | src/java/main/org/savantbuild/dep/io/IOTools.java:64-77 | a space-free 32-character sum, one or more spaces and a name not starting with a space read back as that sum and name; the bare sum reads back with no name |
| Checksums.ParseMD5AsWritten | src/java/main/org/savantbuild/dep/io/IOTools.java:69-75 | as written, a sum followed only by spaces makes `charAt(length)` throw; all other content gives `Parsed` |
| Checksums.SumThenSpacesIsRejected | src/java/main/org/savantbuild/dep/io/IOTools.java:69-75 | all content made of a sum followed only by spaces is rejected by the intended parser as an invalid checksum of that content |
| Checksums.SumThenTwoSpaces | src/java/main/org/savantbuild/dep/io/IOTools.java:69-71 | a 32-character sum followed by two spaces is content of that kind |
| Checksums.SpaceRunFrom | src/java/main/org/savantbuild/dep/io/IOTools.java:69-71 | a run of spaces that stops at a non-space ends there |
| Graphs.WithEdge | src/java/main/org/savantbuild/dep/DefaultDependencyService.java:124-128 | adding an edge keeps the old edges and adds exactly that one; an equal edge already present adds nothing |
| Graphs.Outbound | src/main/java/org/savantbuild/dep/DefaultDependencyService.java:114 | the edges that `traverse` follows out of a node are exactly the graph's edges with that origin |
| Graphs.Inbound | src/main/java/org/savantbuild/dep/DefaultDependencyService.java:120 | `getInboundEdges` holds exactly the graph's edges into the node |
| Graphs.Graph.constructor | src/main/java/org/savantbuild/dep/DefaultDependencyService.java:110 | a graph with the given root and no edges |
| Graphs.Graph.AddEdge | src/java/main/org/savantbuild/dep/DefaultDependencyService.java:127 | the edges become `WithEdge` of the old edges |
| Workflows.ArtifactMetaData.ToLicensedArtifact | src/main/java/org/savantbuild/dep/DefaultDependencyService.java:242 | the dependency's identity and version with the metadata's license |
| Workflows.FetchMetaData | src/java/main/org/savantbuild/dep/workflow/Workflow.java:74-82 | a missing metadata file gives ArtifactMetaDataMissing for that artifact; other failures are process failures |
| Workflows.FetchArtifact | src/java/main/org/savantbuild/dep/workflow/Workflow.java:53-59 | success exactly when the fetch finds a file; otherwise ArtifactMissing or a process failure, never nothing |
| Workflows.FetchSource | src/java/main/org/savantbuild/dep/workflow/Workflow.java:94-101 | a missing source is None, not a failure; only process failures fail |
| Builder.EdgePresentGrows | src/main/java/org/savantbuild/dep/DefaultDependencyService.java:233 | an edge once added stays as the graph grows |
| Builder.ExpandedGrows | src/main/java/org/savantbuild/dep/DefaultDependencyService.java:236-247 | an expanded declaration list stays expanded as the graph and the recursed set grow |
| Builder.ClosedGrows | src/main/java/org/savantbuild/dep/DefaultDependencyService.java:236-247 | every recursed artifact stays expanded as the graph and the recursed set grow |
| Builder.FetchesDeclaredSnoc | src/main/java/org/savantbuild/dep/DefaultDependencyService.java:228-229 | a fetch of a dependency declared by the project or by an artifact already fetched keeps every fetch declared |
| Builder.DeclaredInBefore | src/main/java/org/savantbuild/dep/DefaultDependencyService.java:227-229 | a dependency of the project, or of an artifact whose metadata was fetched, is declared before its fetch |
| Builder.ReachedGrows | src/main/java/org/savantbuild/dep/DefaultDependencyService.java:233 | an artifact that the walk has reached stays reached as the graph grows |
| Builder.GraphBuilder.constructor | src/main/java/org/savantbuild/dep/DefaultDependencyService.java:76-77 | a graph rooted at the project, no edges, an empty recursed set |
| Builder.GraphBuilder.AddOccurrence | src/main/java/org/savantbuild/dep/DefaultDependencyService.java:229-247 | the occurrence fetches the metadata of a declared dependency (a failure aborts with that error and changes nothing else) and adds its edge out of a reached origin; a dependency already recursed is not expanded again; one whose metadata has no dependencies is only marked recursed; otherwise it is expanded from its licensed artifact and then marked recursed |
| Builder.GraphBuilder.Expand | src/main/java/org/savantbuild/dep/DefaultDependencyService.java:240-247 | the first occurrence of a dependency: its edge is added, its metadata's dependencies are populated from its licensed artifact, and then it is marked recursed |
| Builder.GraphBuilder.AddOccurrenceEdge | src/main/java/org/savantbuild/dep/DefaultDependencyService.java:232-233 | the edge of the occurrence is added and the builder's invariant holds |
| Builder.GraphBuilder.MarkRecursed | src/main/java/org/savantbuild/dep/DefaultDependencyService.java:247 | the dependency joins the recursed set once its expansion has ended, keeping the invariant |
| Builder.GraphBuilder.PopulateGraph | src/main/java/org/savantbuild/dep/DefaultDependencyService.java:224-250 | every group's every dependency gets its edge and is recursed; the graph and the recursed set only grow; a failure is the last fetch's error |
| Builder.GraphBuilder.PopulateGroup | src/main/java/org/savantbuild/dep/DefaultDependencyService.java:228-248 | every dependency of the group, in declaration order, gets its edge and is recursed |
| Builder.GraphBuilder.AddDeclared | src/main/java/org/savantbuild/dep/DefaultDependencyService.java:228-247 | one declared dependency of a reached origin is fetched, gets its edge and is recursed; every fetch so far is declared |
| Builder.BuildGraph | src/java/main/org/savantbuild/dep/DefaultDependencyService.java:62-68 | rooted at the project; every edge stands for a declaration of its origin, carries its destination's license and leaves the project or the destination of another edge; every destination lies in the ranked universe and every origin is at the end of a path of edges from the project; every reachable declaration has its edge; every fetch is of a dependency the project or an earlier-fetched artifact declares; a failure is the last metadata fetch's error |
| Builder.OriginOnPath | src/main/java/org/savantbuild/dep/DefaultDependencyService.java:227-249 | in a graph of declared edges into the ranked universe whose origins are all reached, every edge leaves an artifact at the end of a path of edges from the project: no cycle of unreached artifacts supports itself |
| Builder.RankDrops | src/main/java/org/savantbuild/dep/DefaultDependencyService.java:238-245 | an edge declared by metadata in the universe leads to an artifact ranked below its origin |
| Builder.PathSnoc | src/main/java/org/savantbuild/dep/DefaultDependencyService.java:233 | a path to an edge's origin extended by that edge is a path to its destination |
| Reducer.SignificantOf | src/main/java/org/savantbuild/dep/DefaultDependencyService.java:124-127 | an inbound edge is significant exactly when it was recorded under its origin's kept version |
| Reducer.SignificantOfFrame | src/main/java/org/savantbuild/dep/DefaultDependencyService.java:124-127 | the significant edges do not change when a kept map agrees on the versions of their origins |
| Reducer.SignificantFrame | src/main/java/org/savantbuild/dep/DefaultDependencyService.java:124-127 | deciding another artifact leaves a destination's significant edges unchanged |
| Reducer.WithEdges | src/java/main/org/savantbuild/dep/DefaultDependencyService.java:124-128 | adding several edges keeps the old ones and holds exactly old plus the added |
| Reducer.DecisionKeepsVersions | src/java/main/org/savantbuild/dep/DefaultDependencyService.java:121-122 | a decision keeps every earlier kept version |
| Reducer.AllDecidedAfter | src/main/java/org/savantbuild/dep/DefaultDependencyService.java:152-153 | after a decision every kept artifact is still decided |
| Reducer.ServedByDecision | src/main/java/org/savantbuild/dep/DefaultDependencyService.java:155-159 | the decided artifact has the artifact-graph edges of all its significant edges |
| Reducer.ServedStays | src/main/java/org/savantbuild/dep/DefaultDependencyService.java:155-159 | earlier decided artifacts keep their artifact-graph edges |
| Reducer.AllServedAfter | src/main/java/org/savantbuild/dep/DefaultDependencyService.java:155-159 | after a decision every decided artifact has its artifact-graph edges |
| Reducer.AllSoundAfter | src/main/java/org/savantbuild/dep/DefaultDependencyService.java:155-159 | after a decision every artifact-graph edge joins kept versions along a significant edge |
| Reducer.DecideKeepsConsistent | src/main/java/org/savantbuild/dep/DefaultDependencyService.java:152-159 | a decision keeps every kept version and the whole reduce state consistent |
| Reducer.ReduceVisitor.constructor | src/java/main/org/savantbuild/dep/DefaultDependencyService.java:81-83 | the kept map holds just root.id → root and the artifact graph is rooted at the input's root, with no edges |
| Reducer.ReduceVisitor.Visit | src/main/java/org/savantbuild/dep/DefaultDependencyService.java:114-163 | an optional edge gives false and no change; an undecided parent gives true and no change; no significant edge gives false; incompatible min and max give CompatibilityException(destination, min, max); otherwise the destination is kept at the maximum with the visited edge's license, one edge per significant edge is added, and the result is true |
| Reducer.ReduceVisitor.Decide | src/java/main/org/savantbuild/dep/DefaultDependencyService.java:121-128 | the kept artifact (destination, max, visited edge's license) overwrites any earlier entry, and its edges are added |
| Reducer.ReduceVisitor.AddDecisionEdges | src/java/main/org/savantbuild/dep/DefaultDependencyService.java:124-128 | the loop adds exactly the decision edges, edge by edge |
| Reducer.ReduceVisitor.Traverse | src/main/java/org/savantbuild/dep/DefaultDependencyService.java:114 | the walk keeps the invariant and only adds to its record: every edge out of a finished node was visited; when it passes, the node is finished and every edge the visitor answered true for during the walk has a finished destination; a failure is an incompatible destination |
| Reducer.ReduceVisitor.Step | src/main/java/org/savantbuild/dep/DefaultDependencyService.java:114 | the edge is visited and recorded and, when the visitor answers true, the walk below its destination finishes |
| Reducer.WithEdgesSnoc | src/java/main/org/savantbuild/dep/DefaultDependencyService.java:124-128 | adding edges one more at a time is one more `addEdge` |
| Reducer.Reduce | src/main/java/org/savantbuild/dep/DefaultDependencyService.java:103-166 | the kept map and the artifact edges are consistent with the input, whether the walk passes or fails; the result is rooted at the input's root and holds exactly those edges; a failure names an incompatible destination |
| Reducer.KeptIsMaximum | src/main/java/org/savantbuild/dep/DefaultDependencyService.java:120-153 | a kept artifact's parents are all kept; its version is asked for by a significant edge and, when ordered, no significant edge asks for more; the minimum is compatible with it |
| Reducer.OnlyOptionalNotKept | src/main/java/org/savantbuild/dep/DefaultDependencyService.java:116-118 | an artifact reached only through optional edges is not kept |
| Reducer.UnusedNotKept | src/main/java/org/savantbuild/dep/DefaultDependencyService.java:141-144 | an artifact with no edge recorded under its origins' kept versions is not kept |
| Resolver.HandledThenServed | src/main/java/org/savantbuild/dep/DefaultDependencyService.java:205-206 | a handled edge is served once the walk below a transitive destination has finished |
| Resolver.GrownTransitive | src/main/java/org/savantbuild/dep/DefaultDependencyService.java:181 | the walk's state only grows, step after step |
| Resolver.ServedGrows | src/main/java/org/savantbuild/dep/DefaultDependencyService.java:194-195 | a served edge stays served as the map, the resolved graph and the finished set grow |
| Resolver.AllServedSnoc | src/main/java/org/savantbuild/dep/DefaultDependencyService.java:181 | served edges stay served, and one more served edge extends the list |
| Resolver.SoundEdgesGrow | src/main/java/org/savantbuild/dep/DefaultDependencyService.java:194 | resolved edges stay sound as more artifacts start |
| Resolver.JustifiedAdd | src/main/java/org/savantbuild/dep/DefaultDependencyService.java:206 | a node reached along an admitted transitive edge may start |
| Resolver.MapSoundGrows | src/main/java/org/savantbuild/dep/DefaultDependencyService.java:195 | putting a fetched artifact into the map keeps the map sound |
| Resolver.ResolveVisitor.constructor | src/main/java/org/savantbuild/dep/DefaultDependencyService.java:175-179 | the resolved graph is rooted at the root without a file, and the map holds just root → that |
| Resolver.ResolveVisitor.Visit | src/main/java/org/savantbuild/dep/DefaultDependencyService.java:181-207 | a group with no configuration gives false and no fetch; a disallowed license gives LicenseViolation(destination) before any fetch; otherwise the artifact is resolved and the visit is handled |
| Resolver.ResolveVisitor.VisitLegacy | src/java/main/org/savantbuild/dep/DefaultDependencyService.java:150-167 | the older visitor fetches first, then uses the group's configuration, which it requires to exist |
| Resolver.ResolveVisitor.ResolveEdge | src/main/java/org/savantbuild/dep/DefaultDependencyService.java:192-206 | the destination is fetched and the failure ends the visit; the resolved edge from the origin's resolved artifact is added and the map entry put; the source is fetched only when configured; every listener is notified; the result is the group's `transitive` |
| Resolver.ResolveVisitor.SourceAndNotify | src/main/java/org/savantbuild/dep/DefaultDependencyService.java:197-206 | a source fetch when configured, whose failure ends the visit without notifying; then one notification per listener and the group's `transitive` |
| Resolver.ResolveVisitor.Record | src/main/java/org/savantbuild/dep/DefaultDependencyService.java:193-195 | `addEdge(map.get(origin), resolvedArtifact, group)` then `map.put(destination, resolvedArtifact)`, keeping the invariant |
| Resolver.ResolveVisitor.VisitEdge | src/java/main/org/savantbuild/dep/DefaultDependencyService.java:150 | the visitor of the chosen tree handles the edge or fails at it |
| Resolver.ResolveVisitor.Traverse | src/main/java/org/savantbuild/dep/DefaultDependencyService.java:181 | on success the node is finished and the state has only grown; a failure keeps the invariant and happened at an edge out of a started artifact |
| Resolver.ResolveVisitor.Children | src/main/java/org/savantbuild/dep/DefaultDependencyService.java:181 | every outbound edge in order is served, or the first failure ends the walk at an edge out of a started artifact |
| Resolver.ResolveVisitor.Step | src/main/java/org/savantbuild/dep/DefaultDependencyService.java:205-206 | one edge is visited and, when the visitor says so, the walk below its destination finishes; a failure is at an edge out of a started artifact |
| Resolver.ResolveVisitor.Start | src/main/java/org/savantbuild/dep/DefaultDependencyService.java:181 | the node's walk begins, keeping the invariant |
| Resolver.ResolveVisitor.Finish | src/main/java/org/savantbuild/dep/DefaultDependencyService.java:181 | the finished node has all its outbound edges served |
| Resolver.Resolve | src/main/java/org/savantbuild/dep/DefaultDependencyService.java:172-210 | rooted at the root without a file; every map entry is the fetched file of its artifact; every admitted edge out of a walked artifact is in the resolved graph, with transitive destinations walked; every resolved edge is the image of an admitted edge; every started artifact other than the root is the destination of an admitted transitive edge out of a started artifact (one step; no path lemma is given); a failure is a license gate, fetch or source-fetch failure at an edge out of a started artifact |
| Resolver.NonTransitiveResolvesRootOnly | src/main/java/org/savantbuild/dep/DefaultDependencyService.java:206 | with no transitive group only the root is walked, and every resolved edge leaves the root |
| Resolver.ResolvedLicensesAllowed | src/main/java/org/savantbuild/dep/DefaultDependencyService.java:188-190 | in the current tree no resolved edge leads to a license its group disallows |

## Left out

- `publish` and `publishItem`: XML generation, temporary files and publishing are I/O.
- `IOTools.protectIO`, `IOTools.write`, the file read of `parseMD5` and the digest: I/O and RFC 1321 are not modelled. `fromHex` comes in as a function.
- Logging (`Logger`, `Output`) is not modelled.
- The fetch workflow has no caches and no network in this model. Each fetch is a deterministic function of the artifact and the item name, so the same request always gets the same answer.
- Parsing of metadata files is taken as total. When the parse fails, the exception is not modelled.
- `fetchSource` writes a negative marker for a missing source. That write is not modelled.
- Listener notifications are appended to a ghost log. The listener's own code is not modelled.
- The no-argument constructors of `Artifact` and `Dependency` are not modelled. They leave fields null, and the model's datatypes have no null.
- The traversal depth argument that `traverse` passes to the visitors is not modelled, because no visitor reads it.
- `Graph.traverse`'s cycle detection (`CyclicException`) is not modelled. Acyclicity is a precondition, stated with a ghost rank, in `Reducer.Reduce` and `Resolver.Resolve`.
- `populateGraph` on cyclic metadata recurses without end in the source. `Builder.BuildGraph` requires ranked metadata instead, and only on a ghost set of artifacts that holds the project's dependencies and is closed under the dependencies its members' metadata declares.
- The older `resolve` throws a NullPointerException for a group without configuration. `Resolver.Resolve` with `legacy` instead requires every group to be configured.
- `Dependencies.graph` and `Version`'s grammar are not modelled: neither is part of equality or of the pipeline.
- DependencyDeclarations.Equals: groups are compared as values, `optional` flags included, because DependencyGroup.java is not part of this model and its `equals` is unknown.
- Graph.java is not part of this model. `Graphs.Graph.AddEdge` adds an edge only when no equal edge is present, for all three graphs.
- Checksums.ParseMD5 and Domain.Parse: strings are sequences of Unicode characters, not Java's UTF-16 code units. Lengths, `charAt` positions and `split` agree for text without characters outside the Basic Multilingual Plane.
- Graphs.Artifact and Graphs.ResolvedArtifact: node identity in all three graphs, `Outbound`/`Inbound` and the keys of the reducer's and resolver's maps compare every field, the license (and file) included. The license-carrying `Artifact` class and its `equals`/`hashCode` are not part of this model; where that `equals` compares only id and version, an artifact re-decided under a different license can appear as two nodes here where the source has one node and one map key.
- HashMap and HashSet iteration orders are not modelled. The order in which groups are visited is left open: a `:|` choice in the loops, an order parameter in `hashCode`.
- Reducer.Reduce: states soundness of the kept map and of the artifact graph. It does not state that every artifact reachable along non-optional edges with a significant edge is kept, because whether the visitor decides a destination depends on the order in which the walk reaches its parents.
- Reducer.ReduceVisitor.Traverse: records which edges were visited and answered true, but not which answer each visit gave in which state, because a destination's decision depends on the visit order.
- Reducer.ReduceVisitor.Visit: the license of a re-decided artifact is that of the edge visited last. The model states it as the license of some non-optional edge into the artifact.
- Resolver.Resolve: does not state that fetches happen at most once. The source repeats the fetch and the notification every time a path reaches an artifact. The logs record this, but no lemma counts them.

## Findings

| source | as written | input that shows it | evidently intended | confidence | as-written member | corrected member |
|---|---|---|---|---|---|---|
| src/java/main/org/savantbuild/dep/io/IOTools.java:69-75 | `while (str.charAt(index) == ' ')` has no bound, so content ending in the run of spaces reads `charAt(length)` and throws StringIndexOutOfBoundsException | the 32-character sum followed by two spaces | the check at line 73 rejects it with MD5Exception | not executed | Checksums.ParseMD5AsWritten | Checksums.ParseMD5 |
