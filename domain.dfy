/**
 * The artifact domain values: an artifact's identity, an artifact (identity plus
 * version), a dependency (an artifact plus the `optional` flag) and a resolved
 * artifact (an artifact plus the file it was fetched to), with the spec-string
 * parser, the file-name helpers and the class-sensitive equality they share.
 */
module Domain {
  import opened Wrappers
  import opened Versions

  /** A file on the local disk; only its identity matters here. */
  type Path(==, !new)

  /** group / project / name / type; the Java field `type` is `artifactType` here. */
  datatype ArtifactID = ArtifactID(group: string, project: string, name: string, artifactType: string)

  /** An artifact: an identity at one version. */
  datatype Artifact = Artifact(id: ArtifactID, version: Version)

  /** A dependency of a project: an artifact that the project may declare optional. */
  datatype Dependency = Dependency(id: ArtifactID, version: Version, optional: bool) {
    /** The Artifact part of the object, the only part `equals` and `hashCode` look at. */
    function Key(): Artifact { Artifact(id, version) }
  }

  /** An artifact after it has been fetched; `file` is None until it is assigned. */
  datatype ResolvedArtifact = ResolvedArtifact(id: ArtifactID, version: Version, file: Option<Path>) {
    function Key(): Artifact { Artifact(id, version) }
  }

  /** `new ResolvedArtifact(id, version)`: the file is left unset. */
  function NewResolvedArtifact(id: ArtifactID, version: Version): (r: ResolvedArtifact)
    ensures r.Key() == Artifact(id, version) && r.file == None
  {
    ResolvedArtifact(id, version, None)
  }

  // ---------------------------------------------------------------------------
  // Equality and hashing. `Artifact.equals` first compares runtime classes, so an
  // object's class is part of what equality sees; Dependency and ResolvedArtifact
  // inherit `equals` and `hashCode` unchanged.
  // ---------------------------------------------------------------------------

  /** An object of one of the three classes, as `equals(Object)` receives it. */
  datatype ArtifactObject =
    | PlainArtifact(artifact: Artifact)
    | DependencyObject(dependency: Dependency)
    | ResolvedObject(resolved: ResolvedArtifact)
  {
    function Key(): Artifact {
      match this
      case PlainArtifact(a) => a
      case DependencyObject(d) => d.Key()
      case ResolvedObject(r) => r.Key()
    }
  }

  /** `getClass() == o.getClass()`. */
  predicate SameClass(x: ArtifactObject, y: ArtifactObject) {
    (x.PlainArtifact? && y.PlainArtifact?) || (x.DependencyObject? && y.DependencyObject?)
    || (x.ResolvedObject? && y.ResolvedObject?)
  }

  /** `Artifact.equals`: same runtime class, equal id and equal version; nothing else is compared. */
  predicate Equals(x: ArtifactObject, y: ArtifactObject)
  {
    SameClass(x, y) && x.Key().id == y.Key().id && x.Key().version == y.Key().version
  }

  /** A Java `int`. */
  type Int32 = x: int | -0x8000_0000 <= x < 0x8000_0000

  /** Java's wrap-around of an integer result into an `int`: the one `int` congruent to it modulo 2^32. */
  function ToInt32(n: int): (r: Int32)
    ensures (r - n) % 0x1_0000_0000 == 0
  {
    var m := n % 0x1_0000_0000;
    if m < 0x8000_0000 then m else m - 0x1_0000_0000
  }

  /**
   * `Artifact.hashCode`: `31 * id.hashCode() + version.hashCode()` in Java's wrap-around
   * int arithmetic, the same for all three classes. The hash codes of ArtifactID and
   * Version are not part of this model and come in as functions.
   */
  function HashCode(x: ArtifactObject, idHash: ArtifactID -> Int32, versionHash: Version -> Int32): (h: Int32)
    ensures (h - (31 * idHash(x.Key().id) + versionHash(x.Key().version))) % 0x1_0000_0000 == 0
  {
    KeyHash(x.Key(), idHash, versionHash)
  }

  /** The hash of an id and version pair. */
  function KeyHash(a: Artifact, idHash: ArtifactID -> Int32, versionHash: Version -> Int32): (h: Int32)
    ensures (h - (31 * idHash(a.id) + versionHash(a.version))) % 0x1_0000_0000 == 0
  {
    ToInt32(31 * idHash(a.id) + versionHash(a.version))
  }

  /** `equals` is an equivalence relation. */
  lemma EqualsIsEquivalence(x: ArtifactObject, y: ArtifactObject, z: ArtifactObject)
    ensures Equals(x, x)
    ensures Equals(x, y) ==> Equals(y, x)
    ensures Equals(x, y) && Equals(y, z) ==> Equals(x, z)
  {
  }

  /** `hashCode` agrees with `equals`. */
  lemma HashCodeAgreesWithEquals(x: ArtifactObject, y: ArtifactObject, idHash: ArtifactID -> Int32, versionHash: Version -> Int32)
    requires Equals(x, y)
    ensures HashCode(x, idHash, versionHash) == HashCode(y, idHash, versionHash)
  {
    assert x.Key() == y.Key();
  }

  /** Two dependencies are equal exactly when their id and version are; `optional` is not compared. */
  lemma DependencyEqualsIgnoresOptional(d: Dependency, e: Dependency)
    ensures Equals(DependencyObject(d), DependencyObject(e)) <==> d.Key() == e.Key()
    ensures d.Key() == e.Key() && d.optional != e.optional ==> Equals(DependencyObject(d), DependencyObject(e))
  {
  }

  /** Two resolved artifacts are equal exactly when their id and version are; `file` is not compared. */
  lemma ResolvedEqualsIgnoresFile(r: ResolvedArtifact, s: ResolvedArtifact)
    ensures Equals(ResolvedObject(r), ResolvedObject(s)) <==> r.Key() == s.Key()
  {
  }

  /** The class check: objects of different classes are never equal, whatever their id and version. */
  lemma DifferentClassesNeverEqual(a: Artifact, d: Dependency, r: ResolvedArtifact)
    ensures !Equals(PlainArtifact(a), DependencyObject(d)) && !Equals(DependencyObject(d), PlainArtifact(a))
    ensures !Equals(PlainArtifact(a), ResolvedObject(r)) && !Equals(ResolvedObject(r), PlainArtifact(a))
    ensures !Equals(DependencyObject(d), ResolvedObject(r)) && !Equals(ResolvedObject(r), DependencyObject(d))
  {
  }

  // ---------------------------------------------------------------------------
  // String.split(":") as Java defines it for a one-character pattern: split at every
  // ':' and then drop the trailing empty strings; a string without ':' splits into itself.
  // ---------------------------------------------------------------------------

  predicate ColonFree(s: string) { ':' !in s }

  /** The position of the first ':' of `s`. */
  function FirstColon(s: string): (i: nat)
    requires ':' in s
    ensures i < |s| && s[i] == ':' && ColonFree(s[..i])
  {
    if s[0] == ':' then 0
    else
      assert s == [s[0]] + s[1..];
      var j := FirstColon(s[1..]);
      assert s[..j + 1] == [s[0]] + s[1..][..j];
      j + 1
  }

  /** The parts of `parts`, separated by ':'. */
  function Join(parts: seq<string>): string
    requires |parts| > 0
  {
    if |parts| == 1 then parts[0] else parts[0] + ":" + Join(parts[1..])
  }

  /** Every ':'-separated field of `s`, empty ones included. */
  function SplitAll(s: string): (parts: seq<string>)
    ensures |parts| > 0 && Join(parts) == s
    ensures forall p :: p in parts ==> ColonFree(p)
    decreases |s|
  {
    if ColonFree(s) then [s]
    else
      var i := FirstColon(s);
      var rest := SplitAll(s[i + 1..]);
      assert s == s[..i] + ":" + s[i + 1..];
      [s[..i]] + rest
  }

  /** Removes the empty strings at the end of `parts`. */
  function DropTrailingEmpty(parts: seq<string>): (r: seq<string>)
    ensures r <= parts
    ensures r == [] || r[|r| - 1] != ""
    ensures forall i :: |r| <= i < |parts| ==> parts[i] == ""
  {
    if parts == [] then []
    else if parts[|parts| - 1] == "" then DropTrailingEmpty(parts[..|parts| - 1])
    else parts
  }

  /** `s.split(":")`. */
  function Split(s: string): (parts: seq<string>)
    ensures forall p :: p in parts ==> ColonFree(p)
  {
    if ColonFree(s) then [s] else DropTrailingEmpty(SplitAll(s))
  }

  /** In `p + ":" + t` with `p` free of ':', the first ':' is the one after `p`. */
  lemma FirstColonAfter(p: string, t: string)
    requires ColonFree(p)
    ensures ':' in p + ":" + t && FirstColon(p + ":" + t) == |p|
    ensures (p + ":" + t)[..|p|] == p && (p + ":" + t)[|p| + 1..] == t
  {
    var s := p + ":" + t;
    assert s[|p|] == ':';
    var i := FirstColon(s);
    assert i <= |p| by {
      assert forall k :: 0 <= k < i ==> s[..i][k] == s[k];
    }
  }

  lemma {:induction false} SplitAllOfJoin(parts: seq<string>)
    requires |parts| > 0 && forall p :: p in parts ==> ColonFree(p)
    ensures SplitAll(Join(parts)) == parts
  {
    if |parts| == 1 {
    } else {
      var t := Join(parts[1..]);
      var s := parts[0] + ":" + t;
      assert Join(parts) == s;
      FirstColonAfter(parts[0], t);
      assert !ColonFree(s);
      assert forall p :: p in parts[1..] ==> p in parts;
      SplitAllOfJoin(parts[1..]);
      assert SplitAll(s) == [s[..|parts[0]|]] + SplitAll(s[|parts[0]| + 1..]);
      assert parts == [parts[0]] + parts[1..];
    }
  }

  /** Joining at least two ':'-free fields, the last of which is not empty, splits back into those fields. */
  lemma {:induction false} SplitOfJoin(parts: seq<string>)
    requires |parts| >= 2 && parts[|parts| - 1] != ""
    requires forall p :: p in parts ==> ColonFree(p)
    ensures Split(Join(parts)) == parts
  {
    FirstColonAfter(parts[0], Join(parts[1..]));
    SplitAllOfJoin(parts);
  }

  // ---------------------------------------------------------------------------
  // The spec-string constructor, toString and the file names.
  // ---------------------------------------------------------------------------

  /** The exceptions `new Artifact(String)` throws. */
  datatype SpecError =
    | InvalidSpecification(spec: string)   // IllegalArgumentException: not 3, 4 or 5 parts
    | InvalidVersion(text: string)         // the Version constructor rejected the version part

  /** The Version built from `text`, or the error the constructor throws. */
  function VersionFrom(versions: VersionOps, text: string): Result<Version, SpecError> {
    match versions.parse(text)
    case Some(v) => Success(v)
    case None => Failure(InvalidVersion(text))
  }

  /**
   * `new Artifact(spec)`: `group:project:version`, `group:project:version:type` or
   * `group:project:name:version:type`; three or four parts use the project as the
   * name, three parts use the type "jar".
   */
  function Parse(versions: VersionOps, spec: string): (r: Result<Artifact, SpecError>)
    ensures var parts := Split(spec);
      && (r.Failure? && r.error.InvalidSpecification? <==> |parts| < 3 || |parts| > 5)
      && (r.Failure? && r.error.InvalidVersion? ==> versions.parse(r.error.text).None?)
      && (r.Success? ==> versions.parse(if |parts| == 5 then parts[3] else parts[2]) == Some(r.value.version))
  {
    var parts := Split(spec);
    if |parts| < 3 || |parts| > 5 then Failure(InvalidSpecification(spec))
    else if |parts| == 3 then
      var v :- VersionFrom(versions, parts[2]);
      Success(Artifact(ArtifactID(parts[0], parts[1], parts[1], "jar"), v))
    else if |parts| == 4 then
      var v :- VersionFrom(versions, parts[2]);
      Success(Artifact(ArtifactID(parts[0], parts[1], parts[1], parts[3]), v))
    else
      var v :- VersionFrom(versions, parts[3]);
      Success(Artifact(ArtifactID(parts[0], parts[1], parts[2], parts[4]), v))
  }

  /** `toString()`: group:project:name:version:type, the five fields the spec parser splits. */
  function ToString(versions: VersionOps, a: Artifact): (s: string)
    ensures s == Join([a.id.group, a.id.project, a.id.name, versions.show(a.version), a.id.artifactType])
  {
    var parts := [a.id.group, a.id.project, a.id.name, versions.show(a.version), a.id.artifactType];
    assert Join(parts[3..]) == parts[3] + ":" + parts[4] by { assert parts[3..][1..] == [parts[4]]; }
    assert Join(parts[2..]) == parts[2] + ":" + Join(parts[3..]) by { assert parts[2..][1..] == parts[3..]; }
    assert Join(parts[1..]) == parts[1] + ":" + Join(parts[2..]) by { assert parts[1..][1..] == parts[2..]; }
    a.id.group + ":" + a.id.project + ":" + a.id.name + ":" + versions.show(a.version) + ":" + a.id.artifactType
  }

  /** `name-version`, the common start of every file name. */
  function Prefix(versions: VersionOps, a: Artifact): string {
    a.id.name + "-" + versions.show(a.version)
  }

  /** `getArtifactFile()`. */
  function ArtifactFile(versions: VersionOps, a: Artifact): string {
    Prefix(versions, a) + "." + a.id.artifactType
  }

  /** `getArtifactMetaDataFile()`: the artifact's file with ".amd" appended. */
  function ArtifactMetaDataFile(versions: VersionOps, a: Artifact): (f: string)
    ensures f == ArtifactFile(versions, a) + ".amd"
  {
    Prefix(versions, a) + "." + a.id.artifactType + ".amd"
  }

  /** `getArtifactNegativeMetaDataFile()`: the artifact's file with ".amd.neg" appended. */
  function ArtifactNegativeMetaDataFile(versions: VersionOps, a: Artifact): (f: string)
    ensures f == ArtifactFile(versions, a) + ".amd.neg"
  {
    ArtifactMetaDataFile(versions, a) + ".neg"
  }

  /** `getArtifactSourceFile()`. */
  function ArtifactSourceFile(versions: VersionOps, a: Artifact): string {
    Prefix(versions, a) + "-src." + a.id.artifactType
  }

  /**
   * How the file names read: the prefix is the name, '-' and the printed version; the
   * artifact file is the prefix, '.' and the type; the source file is the prefix,
   * "-src." and the type.
   */
  lemma FileNameParts(versions: VersionOps, a: Artifact)
    ensures var p, n := Prefix(versions, a), |a.id.name|;
      && |p| == n + 1 + |versions.show(a.version)|
      && p[..n] == a.id.name && p[n] == '-' && p[n + 1..] == versions.show(a.version)
    ensures var p, f := Prefix(versions, a), ArtifactFile(versions, a);
      && |f| == |p| + 1 + |a.id.artifactType|
      && f[..|p|] == p && f[|p|] == '.' && f[|p| + 1..] == a.id.artifactType
    ensures var p, f := Prefix(versions, a), ArtifactSourceFile(versions, a);
      && |f| == |p| + 5 + |a.id.artifactType|
      && f[..|p|] == p && f[|p|..|p| + 5] == "-src." && f[|p| + 5..] == a.id.artifactType
  {
  }

  /** The three-part form: the project doubles as the name and the type is "jar". */
  lemma ParseThreeParts(versions: VersionOps, group: string, project: string, version: string)
    requires ColonFree(group) && ColonFree(project) && ColonFree(version) && version != ""
    ensures Parse(versions, group + ":" + project + ":" + version) ==
      match versions.parse(version)
      case Some(v) => Success(Artifact(ArtifactID(group, project, project, "jar"), v))
      case None => Failure(InvalidVersion(version))
  {
    var parts := [group, project, version];
    assert Join(parts) == group + ":" + project + ":" + version by {
      assert Join(parts[1..]) == project + ":" + version by { assert parts[1..][1..] == [version]; }
    }
    SplitOfJoin(parts);
  }

  /** The four-part form: the project doubles as the name and the fourth part is the type. */
  lemma ParseFourParts(versions: VersionOps, group: string, project: string, version: string, artifactType: string)
    requires ColonFree(group) && ColonFree(project) && ColonFree(version) && ColonFree(artifactType)
    requires artifactType != ""
    ensures Parse(versions, group + ":" + project + ":" + version + ":" + artifactType) ==
      match versions.parse(version)
      case Some(v) => Success(Artifact(ArtifactID(group, project, project, artifactType), v))
      case None => Failure(InvalidVersion(version))
  {
    var parts := [group, project, version, artifactType];
    assert Join(parts) == group + ":" + project + ":" + version + ":" + artifactType by {
      assert Join(parts[2..]) == version + ":" + artifactType by { assert parts[2..][1..] == [artifactType]; }
      assert Join(parts[1..]) == project + ":" + Join(parts[2..]) by { assert parts[1..][1..] == parts[2..]; }
    }
    SplitOfJoin(parts);
  }

  /**
   * `toString` and the five-part form are inverse: an artifact whose fields hold no ':',
   * whose type is not empty (split would drop an empty last part) and whose version
   * reads back from its printed form parses back to itself.
   */
  lemma ParseToString(versions: VersionOps, a: Artifact)
    requires ColonFree(a.id.group) && ColonFree(a.id.project) && ColonFree(a.id.name)
    requires ColonFree(versions.show(a.version)) && ColonFree(a.id.artifactType)
    requires a.id.artifactType != ""
    requires versions.parse(versions.show(a.version)) == Some(a.version)
    ensures Parse(versions, ToString(versions, a)) == Success(a)
  {
    SplitOfJoin([a.id.group, a.id.project, a.id.name, versions.show(a.version), a.id.artifactType]);
  }

  /** The five-part form: group, project, name, version and type, in that order. */
  lemma ParseFiveParts(versions: VersionOps, group: string, project: string, name: string, version: string, artifactType: string)
    requires ColonFree(group) && ColonFree(project) && ColonFree(name) && ColonFree(version) && ColonFree(artifactType)
    requires artifactType != ""
    ensures Parse(versions, group + ":" + project + ":" + name + ":" + version + ":" + artifactType) ==
      match versions.parse(version)
      case Some(v) => Success(Artifact(ArtifactID(group, project, name, artifactType), v))
      case None => Failure(InvalidVersion(version))
  {
    var parts := [group, project, name, version, artifactType];
    assert Join(parts) == group + ":" + project + ":" + name + ":" + version + ":" + artifactType by {
      assert Join(parts[3..]) == version + ":" + artifactType by { assert parts[3..][1..] == [artifactType]; }
      assert Join(parts[2..]) == name + ":" + Join(parts[3..]) by { assert parts[2..][1..] == parts[3..]; }
      assert Join(parts[1..]) == project + ":" + Join(parts[2..]) by { assert parts[1..][1..] == parts[2..]; }
    }
    SplitOfJoin(parts);
  }

  /** Example: the two-part spec "a:b" is rejected. */
  lemma ParseRejectsTwoParts(versions: VersionOps)
    ensures Parse(versions, "a:b") == Failure(InvalidSpecification("a:b"))
  {
    SplitOfJoin(["a", "b"]);
  }

  /** Example: the six-part spec "a:b:c:d:e:f" is rejected. */
  lemma ParseRejectsSixParts(versions: VersionOps)
    ensures Parse(versions, "a:b:c:d:e:f") == Failure(InvalidSpecification("a:b:c:d:e:f"))
  {
    var six := ["a", "b", "c", "d", "e", "f"];
    JoinOfSix(six);
    SplitOfJoin(six);
  }

  lemma JoinOfSix(six: seq<string>)
    requires six == ["a", "b", "c", "d", "e", "f"]
    ensures Join(six) == "a:b:c:d:e:f"
  {
    assert Join(six[5..]) == "f";
    assert Join(six[4..]) == "e:f" by { assert six[4..][1..] == six[5..]; }
    assert Join(six[3..]) == "d:e:f" by { assert six[3..][1..] == six[4..]; }
    assert Join(six[2..]) == "c:d:e:f" by { assert six[2..][1..] == six[3..]; }
    assert Join(six[1..]) == "b:c:d:e:f" by { assert six[1..][1..] == six[2..]; }
  }

  /** The metadata file is the artifact file plus ".amd"; the negative marker adds ".neg" to that. */
  lemma MetaDataFileNames(versions: VersionOps, a: Artifact)
    ensures ArtifactMetaDataFile(versions, a) == ArtifactFile(versions, a) + ".amd"
    ensures ArtifactNegativeMetaDataFile(versions, a) == ArtifactFile(versions, a) + ".amd.neg"
  {
  }

  /** The four files of one artifact have four different names. */
  lemma FileNamesDistinct(versions: VersionOps, a: Artifact)
    ensures ArtifactFile(versions, a) != ArtifactMetaDataFile(versions, a)
    ensures ArtifactFile(versions, a) != ArtifactNegativeMetaDataFile(versions, a)
    ensures ArtifactFile(versions, a) != ArtifactSourceFile(versions, a)
    ensures ArtifactMetaDataFile(versions, a) != ArtifactNegativeMetaDataFile(versions, a)
    ensures ArtifactMetaDataFile(versions, a) != ArtifactSourceFile(versions, a)
    ensures ArtifactNegativeMetaDataFile(versions, a) != ArtifactSourceFile(versions, a)
  {
    var p := Prefix(versions, a);
    assert ArtifactMetaDataFile(versions, a)[|p|] == '.';
    assert ArtifactSourceFile(versions, a)[|p|] == '-';
  }

  /**
   * The file names of a three-part spec such as `group:name:2.0`: the project names the
   * files and the type is "jar", so a Version printed as "2.0.0" gives name-2.0.0.jar,
   * name-2.0.0.jar.amd and name-2.0.0-src.jar.
   */
  lemma FileNamesOfThreePartSpec(versions: VersionOps, group: string, project: string, version: string, v: Version)
    requires ColonFree(group) && ColonFree(project) && ColonFree(version) && version != ""
    requires versions.parse(version) == Some(v)
    ensures var r := Parse(versions, group + ":" + project + ":" + version);
      && r.Success?
      && ArtifactFile(versions, r.value) == project + "-" + versions.show(v) + ".jar"
      && ArtifactMetaDataFile(versions, r.value) == project + "-" + versions.show(v) + ".jar.amd"
      && ArtifactSourceFile(versions, r.value) == project + "-" + versions.show(v) + "-src.jar"
  {
    ParseThreeParts(versions, group, project, version);
  }
}
