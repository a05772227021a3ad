/**
 * Versions of artifacts. The grammar of version strings, their order and the
 * compatibility rule live in a class this model does not see, so a version is an
 * opaque value and its operations are given as a `VersionOps` record.
 */
module Versions {
  import opened Wrappers

  /** A version of an artifact; only its equality is known. */
  type Version(==, !new)

  /**
   * The operations of Version that the core uses:
   * `le(a, b)` is `a.compareTo(b) <= 0`, `compatible(a, b)` is `a.isCompatibleWith(b)`,
   * `show(v)` is `v.toString()` and `parse(s)` is `new Version(s)` (None when it rejects `s`).
   */
  datatype VersionOps = VersionOps(
    le: (Version, Version) -> bool,
    compatible: (Version, Version) -> bool,
    show: Version -> string,
    parse: string -> Option<Version>)
  {
    /** `compareTo` is a total preorder: any two versions compare, and the order is transitive. */
    ghost predicate Ordered() {
      && (forall a, b :: le(a, b) || le(b, a))
      && (forall a, b, c :: le(a, b) && le(b, c) ==> le(a, c))
    }
  }

  /**
   * `stream.max(Version::compareTo)` over a non-empty stream: a left fold of
   * `BinaryOperator.maxBy`, which keeps the accumulator unless the next element is larger.
   */
  function Max(ops: VersionOps, vs: seq<Version>): (r: Version)
    requires |vs| > 0
    ensures r in vs
    ensures ops.Ordered() ==> forall v :: v in vs ==> ops.le(v, r)
  {
    MaxFrom(ops, vs[0], vs[1..])
  }

  function MaxFrom(ops: VersionOps, acc: Version, rest: seq<Version>): (r: Version)
    ensures r == acc || r in rest
    ensures ops.Ordered() ==> ops.le(acc, r) && forall v :: v in rest ==> ops.le(v, r)
    decreases |rest|
  {
    if rest == [] then acc
    else MaxFrom(ops, if ops.le(rest[0], acc) then acc else rest[0], rest[1..])
  }

  /** `stream.min(Version::compareTo)`: a left fold of `BinaryOperator.minBy`. */
  function Min(ops: VersionOps, vs: seq<Version>): (r: Version)
    requires |vs| > 0
    ensures r in vs
    ensures ops.Ordered() ==> forall v :: v in vs ==> ops.le(r, v)
  {
    MinFrom(ops, vs[0], vs[1..])
  }

  function MinFrom(ops: VersionOps, acc: Version, rest: seq<Version>): (r: Version)
    ensures r == acc || r in rest
    ensures ops.Ordered() ==> ops.le(r, acc) && forall v :: v in rest ==> ops.le(r, v)
    decreases |rest|
  {
    if rest == [] then acc
    else MinFrom(ops, if ops.le(acc, rest[0]) then acc else rest[0], rest[1..])
  }

  /** When versions are ordered, the minimum of a stream never exceeds its maximum. */
  lemma MinBelowMax(ops: VersionOps, vs: seq<Version>)
    requires |vs| > 0 && ops.Ordered()
    ensures ops.le(Min(ops, vs), Max(ops, vs))
  {
    assert Max(ops, vs) in vs;
  }
}
