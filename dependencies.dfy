/**
 * A project's declared dependencies: named groups ("compile", "run", ...) of
 * Dependency values, an optional name, the flattening into one set of artifacts,
 * and equality and hashing over the group map.
 */
module DependencyDeclarations {
  import opened Wrappers
  import opened Domain

  /** A named group of declared dependencies, in declaration order. */
  datatype DependencyGroup = DependencyGroup(name: string, dependencies: seq<Dependency>)

  /** The groups, by name (a HashMap in the source), and the optional name. */
  datatype Dependencies = Dependencies(groups: map<string, DependencyGroup>, name: Option<string>)

  /** Some group declares `e` itself. */
  ghost predicate Declares(d: Dependencies, e: Dependency) {
    exists k :: k in d.groups && e in d.groups[k].dependencies
  }

  /** `s` holds an element equal to `e` in the sense of `equals`: the same id and version. */
  ghost predicate HoldsEqual(s: set<Dependency>, e: Dependency) {
    exists x :: x in s && x.Key() == e.Key()
  }

  /** A HashSet of artifacts holds no two elements that `equals` identifies. */
  ghost predicate NoEqualPair(s: set<Dependency>) {
    forall e1, e2 :: e1 in s && e2 in s && e1.Key() == e2.Key() ==> e1 == e2
  }

  /**
   * `getAllArtifacts`: every group's dependencies added to one HashSet. An element
   * is added only when no element equal to it (same id and version) is present, so
   * the first occurrence met is the one kept. The groups are visited in an
   * unspecified order, as HashMap iteration is.
   */
  method GetAllArtifacts(d: Dependencies) returns (all: set<Dependency>)
    ensures forall k, e :: k in d.groups && e in d.groups[k].dependencies ==> HoldsEqual(all, e)
    ensures forall e :: e in all ==> Declares(d, e)
    ensures NoEqualPair(all)
    ensures d.groups == map[] ==> all == {}
  {
    all := {};
    var remaining := d.groups.Keys;
    ghost var done: set<string> := {};
    while remaining != {}
      invariant remaining + done == d.groups.Keys && remaining !! done
      invariant forall k, e :: k in done && e in d.groups[k].dependencies ==> HoldsEqual(all, e)
      invariant forall e :: e in all ==> Declares(d, e)
      invariant NoEqualPair(all)
      decreases remaining
    {
      var k :| k in remaining;
      var deps := d.groups[k].dependencies;
      ghost var before := all;
      var j := 0;
      while j < |deps|
        invariant 0 <= j <= |deps|
        invariant before <= all
        invariant forall e :: e in deps[..j] ==> HoldsEqual(all, e)
        invariant forall e :: e in all ==> Declares(d, e)
        invariant NoEqualPair(all)
      {
        if !exists e :: e in all && e.Key() == deps[j].Key() {
          all := all + {deps[j]};
        }
        assert deps[..j + 1] == deps[..j] + [deps[j]];
        j := j + 1;
      }
      assert deps[..j] == deps;
      forall k', e | k' in done && e in d.groups[k'].dependencies ensures HoldsEqual(all, e) {
        assert HoldsEqual(before, e);
        var x :| x in before && x.Key() == e.Key();
        assert x in all;
      }
      remaining := remaining - {k};
      done := done + {k};
    }
  }

  /**
   * `equals`: equal group maps and equal names, where two absent names are equal.
   * The `graph` field takes no part in it.
   */
  predicate Equals(a: Dependencies, b: Dependencies)
  {
    a.groups == b.groups && a.name == b.name
  }

  // ---------------------------------------------------------------------------
  // hashCode. A HashMap's hash is the 32-bit sum, in iteration order, of
  // `key.hashCode() ^ value.hashCode()` over its entries; the String and
  // DependencyGroup hash codes are not part of this model and come in as functions.
  // ---------------------------------------------------------------------------

  /** `order` lists every key of `m` exactly once: an iteration order of the map. */
  ghost predicate IsIterationOrder(order: seq<string>, m: map<string, DependencyGroup>) {
    multiset(order) == multiset(m.Keys)
  }

  /**
   * The entry hashes of `m` summed over `order` as integers; reducing the sum modulo
   * 2^32 at the end gives the same value as Java's wrapping int additions.
   */
  function EntrySum(order: seq<string>, m: map<string, DependencyGroup>, strHash: string -> bv32, groupHash: DependencyGroup -> bv32): int
    requires forall k :: k in order ==> k in m
  {
    if order == [] then 0
    else EntryHash(order[0], m[order[0]], strHash, groupHash) + EntrySum(order[1..], m, strHash, groupHash)
  }

  /** `Map.Entry.hashCode()`: the key's hash XOR the value's hash. */
  function EntryHash(key: string, group: DependencyGroup, strHash: string -> bv32, groupHash: DependencyGroup -> bv32): (h: int)
    ensures 0 <= h < 0x1_0000_0000
  {
    (strHash(key) ^ groupHash(group)) as int
  }

  /** `hashCode()` for the map iterated in `order`: `31 * groups.hashCode() + (name's hash or 0)`, in Java's wrap-around int arithmetic. */
  function HashCode(d: Dependencies, order: seq<string>, strHash: string -> bv32, groupHash: DependencyGroup -> bv32): (h: Int32)
    requires forall k :: k in order ==> k in d.groups
    ensures (h - (31 * EntrySum(order, d.groups, strHash, groupHash) + NameHash(d, strHash))) % 0x1_0000_0000 == 0
  {
    ToInt32(31 * EntrySum(order, d.groups, strHash, groupHash) + NameHash(d, strHash))
  }

  /** The name's hash, or 0 for no name. */
  function NameHash(d: Dependencies, strHash: string -> bv32): int {
    match d.name case Some(n) => strHash(n) as int case None => 0
  }

  lemma {:induction false} EntrySumConcat(o1: seq<string>, o2: seq<string>, m: map<string, DependencyGroup>, strHash: string -> bv32, groupHash: DependencyGroup -> bv32)
    requires forall k :: k in o1 ==> k in m
    requires forall k :: k in o2 ==> k in m
    ensures forall k :: k in o1 + o2 ==> k in m
    ensures EntrySum(o1 + o2, m, strHash, groupHash) == EntrySum(o1, m, strHash, groupHash) + EntrySum(o2, m, strHash, groupHash)
  {
    if o1 != [] {
      assert (o1 + o2)[0] == o1[0];
      assert (o1 + o2)[1..] == o1[1..] + o2;
      EntrySumConcat(o1[1..], o2, m, strHash, groupHash);
    } else {
      assert o1 + o2 == o2;
    }
  }

  /** Taking the key at index `i` out of an order takes its entry hash out of the sum. */
  lemma EntrySumRemove(order: seq<string>, i: nat, m: map<string, DependencyGroup>, strHash: string -> bv32, groupHash: DependencyGroup -> bv32)
    requires i < |order| && forall k :: k in order ==> k in m
    ensures forall k :: k in order[..i] + order[i + 1..] ==> k in m
    ensures multiset(order[..i] + order[i + 1..]) == multiset(order) - multiset{order[i]}
    ensures EntrySum(order, m, strHash, groupHash)
      == EntryHash(order[i], m[order[i]], strHash, groupHash) + EntrySum(order[..i] + order[i + 1..], m, strHash, groupHash)
  {
    var k := order[i];
    assert order == order[..i] + ([k] + order[i + 1..]);
    assert forall x :: x in order[..i] + order[i + 1..] ==> x in order;
    assert multiset(order) == multiset(order[..i]) + multiset{k} + multiset(order[i + 1..]);
    EntrySumConcat(order[..i], [k] + order[i + 1..], m, strHash, groupHash);
    assert ([k] + order[i + 1..])[1..] == order[i + 1..];
    EntrySumConcat(order[..i], order[i + 1..], m, strHash, groupHash);
  }

  /** Summing the entry hashes in any two orders holding the same keys gives the same hash. */
  lemma {:induction false} EntrySumPermutation(o1: seq<string>, o2: seq<string>, m: map<string, DependencyGroup>, strHash: string -> bv32, groupHash: DependencyGroup -> bv32)
    requires multiset(o1) == multiset(o2)
    requires forall k :: k in o1 ==> k in m
    ensures forall k :: k in o2 ==> k in m
    ensures EntrySum(o1, m, strHash, groupHash) == EntrySum(o2, m, strHash, groupHash)
    decreases |o1|
  {
    forall k | k in o2 ensures k in m {
      assert k in multiset(o2);
      assert k in multiset(o1);
    }
    if o1 != [] {
      var k := o1[0];
      assert k in multiset(o2);
      var i :| 0 <= i < |o2| && o2[i] == k;
      EntrySumRemove(o2, i, m, strHash, groupHash);
      EntrySumRemove(o1, 0, m, strHash, groupHash);
      assert o1[..0] + o1[1..] == o1[1..];
      EntrySumPermutation(o1[1..], o2[..i] + o2[i + 1..], m, strHash, groupHash);
    }
  }

  /**
   * `hashCode` agrees with `equals`: equal Dependencies hash alike whichever order each
   * of their maps happens to iterate in.
   */
  lemma HashCodeAgreesWithEquals(a: Dependencies, b: Dependencies, orderA: seq<string>, orderB: seq<string>,
                                 strHash: string -> bv32, groupHash: DependencyGroup -> bv32)
    requires Equals(a, b)
    requires IsIterationOrder(orderA, a.groups) && IsIterationOrder(orderB, b.groups)
    ensures forall k :: k in orderA ==> k in a.groups
    ensures forall k :: k in orderB ==> k in b.groups
    ensures HashCode(a, orderA, strHash, groupHash) == HashCode(b, orderB, strHash, groupHash)
  {
    forall k | k in orderA ensures k in a.groups {
      assert k in multiset(orderA);
    }
    EntrySumPermutation(orderA, orderB, a.groups, strHash, groupHash);
    ghost var sum := EntrySum(orderA, a.groups, strHash, groupHash);
    assert EntrySum(orderB, b.groups, strHash, groupHash) == sum;
  }

  /** `equals` is an equivalence relation, and two absent names count as equal. */
  lemma EqualsIsEquivalence(a: Dependencies, b: Dependencies, c: Dependencies)
    ensures Equals(a, a)
    ensures Equals(a, b) ==> Equals(b, a)
    ensures Equals(a, b) && Equals(b, c) ==> Equals(a, c)
    ensures a.groups == b.groups && a.name == None && b.name == None ==> Equals(a, b)
  {
  }
}
