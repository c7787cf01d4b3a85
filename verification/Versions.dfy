/**
 Logical versions and versioned values (internal/store/memory.go).

 A version is a counter paired with the address of the node that allocated it.
 Versions are ordered by counter first and by node address second; addresses are
 compared like Go strings.
 */
module Versions {

  type Byte = b: int | 0 <= b < 256

  datatype Option<+T> = None | Some(value: T)

  datatype Version = Version(counter: nat, nodeId: string)

  datatype Value = Value(data: seq<Byte>, version: Version, deleted: bool)

  /** Go's `<` on strings: lexicographic, a proper prefix comes first. */
  predicate StringLess(a: string, b: string)
  {
    if b == "" then false
    else if a == "" then true
    else if a[0] != b[0] then a[0] < b[0]
    else StringLess(a[1..], b[1..])
  }

  /** Three-way comparison of two versions, as the store computes it. */
  function CompareVersion(a: Version, b: Version): (r: int)
  {
    if a.counter < b.counter then -1
    else if a.counter > b.counter then 1
    else if StringLess(a.nodeId, b.nodeId) then -1
    else if StringLess(b.nodeId, a.nodeId) then 1
    else 0
  }

  predicate Leq(a: Version, b: Version) {
    CompareVersion(a, b) <= 0
  }

  /** `a` is strictly newer than `b` (internal/node/replication.go). */
  predicate Newer(a: Value, b: Value) {
    CompareVersion(a.version, b.version) > 0
  }

  lemma {:induction false} StringLessTrichotomy(a: string, b: string)
    ensures !(StringLess(a, b) && StringLess(b, a))
    ensures !StringLess(a, b) && !StringLess(b, a) ==> a == b
    ensures a == b ==> !StringLess(a, b)
    decreases |a|
  {
    if a != "" && b != "" && a[0] == b[0] {
      StringLessTrichotomy(a[1..], b[1..]);
      assert a == [a[0]] + a[1..] && b == [b[0]] + b[1..];
    }
  }

  lemma {:induction false} StringLessTransitive(a: string, b: string, c: string)
    requires StringLess(a, b) && StringLess(b, c)
    ensures StringLess(a, c)
    decreases |a|
  {
    if a != "" && a[0] == b[0] == c[0] {
      StringLessTransitive(a[1..], b[1..], c[1..]);
    }
  }

  /** Two strings part at position `i`, where the first has ended or has the smaller character. */
  predicate PartsBelow(a: string, b: string, i: nat) {
    i <= |a| && i < |b| && a[..i] == b[..i] && (i == |a| || a[i] < b[i])
  }

  predicate SameStart(a: string, b: string) {
    a != "" && b != "" && a[0] == b[0]
  }

  lemma PartsAgree(a: string, b: string, i: nat)
    requires PartsBelow(a, b, i)
    ensures i > 0 ==> SameStart(a, b)
  {
    if i > 0 {
      assert a[..i][0] == b[..i][0];
    }
  }

  lemma {:induction false} StringLessIff(a: string, b: string)
    ensures StringLess(a, b) <==> exists i: nat :: PartsBelow(a, b, i)
    decreases |a|
  {
    if !SameStart(a, b) {
      assert StringLess(a, b) ==> PartsBelow(a, b, 0);
      forall i: nat | PartsBelow(a, b, i)
        ensures i > 0 ==> SameStart(a, b)
      {
        PartsAgree(a, b, i);
      }
    } else {
      StringLessIff(a[1..], b[1..]);
      if i: nat :| PartsBelow(a[1..], b[1..], i) {
        assert a[..i + 1] == [a[0]] + a[1..][..i] && b[..i + 1] == [b[0]] + b[1..][..i];
        assert PartsBelow(a, b, i + 1);
      }
      if i: nat :| PartsBelow(a, b, i) {
        assert i > 0;
        assert a[1..][..i - 1] == a[..i][1..] && b[1..][..i - 1] == b[..i][1..];
        assert PartsBelow(a[1..], b[1..], i - 1);
      }
    }
  }

  /** What the comparison means: counters decide, and between equal counters the node names, like Go strings. */
  lemma CompareVersionIff(a: Version, b: Version)
    ensures CompareVersion(a, b) < 0 <==>
              a.counter < b.counter ||
              (a.counter == b.counter &&
               exists i :: 0 <= i <= |a.nodeId| && i < |b.nodeId| && a.nodeId[..i] == b.nodeId[..i] &&
                           (i == |a.nodeId| || a.nodeId[i] < b.nodeId[i]))
  {
    StringLessIff(a.nodeId, b.nodeId);
    hide StringLess;
    assert forall i: nat :: PartsBelow(a.nodeId, b.nodeId, i) <==>
      i <= |a.nodeId| && i < |b.nodeId| && a.nodeId[..i] == b.nodeId[..i] &&
      (i == |a.nodeId| || a.nodeId[i] < b.nodeId[i]);
  }

  /** A copy is newer exactly if the other's version is below its own. */
  lemma NewerIff(a: Value, b: Value)
    ensures Newer(a, b) <==> CompareVersion(b.version, a.version) < 0
    ensures Newer(a, b) <==> !Leq(a.version, b.version)
  {
    CompareVersionSeparates(a.version, b.version);
  }

  /** The comparison is antisymmetric and separates distinct versions. */
  lemma CompareVersionSeparates(a: Version, b: Version)
    ensures CompareVersion(a, b) == -CompareVersion(b, a)
    ensures CompareVersion(a, b) == 0 <==> a == b
  {
    StringLessTrichotomy(a.nodeId, b.nodeId);
  }

  lemma LeqTransitive(a: Version, b: Version, c: Version)
    requires Leq(a, b) && Leq(b, c)
    ensures Leq(a, c)
    ensures CompareVersion(a, b) < 0 || CompareVersion(b, c) < 0 ==> CompareVersion(a, c) < 0
  {
    CompareVersionSeparates(a, b);
    CompareVersionSeparates(b, c);
    if a.counter == b.counter == c.counter && StringLess(a.nodeId, b.nodeId) && StringLess(b.nodeId, c.nodeId) {
      StringLessTransitive(a.nodeId, b.nodeId, c.nodeId);
      StringLessTrichotomy(a.nodeId, c.nodeId);
    }
  }

  /** The version order is a total order: every finite group of copies has one newest version. */
  lemma VersionsTotallyOrdered()
    ensures forall a: Version :: Leq(a, a)
    ensures forall a: Version, b: Version :: Leq(a, b) || Leq(b, a)
    ensures forall a: Version, b: Version :: Leq(a, b) && Leq(b, a) ==> a == b
    ensures forall a: Version, b: Version, c: Version :: Leq(a, b) && Leq(b, c) ==> Leq(a, c)
  {
    forall a: Version, b: Version
      ensures Leq(a, b) || Leq(b, a)
      ensures Leq(a, b) && Leq(b, a) ==> a == b
      ensures Leq(a, a)
    {
      CompareVersionSeparates(a, b);
      CompareVersionSeparates(a, a);
    }
    forall a: Version, b: Version, c: Version | Leq(a, b) && Leq(b, c) ensures Leq(a, c) {
      LeqTransitive(a, b, c);
    }
  }
}
