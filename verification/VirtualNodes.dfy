/**
 The points of a ring (internal/hashring/ring.go): names of virtual nodes never coincide, so with a hash that
 separates them every member has its full number of points, and a key belongs to the owner of the next one.
 */
module VirtualNodes {
  import opened Sequences
  import opened HashRing
  import opened RingWalk

  // ------------------------------------------------------------------ names

  predicate IsDigit(c: char) {
    '0' <= c <= '9'
  }

  predicate AllDigits(digits: string) {
    forall i :: 0 <= i < |digits| ==> IsDigit(digits[i])
  }

  /** The number a string of decimal digits stands for. */
  function NumberOf(digits: string): int {
    if digits == "" then 0
    else 10 * NumberOf(digits[..|digits| - 1]) + (digits[|digits| - 1] as int - '0' as int)
  }

  lemma {:induction false} DecimalReadsBack(n: nat)
    ensures Decimal(n) != "" && AllDigits(Decimal(n))
    ensures NumberOf(Decimal(n)) == n
  {
    var digit := "0123456789"[n % 10];
    assert digit as int - '0' as int == n % 10;
    if n >= 10 {
      DecimalReadsBack(n / 10);
      LastDigit(Decimal(n / 10), digit);
    } else {
      LastDigit("", digit);
    }
  }

  lemma LastDigit(digits: string, c: char)
    ensures NumberOf(digits + [c]) == 10 * NumberOf(digits) + (c as int - '0' as int)
  {
    assert (digits + [c])[..|digits|] == digits;
  }

  /** A name is the member's address, a `#` and a number. */
  lemma VirtualNameReadsBack(node: string, i: nat)
    ensures var name := VirtualName(node, i);
            && |name| > |node| && name[..|node|] == node && name[|node|] == '#'
            && AllDigits(name[|node| + 1..]) && NumberOf(name[|node| + 1..]) == i
  {
    DecimalReadsBack(i);
    assert VirtualName(node, i)[|node| + 1..] == Decimal(i);
  }

  /** No two virtual nodes share a name, even if addresses contain `#`. */
  lemma VirtualNamesDiffer(a: string, i: nat, b: string, j: nat)
    ensures VirtualName(a, i) == VirtualName(b, j) <==> a == b && i == j
  {
    VirtualNameReadsBack(a, i);
    VirtualNameReadsBack(b, j);
    hide VirtualName, NumberOf;
    if |a| < |b| {
      ShorterDiffers(a, i, b, j);
    } else if |b| < |a| {
      ShorterDiffers(b, j, a, i);
    }
  }

  lemma ShorterDiffers(a: string, i: nat, b: string, j: nat)
    requires |a| < |b|
    ensures VirtualName(a, i) != VirtualName(b, j)
  {
    VirtualNameReadsBack(a, i);
    VirtualNameReadsBack(b, j);
    hide VirtualName, NumberOf;
    var name := VirtualName(a, i);
    if |name| > |b| {
      assert name[|b|] == name[|a| + 1..][|b| - |a| - 1];
    }
  }

  // ------------------------------------------------------------------ points

  /** The hash separates the names of all virtual nodes of these members. */
  ghost predicate NamesApart(l: Layout, members: set<string>) {
    forall a, b, i: nat, j: nat | a in members && b in members && i < l.virtualNodes && j < l.virtualNodes ::
      Point(l, a, i) == Point(l, b, j) ==> a == b && i == j
  }

  lemma {:induction false} PointsAre(l: Layout, node: string, k: nat)
    ensures |PointsUpTo(l, node, k)| == k
    ensures forall i :: 0 <= i < k ==> PointsUpTo(l, node, k)[i] == l.hash(node + "#" + Decimal(i))
  {
    if k > 0 {
      PointsAre(l, node, k - 1);
    }
  }

  /** A member's points are the hashes of its address with the numbers below the number of virtual nodes. */
  lemma OwnsIff(l: Layout, node: string, h: Hash)
    ensures Owns(l, node, h) <==> exists i: nat :: i < l.virtualNodes && Point(l, node, i) == h
  {
    PointsAre(l, node, l.virtualNodes);
    if Owns(l, node, h) {
      var i :| 0 <= i < |Points(l, node)| && Points(l, node)[i] == h;
      assert Point(l, node, i) == h;
    }
    if i: nat :| i < l.virtualNodes && Point(l, node, i) == h {
      assert Points(l, node)[i] == h;
    }
  }

  lemma ApartSeparate(l: Layout, members: set<string>)
    requires NamesApart(l, members)
    ensures Separate(l, members)
  {
    forall a, b, h | a in members && b in members && Owns(l, a, h) && Owns(l, b, h)
      ensures a == b
    {
      OwnsIff(l, a, h);
      OwnsIff(l, b, h);
    }
  }

  lemma PointsDistinct(l: Layout, node: string, members: set<string>)
    requires NamesApart(l, members) && node in members
    ensures Distinct(Points(l, node)) && |Points(l, node)| == l.virtualNodes
  {
    PointsAre(l, node, l.virtualNodes);
    forall i, j | 0 <= i < j < l.virtualNodes
      ensures Points(l, node)[i] != Points(l, node)[j]
    {
      assert Point(l, node, i) == Points(l, node)[i] && Point(l, node, j) == Points(l, node)[j];
    }
  }

  /** All points of these members. */
  ghost function AllPoints(l: Layout, members: set<string>): set<Hash> {
    set m, h | m in members && h in Elements(Points(l, m)) :: h
  }

  lemma {:induction false} AllPointsSize(l: Layout, members: set<string>)
    requires NamesApart(l, members)
    ensures |AllPoints(l, members)| == |members| * l.virtualNodes
    decreases |members|
  {
    if members == {} {
      assert AllPoints(l, members) == {};
    } else {
      var m :| m in members;
      var rest := members - {m};
      AllPointsSize(l, rest);
      PointsDistinct(l, m, members);
      DistinctSize(Points(l, m));
      ApartSeparate(l, members);
      AddMember(l, m, rest);
      assert members == rest + {m};
      OneMore(|rest|, l.virtualNodes);
    }
  }

  lemma OneMore(n: nat, v: nat)
    ensures (n + 1) * v == n * v + v
  {
  }

  lemma AddMember(l: Layout, m: string, rest: set<string>)
    requires m !in rest && Separate(l, rest + {m})
    ensures |AllPoints(l, rest + {m})| == |AllPoints(l, rest)| + |Elements(Points(l, m))|
  {
    var own, others := Elements(Points(l, m)), AllPoints(l, rest);
    forall h | h in others
      ensures h !in own
    {
      var o :| o in rest && h in Points(l, o);
      assert Owns(l, o, h) && o != m && m in rest + {m} && o in rest + {m};
      assert !Owns(l, m, h);
    }
    hide Separate;
    assert AllPoints(l, rest + {m}) == others + own;
    assert others * own == {};
  }

  /** `p` is the hash of one of the names of this member. */
  ghost predicate PointOf(l: Layout, m: string, p: Hash) {
    exists i: nat :: i < l.virtualNodes && l.hash(m + "#" + Decimal(i)) == p
  }

  /**
   With a hash that separates the names, a ring lists every member's points once each: as many as there are
   virtual nodes for every member, exactly the hashes of the names, each owned by the member it is named after.
   */
  lemma RingPoints(l: Layout, s: State)
    requires Canonical(l, s) && NamesApart(l, s.members)
    ensures Distinct(s.hashes) && |s.hashes| == |s.members| * l.virtualNodes
    ensures forall p :: p in s.hashes <==> p in s.nodes
    ensures forall p :: p in s.nodes ==> s.nodes[p] in s.members
    ensures forall m, p :: m in s.members ==> (PointOf(l, m, p) <==> p in s.nodes && s.nodes[p] == m)
  {
    hide *;
    RingSize(l, s);
    CanonicalOwned(l, s);
    OwnedPoints(s);
    forall m, p | m in s.members
      ensures PointOf(l, m, p) <==> p in s.nodes && s.nodes[p] == m
    {
      PointOwner(l, s, m, p);
    }
    OwnersAreMembers(l, s);
  }

  lemma OwnedPoints(s: State)
    requires Owned(s)
    ensures forall p :: p in s.hashes <==> p in s.nodes
  {
  }

  lemma OwnersAreMembers(l: Layout, s: State)
    requires Canonical(l, s)
    ensures forall p :: p in s.nodes ==> s.nodes[p] in s.members
  {
  }

  lemma PointOwner(l: Layout, s: State, m: string, p: Hash)
    requires Canonical(l, s) && m in s.members
    ensures PointOf(l, m, p) <==> p in s.nodes && s.nodes[p] == m
  {
    PointOfOwns(l, m, p);
    assert Owns(l, m, p) <==> PointOf(l, m, p);
    hide PointOf;
  }

  lemma PointOfOwns(l: Layout, m: string, p: Hash)
    ensures PointOf(l, m, p) <==> p in Points(l, m)
  {
    OwnsIff(l, m, p);
    PointsAre(l, m, l.virtualNodes);
    hide Decimal, Point;
    assert Owns(l, m, p) <==> PointOf(l, m, p);
  }

  /** A member that joins any ring gets one entry for each of its names, and owns the points whoever had them before. */
  lemma AddedPoints(l: Layout, s: State, node: string, p: Hash)
    requires node !in s.members
    ensures var t := Added(l, s, node);
            && t.members == s.members + {node} && |t.hashes| == |s.hashes| + l.virtualNodes
            && (p in t.hashes <==> p in s.hashes || PointOf(l, node, p))
            && (p in t.nodes <==> p in s.nodes || PointOf(l, node, p))
            && (p in t.nodes ==> t.nodes[p] == if PointOf(l, node, p) then node else s.nodes[p])
  {
    PointOfOwns(l, node, p);
    PointsAre(l, node, l.virtualNodes);
    assert |Points(l, node)| == l.virtualNodes;
    hide Points, PointOf;
    SortMember(s.hashes + Points(l, node), p);
    SortMultiset(s.hashes + Points(l, node));
    SameSize(Sort(s.hashes + Points(l, node)), s.hashes + Points(l, node));
    AssignLookup(s.nodes, Points(l, node), node, p);
  }

  /** A member that leaves any ring takes all its points with it, and nothing else. */
  lemma RemovedPoints(l: Layout, s: State, node: string, p: Hash)
    requires node in s.members
    ensures var t := Removed(l, s, node);
            && t.members == s.members - {node}
            && (p in t.hashes <==> p in s.hashes && !PointOf(l, node, p))
            && (p in t.nodes <==> p in s.nodes && !PointOf(l, node, p))
            && (p in t.nodes ==> t.nodes[p] == s.nodes[p])
  {
    PointOfOwns(l, node, p);
    KeepMember(NotIn(Elements(Points(l, node))), s.hashes, p);
    hide Points, PointOf, Keep;
  }

  lemma RingSize(l: Layout, s: State)
    requires Canonical(l, s) && NamesApart(l, s.members)
    ensures Distinct(s.hashes) && |s.hashes| == |s.members| * l.virtualNodes
  {
    hide Canonical, NamesApart, Points;
    AllPointsSize(l, s.members);
    hide AllPoints;
    forall h
      ensures h in s.hashes <==> h in AllPoints(l, s.members)
      ensures multiset(s.hashes)[h] <= 1
    {
      ListedOnce(l, s, h);
    }
    OnceIsDistinct(s.hashes);
    DistinctSize(s.hashes);
    assert Elements(s.hashes) == AllPoints(l, s.members);
  }

  lemma ListedOnce(l: Layout, s: State, h: Hash)
    requires Canonical(l, s) && NamesApart(l, s.members)
    ensures h in s.hashes <==> h in AllPoints(l, s.members)
    ensures multiset(s.hashes)[h] <= 1
  {
    hide NamesApart, Points, Distinct;
    assert multiset(s.hashes)[h] == Load(l, s.nodes, h);
    assert h in s.hashes <==> multiset(s.hashes)[h] > 0;
    if h in s.nodes {
      var m := s.nodes[h];
      assert m in s.members && Owns(l, m, h);
      PointsDistinct(l, m, s.members);
      DistinctOnce(Points(l, m), h);
      assert h in Elements(Points(l, m));
    } else {
      forall m | m in s.members
        ensures h !in Points(l, m)
      {
        assert Owns(l, m, h) ==> h in s.nodes;
      }
    }
  }

  lemma {:induction false} DistinctOnce(hs: seq<Hash>, h: Hash)
    requires Distinct(hs)
    ensures multiset(hs)[h] == if h in hs then 1 else 0
  {
    if hs != [] {
      var n := |hs| - 1;
      DistinctOnce(hs[..n], h);
      assert hs == hs[..n] + [hs[n]];
    }
  }

  lemma OnceIsDistinct(hs: seq<Hash>)
    requires forall h :: multiset(hs)[h] <= 1
    ensures Distinct(hs)
  {
    forall i, j | 0 <= i < j < |hs|
      ensures hs[i] != hs[j]
    {
      assert hs == hs[..j] + [hs[j]] + hs[j + 1..];
      assert hs[..j][i] == hs[i] && multiset(hs[..j])[hs[i]] >= 1;
      assert multiset(hs)[hs[j]] == multiset(hs[..j])[hs[j]] + 1 + multiset(hs[j + 1..])[hs[j]];
    }
  }

  // ------------------------------------------------------------------ the nearest point

  /** The next point clockwise from `h`: the least one not below it, or the least one of all. */
  ghost predicate NextPoint(hashes: seq<Hash>, h: Hash, p: Hash) {
    p in hashes &&
    if p >= h then forall q :: q in hashes && q >= h ==> p <= q
    else forall q :: q in hashes ==> q < h && p <= q
  }

  lemma LeastKept(f: Hash -> bool, hs: seq<Hash>, p: Hash)
    requires Sorted(hs) && p in hs && f(p) && forall q :: q in hs && f(q) ==> p <= q
    ensures Keep(f, hs) != [] && Keep(f, hs)[0] == p
  {
    KeepSorted(f, hs);
    KeepMember(f, hs, p);
    KeepMember(f, hs, Keep(f, hs)[0]);
    hide Keep;
  }

  lemma LapStartsAtNext(hashes: seq<Hash>, h: Hash, p: Hash)
    requires Sorted(hashes) && NextPoint(hashes, h, p)
    ensures Lap(hashes, h) != [] && Lap(hashes, h)[0] == p
  {
    hide Keep, Sorted;
    if p >= h {
      LeastKept(AtLeast(h), hashes, p);
    } else {
      LeastKept(Below(h), hashes, p);
      assert forall i :: 0 <= i < |hashes| ==> hashes[i] in hashes;
      KeepNone(AtLeast(h), hashes);
    }
  }

  /** The first replica of a key is the owner of the next point clockwise from its hash. */
  lemma FirstReplicaIsNext(s: State, h: Hash, p: Hash, n: int)
    requires Owned(s) && NextPoint(s.hashes, h, p) && n > 0
    ensures Replicas(s, h, n) != [] && Replicas(s, h, n)[0] == s.nodes[p]
  {
    LapStartsAtNext(s.hashes, h, p);
    var owners := Owners(s.nodes, Lap(s.hashes, h));
    OwnersAt(s.nodes, Lap(s.hashes, h));
    hide Lap, Owners, Sorted;
    FirstOccurrencesPrefix(owners, 1);
    FirstOfOne(owners[0]);
    assert owners[..1] == [owners[0]];
  }

  lemma FirstOfOne<T>(x: T)
    ensures FirstOccurrences([x]) == [x]
  {
    assert [x][..0] == [];
  }
}
