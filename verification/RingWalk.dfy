/**
 Walking the ring clockwise (`GetN`) and the mutable ring object (internal/hashring/ring.go).
 */
module RingWalk {
  import opened Sequences
  import opened HashRing

  function AtLeast(h: Hash): Hash -> bool { p => h <= p }

  function Below(h: Hash): Hash -> bool { p => p < h }

  function Other(node: string): string -> bool { m => m != node }

  /** One clockwise lap over the sorted points, starting at the least point not below `h`. */
  function Lap(hashes: seq<Hash>, h: Hash): seq<Hash> {
    Keep(AtLeast(h), hashes) + Keep(Below(h), hashes)
  }

  /** Lookup with Go's map default: a point without an owner reads as the empty string. */
  function OwnerOf(nodes: map<Hash, string>, p: Hash): string {
    if p in nodes then nodes[p] else ""
  }

  function Owners(nodes: map<Hash, string>, ps: seq<Hash>): (r: seq<string>)
    ensures |r| == |ps|
  {
    if ps == [] then [] else Owners(nodes, ps[..|ps| - 1]) + [OwnerOf(nodes, ps[|ps| - 1])]
  }

  /** All members met on a lap from `h`, each once, in the order first met. */
  function Preference(s: State, h: Hash): (r: seq<string>)
    ensures Distinct(r)
  {
    FirstOccurrences(Owners(s.nodes, Lap(s.hashes, h)))
  }

  /** The replica list for a point: the first `n` members of the preference order. */
  function Replicas(s: State, h: Hash, n: int): (r: seq<string>)
    ensures Distinct(r)
  {
    if n <= 0 then [] else Preference(s, h)[..Min(n, |Preference(s, h)|)]
  }

  // ------------------------------------------------------------------ laps

  lemma {:induction false} OwnersMember(nodes: map<Hash, string>, ps: seq<Hash>, m: string)
    ensures m in Owners(nodes, ps) <==> exists p :: p in ps && OwnerOf(nodes, p) == m
  {
    if ps != [] {
      var n := |ps| - 1;
      OwnersMember(nodes, ps[..n], m);
      if m in Owners(nodes, ps) {
        if m in Owners(nodes, ps[..n]) {
          var p :| p in ps[..n] && OwnerOf(nodes, p) == m;
          assert p in ps;
        } else {
          assert OwnerOf(nodes, ps[n]) == m;
        }
      }
      if p :| p in ps && OwnerOf(nodes, p) == m {
        assert p in ps[..n] || p == ps[n];
      }
    }
  }

  lemma LapMember(hashes: seq<Hash>, h: Hash, p: Hash)
    ensures p in Lap(hashes, h) <==> p in hashes
  {
    KeepMember(AtLeast(h), hashes, p);
    KeepMember(Below(h), hashes, p);
  }

  lemma KeepSplit(f: Hash -> bool, a: seq<Hash>, b: seq<Hash>)
    requires forall j :: 0 <= j < |a| ==> f(a[j])
    requires forall j :: 0 <= j < |b| ==> !f(b[j])
    ensures Keep(f, a + b) == a && Keep(f, b + a) == a
  {
    KeepAppend(f, a, b);
    KeepAppend(f, b, a);
    KeepAll(f, a);
    KeepNone(f, b);
  }

  /** The position on the ring `t` places clockwise of index `first`. */
  function Clockwise(size: nat, first: nat, t: nat): int {
    if first + t < size then first + t else first + t - size
  }

  /** `lap` lists the points clockwise from index `first`. */
  ghost predicate IsLapFrom(hashes: seq<Hash>, first: nat, lap: seq<Hash>)
    requires first < |hashes|
  {
    && |lap| == |hashes|
    && forall t :: 0 <= t < |lap| ==> lap[t] == hashes[Clockwise(|hashes|, first, t)]
  }

  /** On sorted points the lap is the rotation that starts at the index a binary search finds. */
  lemma LapIsRotation(hashes: seq<Hash>, h: Hash, i: nat)
    requires 0 < |hashes| && i <= |hashes|
    requires forall j :: 0 <= j < i ==> hashes[j] < h
    requires forall j :: i <= j < |hashes| ==> h <= hashes[j]
    ensures IsLapFrom(hashes, if i == |hashes| then 0 else i, Lap(hashes, h))
  {
    hide Keep;
    var a, b := hashes[..i], hashes[i..];
    assert hashes == a + b;
    KeepSplit(AtLeast(h), b, a);
    KeepSplit(Below(h), a, b);
    assert Lap(hashes, h) == b + a;
  }

  lemma PointOnRing(l: Layout, s: State, p: Hash)
    requires Canonical(l, s)
    ensures p in s.hashes <==> p in s.nodes
  {
    assert multiset(s.hashes)[p] == Load(l, s.nodes, p);
    if p in s.nodes {
      assert Owns(l, s.nodes[p], p);
      assert p in multiset(Points(l, s.nodes[p]));
    }
  }

  lemma MemberOwnsFirstPoint(l: Layout, s: State, m: string)
    requires Canonical(l, s) && l.virtualNodes >= 1 && m in s.members
    ensures Point(l, m, 0) in s.nodes && s.nodes[Point(l, m, 0)] == m
  {
    PointListed(l, m, l.virtualNodes);
    assert Owns(l, m, Point(l, m, 0));
  }

  lemma {:induction false} PointListed(l: Layout, m: string, k: nat)
    requires k >= 1
    ensures Point(l, m, 0) in PointsUpTo(l, m, k)
  {
    if k > 1 {
      PointListed(l, m, k - 1);
    }
  }

  /** With at least one point per member, the preference order lists exactly the members. */
  lemma PreferenceListsMembers(l: Layout, s: State, h: Hash)
    requires Canonical(l, s) && l.virtualNodes >= 1
    ensures Elements(Preference(s, h)) == s.members
    ensures |Preference(s, h)| == |s.members|
  {
    var lap := Lap(s.hashes, h);
    forall m ensures m in Preference(s, h) <==> m in s.members {
      FirstOccurrencesMember(Owners(s.nodes, lap), m);
      OwnersMember(s.nodes, lap, m);
      if m in s.members {
        MemberOwnsFirstPoint(l, s, m);
        PointOnRing(l, s, Point(l, m, 0));
        LapMember(s.hashes, h, Point(l, m, 0));
        assert OwnerOf(s.nodes, Point(l, m, 0)) == m;
      }
      if m in Preference(s, h) {
        var p :| p in lap && OwnerOf(s.nodes, p) == m;
        LapMember(s.hashes, h, p);
        PointOnRing(l, s, p);
      }
    }
    DistinctSize(Preference(s, h));
  }

  lemma PointsNeedVirtualNodes(l: Layout, s: State)
    requires Canonical(l, s) && s.hashes != []
    ensures l.virtualNodes >= 1
  {
    var p := s.hashes[0];
    PointOnRing(l, s, p);
    assert Owns(l, s.nodes[p], p);
  }

  /** `GetN` is exact: min(n, members) distinct members. */
  lemma ReplicasExact(l: Layout, s: State, h: Hash, n: int)
    requires Canonical(l, s) && l.virtualNodes >= 1
    ensures |Replicas(s, h, n)| == if n <= 0 then 0 else Min(n, |s.members|)
    ensures Elements(Replicas(s, h, n)) <= s.members
    ensures n >= |s.members| ==> Elements(Replicas(s, h, n)) == s.members
  {
    PreferenceListsMembers(l, s, h);
    var p := Preference(s, h);
    forall m | m in Replicas(s, h, n) ensures m in s.members {
      assert m in p;
    }
    if n >= |s.members| && n > 0 {
      assert Replicas(s, h, n) == p;
    } else if n >= |s.members| {
      assert s.members == {};
    }
  }

  /** One point per member is needed: without it even a populated ring answers with no replica. */
  lemma ExactIffPoints(l: Layout, s: State, h: Hash, n: int)
    requires Canonical(l, s) && n >= 1 && s.members != {}
    ensures |Replicas(s, h, n)| == Min(n, |s.members|) <==> l.virtualNodes >= 1
  {
    if l.virtualNodes >= 1 {
      ReplicasExact(l, s, h, n);
    } else {
      if s.hashes != [] {
        PointsNeedVirtualNodes(l, s);
      }
      assert Lap(s.hashes, h) == [];
    }
  }

  // ------------------------------------------------------------------ minimal movement

  lemma {:induction false} OwnersKeep(nodes: map<Hash, string>, after: map<Hash, string>, drop: set<Hash>, x: string,
                                      ps: seq<Hash>)
    requires forall p :: p in ps ==> (p in drop <==> OwnerOf(nodes, p) == x)
    requires forall p :: p in ps && p !in drop ==> OwnerOf(after, p) == OwnerOf(nodes, p)
    ensures Owners(after, Keep(NotIn(drop), ps)) == Keep(Other(x), Owners(nodes, ps))
  {
    if ps != [] {
      var n := |ps| - 1;
      assert ps == ps[..n] + [ps[n]];
      OwnersKeep(nodes, after, drop, x, ps[..n]);
      var k, p := Keep(NotIn(drop), ps[..n]), ps[n];
      hide Keep, Owners, OwnerOf;
      OwnersLast(nodes, ps);
      OwnersLast(after, k + [p]);
      KeepLast(NotIn(drop), ps);
      KeepLast(Other(x), Owners(nodes, ps));
      assert (k + [p])[..|k|] == k && (k + [p])[|k|] == p;
      assert Owners(nodes, ps)[..n] == Owners(nodes, ps[..n]);
    }
  }

  lemma OwnersLast(nodes: map<Hash, string>, ps: seq<Hash>)
    requires ps != []
    ensures Owners(nodes, ps) == Owners(nodes, ps[..|ps| - 1]) + [OwnerOf(nodes, ps[|ps| - 1])]
  {
  }

  lemma LapKeep(f: Hash -> bool, hashes: seq<Hash>, h: Hash)
    ensures Lap(Keep(f, hashes), h) == Keep(f, Lap(hashes, h))
  {
    KeepCommutes(AtLeast(h), f, hashes);
    KeepCommutes(Below(h), f, hashes);
    KeepAppend(f, Keep(AtLeast(h), hashes), Keep(Below(h), hashes));
  }

  /** Removing a member deletes it from every preference order and changes nothing else. */
  lemma RemoveFromPreference(l: Layout, s: State, x: string, h: Hash)
    requires Canonical(l, s) && x in s.members
    ensures Preference(Removed(l, s, x), h) == Keep(Other(x), Preference(s, h))
  {
    var t, drop, lap := Removed(l, s, x), Elements(Points(l, x)), Lap(s.hashes, h);
    LapKeep(NotIn(drop), s.hashes, h);
    forall p | p in lap
      ensures p in drop <==> OwnerOf(s.nodes, p) == x
      ensures p !in drop ==> OwnerOf(t.nodes, p) == OwnerOf(s.nodes, p)
    {
      LapMember(s.hashes, h, p);
      PointOnRing(l, s, p);
      assert Owns(l, s.nodes[p], p);
      assert p in drop <==> Owns(l, x, p);
    }
    OwnersKeep(s.nodes, t.nodes, drop, x, lap);
    FirstOccurrencesKeep(Other(x), Owners(s.nodes, lap));
  }

  lemma {:induction false} KeepOtherPrefix(x: string, p: seq<string>, k: nat)
    requires Distinct(p) && k <= |p|
    ensures Keep(Other(x), p[..k]) <= Keep(Other(x), p)
    ensures k - 1 <= |Keep(Other(x), p[..k])| <= k
    ensures x !in p[..k] ==> |Keep(Other(x), p[..k])| == k
  {
    assert p == p[..k] + p[k..];
    KeepAppend(Other(x), p[..k], p[k..]);
    KeepOtherSize(x, p[..k]);
  }

  lemma {:induction false} KeepOtherSize(x: string, p: seq<string>)
    requires Distinct(p)
    ensures |Keep(Other(x), p)| == if x in p then |p| - 1 else |p|
  {
    if p != [] {
      var n := |p| - 1;
      assert p == p[..n] + [p[n]];
      KeepOtherSize(x, p[..n]);
    }
  }

  /**
   Minimal movement when `x` leaves: the old replica list without `x` is a prefix of the new one,
   so every other old replica stays a replica. Read from right to left it is minimal movement when
   `x` joins: at most one replica is displaced.
   */
  lemma MinimalMovement(l: Layout, s: State, x: string, h: Hash, n: int)
    requires Canonical(l, s) && x in s.members && l.virtualNodes >= 1
    ensures Keep(Other(x), Replicas(s, h, n)) <= Replicas(Removed(l, s, x), h, n)
    ensures |Replicas(Removed(l, s, x), h, n)| <= |Keep(Other(x), Replicas(s, h, n))| + 1
    ensures x !in Replicas(s, h, n) ==> Replicas(Removed(l, s, x), h, n) == Replicas(s, h, n)
    ensures forall m :: m in Replicas(s, h, n) && m != x ==> m in Replicas(Removed(l, s, x), h, n)
  {
    if n > 0 {
      var p := Preference(s, h);
      RemovedCanonical(l, s, x);
      RemoveFromPreference(l, s, x, h);
      PreferenceListsMembers(l, s, h);
      assert x in p by {
        assert x in Elements(p);
      }
      TakeWithout(x, p, n);
    }
  }

  /** The first `n` of a list, with and without one of its elements. */
  lemma TakeWithout(x: string, p: seq<string>, n: nat)
    requires Distinct(p) && x in p && n > 0
    ensures var a, q := p[..Min(n, |p|)], Keep(Other(x), p);
            var b := q[..Min(n, |q|)];
            && Keep(Other(x), a) <= b
            && |b| <= |Keep(Other(x), a)| + 1
            && (x !in a ==> b == a)
            && (forall m :: m in a && m != x ==> m in b)
  {
    var a, q := p[..Min(n, |p|)], Keep(Other(x), p);
    var b := q[..Min(n, |q|)];
    KeepOtherSize(x, p);
    KeepOtherPrefix(x, p, |a|);
    var kept := Keep(Other(x), a);
    assert kept <= b;
    if x !in a {
      KeepAll(Other(x), a);
      assert p[..|p|] == p;
    }
    forall m | m in a && m != x ensures m in b {
      KeepMember(Other(x), a, m);
    }
  }

  /** Minimal movement when `x` joins, in the words of the property for `Add`. */
  lemma MinimalMovementOnJoin(l: Layout, s: State, x: string, h: Hash, n: int)
    requires Canonical(l, s) && x !in s.members && Separate(l, s.members + {x}) && l.virtualNodes >= 1
    ensures Keep(Other(x), Replicas(Added(l, s, x), h, n)) <= Replicas(s, h, n)
    ensures |Replicas(s, h, n)| <= |Keep(Other(x), Replicas(Added(l, s, x), h, n))| + 1
    ensures x !in Replicas(Added(l, s, x), h, n) ==> Replicas(Added(l, s, x), h, n) == Replicas(s, h, n)
  {
    JoinThenLeave(l, s, x);
    AddedCanonical(l, s, x);
    MinimalMovement(l, Added(l, s, x), x, h, n);
  }

  /** Leaving undoes joining, points and multiplicities included. */
  lemma JoinThenLeave(l: Layout, s: State, x: string)
    requires Canonical(l, s) && x !in s.members && Separate(l, s.members + {x})
    ensures Removed(l, Added(l, s, x), x) == s
  {
    AddedCanonical(l, s, x);
    RemovedCanonical(l, Added(l, s, x), x);
    CanonicalUnique(l, Removed(l, Added(l, s, x), x), s);
  }

  /** Leaving undoes joining if and only if the newcomer's points miss everybody else's. */
  lemma JoinUndoneIff(l: Layout, s: State, x: string)
    requires Canonical(l, s) && x !in s.members
    ensures Removed(l, Added(l, s, x), x) == s <==> Separate(l, s.members + {x})
  {
    if Separate(l, s.members + {x}) {
      JoinThenLeave(l, s, x);
    } else {
      var a, b, h :| a in s.members + {x} && b in s.members + {x} && Owns(l, a, h) && Owns(l, b, h) && a != b;
      var m := if a == x then b else a;
      assert h in s.nodes && s.nodes[h] == m;
      assert h in Elements(Points(l, x)) && h !in Removed(l, Added(l, s, x), x).nodes;
    }
  }

  // ------------------------------------------------------------------ the mutable ring

  lemma EmptyRing(s: State, h: Hash)
    ensures s.hashes == [] ==> Preference(s, h) == []
  {
    if s.hashes == [] {
      assert Lap(s.hashes, h) == [];
    }
  }

  class Ring {
    const layout: Layout
    var nodes: map<Hash, string>
    var hashes: seq<Hash>
    var members: set<string>

    function Contents(): State
      reads this
    {
      State(nodes, hashes, members)
    }

    constructor (layout: Layout)
      ensures this.layout == layout && Contents() == EMPTY
    {
      this.layout := layout;
      nodes, hashes, members := map[], [], {};
    }

    method Add(node: string)
      modifies this
      ensures Contents() == Added(layout, old(Contents()), node)
    {
      if node in members {
        return;
      }
      members := members + {node};
      hide Assign, PointsUpTo, VirtualName;
      var i := 0;
      assert PointsUpTo(layout, node, 0) == [] && Assign(nodes, [], node) == nodes by {
        NoPoints(layout, nodes, node);
      }
      while i < layout.virtualNodes
        invariant 0 <= i <= layout.virtualNodes
        invariant members == old(members) + {node}
        invariant nodes == Assign(old(nodes), PointsUpTo(layout, node, i), node)
        invariant hashes == old(hashes) + PointsUpTo(layout, node, i)
      {
        var h := layout.hash(VirtualName(node, i));
        nodes := nodes[h := node];
        hashes := hashes + [h];
        AssignStep(layout, old(nodes), node, i);
        i := i + 1;
      }
      hashes := Sort(hashes);
    }

    method Remove(node: string)
      modifies this
      ensures Contents() == Removed(layout, old(Contents()), node)
    {
      if node !in members {
        return;
      }
      members := members - {node};
      var remove: set<Hash> := {};
      var i := 0;
      while i < layout.virtualNodes
        invariant 0 <= i <= layout.virtualNodes
        invariant members == old(members) - {node} && hashes == old(hashes)
        invariant remove == Elements(PointsUpTo(layout, node, i))
        invariant nodes == old(nodes) - remove
      {
        var h := layout.hash(VirtualName(node, i));
        nodes := nodes - {h};
        remove := remove + {h};
        i := i + 1;
      }
      var points := hashes;
      var list := new Hash[|points|](k requires 0 <= k < |points| => points[k]);
      assert list[..] == points;
      var kept := Compact(list, remove);
      hashes := list[..kept];
    }

    /** Least index whose point is not below `h`, or the number of points. */
    method Search(h: Hash) returns (i: nat)
      requires Sorted(hashes)
      ensures i <= |hashes|
      ensures forall j :: 0 <= j < i ==> hashes[j] < h
      ensures forall j :: i <= j < |hashes| ==> h <= hashes[j]
    {
      i := 0;
      var high := |hashes|;
      while i < high
        invariant 0 <= i <= high <= |hashes|
        invariant forall j :: 0 <= j < i ==> hashes[j] < h
        invariant forall j :: high <= j < |hashes| ==> h <= hashes[j]
      {
        var mid := (i + high) / 2;
        if h <= hashes[mid] {
          high := mid;
        } else {
          i := mid + 1;
        }
      }
    }

    /**
     On every ring reached by `Add` and `Remove`, colliding points included, on which the walk ends, it ends within
     one lap and returns the first members of the preference order, as many as are wanted and there are.
     Without collisions that is every ring, and the result is `Replicas`.
     */
    method GetN(key: string, n: int) returns (result: seq<string>)
      requires Owned(Contents()) && Ends(Contents(), layout.hash(key), n)
      ensures result == Chosen(Contents(), layout.hash(key), n)
      ensures Canonical(layout, Contents()) ==> result == Replicas(Contents(), layout.hash(key), n)
    {
      var h := layout.hash(key);
      ChosenReplicas(layout, Contents(), h, n);
      hide OwnersRight, Load, Lap, Owners, FirstOccurrences, Canonical;
      if |hashes| == 0 || n <= 0 {
        EmptyRing(Contents(), h);
        return [];
      }
      var want := if n > |members| then |members| else n;
      var idx := Search(h);
      LapIsRotation(hashes, h, idx);
      if idx == |hashes| {
        idx := 0;
      }
      ghost var met := Owners(nodes, Lap(hashes, h));
      OwnersAt(nodes, Lap(hashes, h));
      ghost var t;
      result, t := Walk(nodes, hashes, idx, want, met);
      StopsRight(Contents(), h, t, want);
    }
  }

  /** The in-place filter of `Remove`: kept points move to the front of the very list being read. */
  method Compact(list: array<Hash>, remove: set<Hash>) returns (kept: nat)
    modifies list
    ensures kept <= list.Length && list[..kept] == Keep(NotIn(remove), old(list[..]))
  {
    ghost var was := list[..];
    kept := 0;
    var i := 0;
    while i < list.Length
      invariant kept <= i <= list.Length
      invariant list[..kept] == Keep(NotIn(remove), was[..i])
      invariant forall j :: i <= j < list.Length ==> list[j] == was[j]
    {
      assert was[..i + 1][..i] == was[..i];
      if list[i] !in remove {
        list[kept] := list[i];
        kept := kept + 1;
      }
      i := i + 1;
    }
    assert was[..i] == was;
  }

  // ------------------------------------------------------------------ the walk on any ring

  /** Points are sorted, and exactly the listed ones have an owner. */
  ghost predicate Owned(s: State) {
    Sorted(s.hashes) && forall p :: p in s.hashes <==> p in s.nodes
  }

  /** How many owners `GetN` looks for. */
  function Wanted(s: State, n: int): nat {
    if n <= 0 then 0 else if n > |s.members| then |s.members| else n
  }

  /** The points have as many owners as are wanted, or no two of them share one. */
  ghost predicate Ends(s: State, h: Hash, n: int) {
    s.hashes == [] || n <= 0 || |Preference(s, h)| >= Wanted(s, n) || |Preference(s, h)| >= |s.nodes|
  }

  /** What `GetN` returns where it returns. */
  ghost function Chosen(s: State, h: Hash, n: int): seq<string> {
    Preference(s, h)[..Min(Wanted(s, n), |Preference(s, h)|)]
  }

  lemma AddedOwned(l: Layout, s: State, node: string)
    requires Owned(s)
    ensures Owned(Added(l, s, node))
  {
    var points := Points(l, node);
    SortIsSorted(s.hashes + points);
    forall p
      ensures p in Sort(s.hashes + points) <==> p in s.hashes || p in points
      ensures p in Assign(s.nodes, points, node) <==> p in s.nodes || p in points
    {
      SortMember(s.hashes + points, p);
      AssignLookup(s.nodes, points, node, p);
    }
  }

  lemma RemovedOwned(l: Layout, s: State, node: string)
    requires Owned(s)
    ensures Owned(Removed(l, s, node))
  {
    var drop := Elements(Points(l, node));
    KeepSorted(NotIn(drop), s.hashes);
    forall p
      ensures p in Keep(NotIn(drop), s.hashes) <==> p in s.hashes && p !in drop
    {
      KeepMember(NotIn(drop), s.hashes, p);
    }
  }

  lemma {:induction false} BuiltOwned(l: Layout, nodes: seq<string>)
    ensures Owned(Built(l, nodes))
  {
    if nodes != [] {
      BuiltOwned(l, nodes[..|nodes| - 1]);
      AddedOwned(l, Built(l, nodes[..|nodes| - 1]), nodes[|nodes| - 1]);
    }
  }

  /** Every ring reached by joins and leaves is well owned, whatever collides. */
  lemma {:induction false} ReachableOwned(l: Layout, start: seq<string>, changes: seq<Change>)
    ensures Owned(AfterChanges(l, Built(l, start), changes))
  {
    if changes == [] {
      BuiltOwned(l, start);
    } else {
      var n := |changes| - 1;
      ReachableOwned(l, start, changes[..n]);
      var t := AfterChanges(l, Built(l, start), changes[..n]);
      hide Owned, Added, Removed;
      AddedOwned(l, t, changes[n].node);
      RemovedOwned(l, t, changes[n].node);
    }
  }

  lemma CanonicalOwned(l: Layout, s: State)
    requires Canonical(l, s)
    ensures Owned(s)
  {
    forall p
      ensures p in s.hashes <==> p in s.nodes
    {
      PointOnRing(l, s, p);
    }
  }

  /** Without collisions the owners are known, and the walk ends and chooses the replicas. */
  lemma ChosenReplicas(l: Layout, s: State, h: Hash, n: int)
    ensures Canonical(l, s) ==> Owned(s) && Ends(s, h, n) && Chosen(s, h, n) == Replicas(s, h, n)
  {
    if Canonical(l, s) {
      hide *;
      CanonicalOwned(l, s);
      CanonicalEnds(l, s, h, n);
    }
  }

  lemma CanonicalEnds(l: Layout, s: State, h: Hash, n: int)
    requires Canonical(l, s)
    ensures Ends(s, h, n) && Chosen(s, h, n) == Replicas(s, h, n)
  {
    if s.hashes == [] {
      EmptyRing(s, h);
    } else {
      PointsNeedVirtualNodes(l, s);
      PreferenceListsMembers(l, s, h);
      hide Canonical, Preference;
    }
  }

  lemma {:induction false} ImageSize(nodes: map<Hash, string>, points: set<Hash>)
    requires points <= nodes.Keys
    ensures |set p | p in points :: nodes[p]| <= |points|
    decreases |points|
  {
    var image := set p | p in points :: nodes[p];
    if points == {} {
      assert image == {};
    } else {
      var x :| x in points;
      ImageSize(nodes, points - {x});
      var rest := set p | p in points - {x} :: nodes[p];
      assert image == rest + {nodes[x]};
    }
  }

  /** No more owners than points. */
  lemma PreferenceFits(s: State, h: Hash)
    requires Owned(s)
    ensures |Preference(s, h)| <= |s.nodes|
  {
    var lap := Lap(s.hashes, h);
    var image := set p | p in s.nodes.Keys :: s.nodes[p];
    forall m | m in Preference(s, h)
      ensures m in image
    {
      FirstOccurrencesMember(Owners(s.nodes, lap), m);
      OwnersMember(s.nodes, lap, m);
      var p :| p in lap && OwnerOf(s.nodes, p) == m;
      LapMember(s.hashes, h, p);
      assert p in s.nodes.Keys;
    }
    ImageSize(s.nodes, s.nodes.Keys);
    DistinctSize(Preference(s, h));
    SubsetSize(Elements(Preference(s, h)), image);
  }

  /** Either loop exit leaves the chosen members collected. */
  lemma StopsRight(s: State, h: Hash, t: nat, want: nat)
    requires Owned(s) && t <= |Owners(s.nodes, Lap(s.hashes, h))|
    ensures var r := FirstOccurrences(Owners(s.nodes, Lap(s.hashes, h))[..t]);
            |r| <= want && (|r| >= want || |r| >= |s.nodes|) ==> r == Preference(s, h)[..Min(want, |Preference(s, h)|)]
  {
    var met := Owners(s.nodes, Lap(s.hashes, h));
    FirstOccurrencesPrefix(met, t);
    PreferenceFits(s, h);
  }

  /** What the collecting loop knows after `t` steps. */
  ghost predicate Walked(met: seq<string>, t: nat, result: seq<string>, seen: set<string>) {
    t <= |met| && result == FirstOccurrences(met[..t]) && seen == Elements(result) && |seen| == |result|
  }

  lemma WalkBegins(met: seq<string>)
    ensures Walked(met, 0, [], {})
  {
  }

  lemma WalkSeen(met: seq<string>, t: nat, result: seq<string>, seen: set<string>)
    requires Walked(met, t, result, seen) && t < |met| && met[t] in seen
    ensures Walked(met, t + 1, result, seen)
  {
    assert met[..t + 1][..t] == met[..t];
  }

  lemma WalkNew(met: seq<string>, t: nat, result: seq<string>, seen: set<string>)
    requires Walked(met, t, result, seen) && t < |met| && met[t] !in seen
    ensures Walked(met, t + 1, result + [met[t]], seen + {met[t]})
  {
    assert met[..t + 1][..t] == met[..t];
    assert FirstOccurrences(met[..t + 1]) == result + [met[t]];
    assert Elements(result + [met[t]]) == seen + {met[t]};
  }

  /** After a whole lap everything was met. */
  lemma WalkedSizes(met: seq<string>, t: nat, result: seq<string>, seen: set<string>)
    requires Walked(met, t, result, seen)
    ensures t <= |met| && |seen| == |result| && result == FirstOccurrences(met[..t])
    ensures t == |met| ==> result == FirstOccurrences(met)
  {
    assert met[..|met|] == met;
  }

  /** `met` lists the owners met on the lap from `first`. */
  ghost predicate MetFrom(nodes: map<Hash, string>, hashes: seq<Hash>, first: nat, met: seq<string>) {
    && first < |hashes| == |met|
    && forall t :: 0 <= t < |met| ==> met[t] == OwnerOf(nodes, hashes[Clockwise(|hashes|, first, t)])
  }

  /** Where the walk stands after `t` steps. */
  predicate At(size: nat, first: nat, t: nat, idx: nat) {
    idx < size && (t < size ==> idx == Clockwise(size, first, t))
  }

  lemma MetHere(nodes: map<Hash, string>, hashes: seq<Hash>, first: nat, met: seq<string>, t: nat, idx: nat)
    requires MetFrom(nodes, hashes, first, met) && t < |met| && At(|hashes|, first, t, idx)
    ensures idx < |hashes| && met[t] == OwnerOf(nodes, hashes[idx])
  {
  }

  /**
   The collecting loop of `GetN`: clockwise from `first`, until enough
   members or as many as there are points were seen.
   */
  method Walk(nodes: map<Hash, string>, hashes: seq<Hash>, first: nat, want: nat, ghost met: seq<string>)
    returns (result: seq<string>, ghost t: nat)
    requires MetFrom(nodes, hashes, first, met)
    requires |FirstOccurrences(met)| >= want || |FirstOccurrences(met)| >= |nodes|
    ensures t <= |hashes| && result == FirstOccurrences(met[..t])
    ensures |result| <= want && (|result| >= want || |result| >= |nodes|)
  {
    var idx: nat := first;
    var seen: set<string> := {};
    result := [];
    t := 0;
    WalkBegins(met);
    assert |hashes| == |met| && At(|hashes|, first, 0, first);
    hide *;
    while |result| < want && |seen| < |nodes|
      invariant At(|hashes|, first, t, idx) && Walked(met, t, result, seen) && t <= |hashes|
      invariant |result| <= want
      decreases |hashes| - t
    {
      WalkedSizes(met, t, result, seen);
      MetHere(nodes, hashes, first, met, t, idx);
      var node := OwnerOf(nodes, hashes[idx]);
      if node !in seen {
        WalkNew(met, t, result, seen);
        seen := seen + {node};
        result := result + [node];
      } else {
        WalkSeen(met, t, result, seen);
      }
      idx := Next(|hashes|, first, t, idx);
      t := t + 1;
    }
    WalkedSizes(met, t, result, seen);
  }

  /** One index on, and around. */
  method Next(size: nat, ghost first: nat, ghost t: nat, at: nat) returns (idx: nat)
    requires first < size && t < size && At(size, first, t, at)
    ensures At(size, first, t + 1, idx)
  {
    idx := at + 1;
    if idx == size {
      idx := 0;
    }
  }

  lemma {:induction false} OwnersAt(nodes: map<Hash, string>, ps: seq<Hash>)
    ensures forall t :: 0 <= t < |ps| ==> Owners(nodes, ps)[t] == OwnerOf(nodes, ps[t])
  {
    if ps != [] {
      OwnersAt(nodes, ps[..|ps| - 1]);
    }
  }

  lemma NoPoints(l: Layout, nodes: map<Hash, string>, node: string)
    ensures PointsUpTo(l, node, 0) == []
    ensures Assign(nodes, [], node) == nodes
  {
  }

  lemma AssignStep(l: Layout, nodes: map<Hash, string>, node: string, k: nat)
    ensures Assign(nodes, PointsUpTo(l, node, k + 1), node) ==
              Assign(nodes, PointsUpTo(l, node, k), node)[Point(l, node, k) := node]
    ensures PointsUpTo(l, node, k + 1) == PointsUpTo(l, node, k) + [Point(l, node, k)]
  {
    var points := PointsUpTo(l, node, k + 1);
    assert points[..|points| - 1] == PointsUpTo(l, node, k);
  }
}
