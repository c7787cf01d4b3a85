/**
 When the walk of `GetN` ends (internal/hashring/ring.go), on any ring whatever, colliding points included.
 Its guard compares the owners met with the number of points, not with the number of owners.
 */
module RingExit {
  import opened Sequences
  import opened HashRing
  import opened RingWalk

  /** The owner met at step `t` of a walk that goes round and round. */
  function MetAt(s: State, h: Hash, t: nat): string
    requires s.hashes != []
  {
    var lap := Lap(s.hashes, h);
    LapMember(s.hashes, h, s.hashes[0]);
    OwnerOf(s.nodes, lap[t % |lap|])
  }

  /** The members collected after `t` steps. */
  function Collected(s: State, h: Hash, t: nat): seq<string>
    requires s.hashes != []
  {
    FirstOccurrences(seq(t, i requires 0 <= i < t => MetAt(s, h, i)))
  }

  /** The loop guard is false after `t` steps. */
  predicate Exits(s: State, h: Hash, want: nat, t: nat)
    requires s.hashes != []
  {
    |Collected(s, h, t)| >= want || |Collected(s, h, t)| >= |s.nodes|
  }

  lemma CollectedPreferred(s: State, h: Hash, t: nat)
    requires s.hashes != []
    ensures Elements(Collected(s, h, t)) <= Elements(Preference(s, h))
    ensures |Collected(s, h, t)| <= |Preference(s, h)|
  {
    hide Lap, Preference, Owners, FirstOccurrences, Distinct, MetAt, Collected;
    forall m | m in Collected(s, h, t)
      ensures m in Preference(s, h)
    {
      MetPreferred(s, h, t, m);
    }
    CollectedDistinct(s, h, t);
    DistinctSize(Collected(s, h, t));
    DistinctSize(Preference(s, h));
    SubsetSize(Elements(Collected(s, h, t)), Elements(Preference(s, h)));
  }

  lemma CollectedDistinct(s: State, h: Hash, t: nat)
    requires s.hashes != []
    ensures Distinct(Collected(s, h, t))
  {
    hide MetAt, Distinct;
  }

  /** Whatever a walk of any length meets is in the preference order. */
  lemma MetPreferred(s: State, h: Hash, t: nat, m: string)
    requires s.hashes != [] && m in Collected(s, h, t)
    ensures m in Preference(s, h)
  {
    var lap := Lap(s.hashes, h);
    LapMember(s.hashes, h, s.hashes[0]);
    hide Lap, Owners, FirstOccurrences, Distinct;
    var met := seq(t, i requires 0 <= i < t => MetAt(s, h, i));
    FirstOccurrencesMember(met, m);
    var i :| 0 <= i < t && met[i] == m;
    assert lap[i % |lap|] in lap && OwnerOf(s.nodes, lap[i % |lap|]) == m;
    OwnersMember(s.nodes, lap, m);
    FirstOccurrencesMember(Owners(s.nodes, lap), m);
  }

  lemma SmallRemainder(i: nat, n: nat)
    requires i < n
    ensures i % n == i
  {
  }

  lemma MetOnFirstLap(s: State, h: Hash, i: nat)
    requires s.hashes != [] && i < |Lap(s.hashes, h)|
    ensures MetAt(s, h, i) == Owners(s.nodes, Lap(s.hashes, h))[i]
  {
    var lap := Lap(s.hashes, h);
    OwnersAt(s.nodes, lap);
    hide Lap, Owners;
    SmallRemainder(i, |lap|);
  }

  lemma OneLapCollectsAll(s: State, h: Hash)
    requires s.hashes != []
    ensures Collected(s, h, |Lap(s.hashes, h)|) == Preference(s, h)
  {
    var lap := Lap(s.hashes, h);
    var met := seq(|lap|, i requires 0 <= i < |lap| => MetAt(s, h, i));
    hide Lap, Owners, MetAt, FirstOccurrences;
    forall i | 0 <= i < |lap|
      ensures met[i] == Owners(s.nodes, lap)[i]
    {
      MetOnFirstLap(s, h, i);
    }
    assert met == Owners(s.nodes, lap);
  }

  /**
   On every ring that has points, the walk ends if and only if the points have at least as many different
   owners as are wanted, or no two points share an owner.
   */
  lemma EndsIff(s: State, h: Hash, want: nat)
    requires s.hashes != []
    ensures (exists t: nat :: Exits(s, h, want, t)) <==>
              |Preference(s, h)| >= want || |Preference(s, h)| >= |s.nodes|
  {
    OneLapCollectsAll(s, h);
    if |Preference(s, h)| >= want || |Preference(s, h)| >= |s.nodes| {
      assert Exits(s, h, want, |Lap(s.hashes, h)|);
    }
    if t: nat :| Exits(s, h, want, t) {
      CollectedPreferred(s, h, t);
    }
  }

  /** `Ends`, the condition under which `GetN` is modelled, is exactly that its loop ends. */
  lemma GetNEndsIff(s: State, h: Hash, n: int)
    requires s.hashes != [] && n > 0
    ensures Ends(s, h, n) <==> exists t: nat :: Exits(s, h, Wanted(s, n), t)
  {
    EndsIff(s, h, Wanted(s, n));
  }

  /** On the rings that joins and leaves build, every key's preference order lists the owners of the points. */
  lemma PreferenceIsOwners(s: State, h: Hash)
    requires Owned(s)
    ensures Elements(Preference(s, h)) == s.nodes.Values && |Preference(s, h)| == |s.nodes.Values|
  {
    DistinctSize(Preference(s, h));
    forall m
      ensures m in Preference(s, h) <==> m in s.nodes.Values
    {
      PreferredOwner(s, h, m);
    }
  }

  lemma PreferredOwner(s: State, h: Hash, m: string)
    requires Owned(s)
    ensures m in Preference(s, h) <==> m in s.nodes.Values
  {
    var lap := Lap(s.hashes, h);
    FirstOccurrencesMember(Owners(s.nodes, lap), m);
    OwnersMember(s.nodes, lap, m);
    hide Lap, Owners, FirstOccurrences;
    if m in Preference(s, h) {
      var x :| x in lap && OwnerOf(s.nodes, x) == m;
      LapMember(s.hashes, h, x);
    }
    if x :| x in s.nodes && s.nodes[x] == m {
      LapMember(s.hashes, h, x);
      assert OwnerOf(s.nodes, x) == m;
    }
  }

  /** There are as many owners as are wanted, or no two points share one. No key is involved. */
  predicate EnoughOwners(s: State, want: nat) {
    |s.nodes.Values| >= want || |s.nodes.Values| >= |s.nodes|
  }

  /** On the rings that joins and leaves build, whether the walk ends can be told from the ring alone. */
  lemma EndsIffOwners(s: State, h: Hash, want: nat)
    requires Owned(s) && s.hashes != []
    ensures (exists t: nat :: Exits(s, h, want, t)) <==> EnoughOwners(s, want)
  {
    PreferenceIsOwners(s, h);
    EndsIff(s, h, want);
  }

  /**
   `GetN` returns for every key and count if and only if the points have as many owners as there are members, or
   as there are points.
   */
  lemma GetNAlwaysEndsIff(s: State)
    requires Owned(s)
    ensures (forall h: Hash, n: int :: Ends(s, h, n)) <==> s.hashes == [] || EnoughOwners(s, |s.members|)
  {
    hide Owned, Preference;
    if s.hashes == [] || EnoughOwners(s, |s.members|) {
      forall h: Hash, n: int
        ensures Ends(s, h, n)
      {
        PreferenceIsOwners(s, h);
      }
    }
    if forall h: Hash, n: int :: Ends(s, h, n) {
      assert Ends(s, 0, |s.members|);
      PreferenceIsOwners(s, 0);
    }
  }

  /** With both points of `b` on those of `a`, asking a two-member ring for two replicas never ends. */
  lemma CollisionWalksForever(l: Layout, h: Hash)
    requires l.virtualNodes == 2 && Point(l, "a", 0) == Point(l, "b", 0) && Point(l, "a", 1) == Point(l, "b", 1)
    requires Point(l, "a", 0) != Point(l, "a", 1)
    ensures var s := Built(l, ["a", "b"]);
            s.members == {"a", "b"} && s.hashes != [] && forall t: nat :: !Exits(s, h, 2, t)
  {
    hide *;
    BuiltColliding(l);
    OneOwner(Built(l, ["a", "b"]), h, Point(l, "a", 0), Point(l, "a", 1), "b");
    EndsIff(Built(l, ["a", "b"]), h, 2);
  }

  /** A ring whose two points share an owner. */
  lemma OneOwner(s: State, h: Hash, p: Hash, q: Hash, m: string)
    requires p != q && s.nodes == map[p := m, q := m] && forall x :: x in s.hashes ==> x == p || x == q
    ensures |Preference(s, h)| <= 1 && |s.nodes| == 2
  {
    assert s.nodes.Keys == {p, q};
    assert |s.nodes| == |s.nodes.Keys|;
    forall o | o in Preference(s, h)
      ensures o == m
    {
      OwnerIsOne(s, h, p, q, m, o);
    }
    DistinctSize(Preference(s, h));
    SubsetSize(Elements(Preference(s, h)), {m});
  }

  lemma OwnerIsOne(s: State, h: Hash, p: Hash, q: Hash, m: string, o: string)
    requires s.nodes == map[p := m, q := m] && (forall x :: x in s.hashes ==> x == p || x == q)
    requires o in Preference(s, h)
    ensures o == m
  {
    var lap := Lap(s.hashes, h);
    FirstOccurrencesMember(Owners(s.nodes, lap), o);
    OwnersMember(s.nodes, lap, o);
    hide Lap, Owners, FirstOccurrences;
    var x :| x in lap && OwnerOf(s.nodes, x) == o;
    LapMember(s.hashes, h, x);
  }

  lemma TwoPoints(l: Layout, node: string)
    requires l.virtualNodes == 2
    ensures Points(l, node) == [Point(l, node, 0), Point(l, node, 1)]
  {
    assert PointsUpTo(l, node, 1) == PointsUpTo(l, node, 0) + [Point(l, node, 0)];
  }

  lemma AssignTwo(nodes: map<Hash, string>, p: Hash, q: Hash, node: string)
    ensures Assign(nodes, [p, q], node) == nodes[p := node][q := node]
  {
    assert [p, q][..1] == [p] && [p][..0] == [];
    assert Assign(nodes, [p], node) == nodes[p := node];
  }

  lemma BuiltColliding(l: Layout)
    requires l.virtualNodes == 2 && Point(l, "a", 0) == Point(l, "b", 0) && Point(l, "a", 1) == Point(l, "b", 1)
    ensures var s := Built(l, ["a", "b"]); var p, q := Point(l, "a", 0), Point(l, "a", 1);
            && s.members == {"a", "b"} && s.nodes == map[p := "b", q := "b"]
            && p in s.hashes && forall x :: x in s.hashes ==> x == p || x == q
  {
    var p, q := Point(l, "a", 0), Point(l, "a", 1);
    TwoPoints(l, "a");
    TwoPoints(l, "b");
    assert ["a", "b"][..1] == ["a"] && ["a"][..0] == [];
    var one := Built(l, ["a"]);
    assert Built(l, []) == EMPTY;
    assert one == Added(l, EMPTY, "a");
    AssignTwo(map[], p, q, "a");
    AssignTwo(one.nodes, p, q, "b");
    assert "b" !in one.members by {
      assert "a"[0] != "b"[0];
    }
    hide Sort, Assign, Points;
    forall x
      ensures x in Built(l, ["a", "b"]).hashes <==> x == p || x == q
    {
      SortMember(EMPTY.hashes + [p, q], x);
      SortMember(one.hashes + [p, q], x);
    }
  }
}
