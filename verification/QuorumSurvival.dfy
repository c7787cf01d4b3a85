/**
 Write quorums across membership changes: drain (internal/node/drain.go), configuration change
 (internal/node/cluster_membership.go) and rebalance (internal/node/rebalance.go) on the ring's
 replica lists (internal/hashring/ring.go).
 */
module QuorumSurvival {
  import opened Versions
  import opened Sequences
  import opened HashRing
  import opened RingWalk
  import R = Rebalance
  import opened Register
  import opened Migration
  import opened Objects
  import opened ChunkMigration

  /** Placement of keys on a ring, `n` replicas each. */
  function PlacementOf(l: Layout, ring: HashRing.State, n: int): R.Placement {
    k => Replicas(ring, l.hash(k), n)
  }

  lemma PlacementDistinct(l: Layout, ring: HashRing.State, n: int)
    ensures forall k :: Distinct(PlacementOf(l, ring, n)(k))
  {
    hide Replicas;
    forall k ensures Distinct(PlacementOf(l, ring, n)(k)) {
      assert PlacementOf(l, ring, n)(k) == Replicas(ring, l.hash(k), n);
    }
  }

  ghost function HoldersAmong(replicas: seq<Node>, held: Held, k: Key, u: Version): set<Node> {
    set r | r in replicas && R.Has(R.World(held, map[]), r, k, u)
  }

  /** At least `quorum` of the key's replicas hold version `u` or newer. */
  ghost predicate QuorumHolds(replicas: seq<Node>, held: Held, k: Key, u: Version, quorum: nat) {
    |HoldersAmong(replicas, held, k, u)| >= quorum
  }

  lemma AllReplicasHold(replicas: seq<Node>, held: Held, k: Key, u: Version)
    requires Distinct(replicas) && forall r :: r in replicas ==> R.Has(R.World(held, map[]), r, k, u)
    ensures |HoldersAmong(replicas, held, k, u)| == |replicas|
  {
    DistinctSize(replicas);
    assert HoldersAmong(replicas, held, k, u) == Elements(replicas);
  }

  // ------------------------------------------------------------------ joining

  /**
   A join keeps the quorum: if a write quorum of the key's replicas held version `u` when rebalancing
   under the new ring began, a write quorum of its new replicas holds it once one of those holders has
   rebalanced without a failure, in any interleaving with writes and other rebalances.
   */
  lemma JoinKeepsQuorum(l: Layout, ring: HashRing.State, x: Node, n: nat, quorum: nat, held: Held, ms: seq<R.Move>,
                        k: Key, u: Version)
    requires Canonical(l, ring) && l.virtualNodes >= 1
    requires x !in ring.members && Separate(l, ring.members + {x})
    requires QuorumHolds(Replicas(ring, l.hash(k), n), held, k, u, quorum)
    requires var after := R.Run(PlacementOf(l, Added(l, ring, x), n), R.World(held, map[]), ms);
             quorum > 0 ==>
               exists m :: m in HoldersAmong(Replicas(ring, l.hash(k), n), held, k, u) && R.CleanlyRebalanced(after, m)
    ensures var after := R.Run(PlacementOf(l, Added(l, ring, x), n), R.World(held, map[]), ms);
            QuorumHolds(Replicas(Added(l, ring, x), l.hash(k), n), after.held, k, u, quorum)
  {
    hide Canonical, Separate, R.Run, R.Has, Replicas, Added;
    var owners := PlacementOf(l, Added(l, ring, x), n);
    var start := R.World(held, map[]);
    var after := R.Run(owners, start, ms);
    var was, now := Replicas(ring, l.hash(k), n), Replicas(Added(l, ring, x), l.hash(k), n);
    AddedCanonical(l, ring, x);
    ReplicasExact(l, ring, l.hash(k), n);
    ReplicasExact(l, Added(l, ring, x), l.hash(k), n);
    var holders := HoldersAmong(was, held, k, u);
    assert |now| >= |was| by {
      assert Added(l, ring, x).members == ring.members + {x} by {
        AddedMembers(l, ring, x);
      }
    }
    if quorum > 0 {
      var m :| m in holders && R.CleanlyRebalanced(after, m);
      R.CleanRebalanceSpreads(owners, start, ms, m, k, u);
      OwnersHaveIsAll(owners, after, k, u);
      assert owners(k) == now;
      AllReplicasHold(now, after.held, k, u);
      DistinctSize(was);
      SubsetSize(holders, Elements(was));
    }
  }

  lemma AddedMembers(l: Layout, ring: HashRing.State, x: Node)
    ensures Added(l, ring, x).members == ring.members + {x}
  {
  }

  lemma OwnersHaveIsAll(owners: R.Placement, w: R.World, k: Key, u: Version)
    requires R.OwnersHave(owners, w, k, u)
    ensures forall r :: r in owners(k) ==> R.Has(R.World(w.held, map[]), r, k, u)
  {
  }

  /** The same for the quorum of a chunk: one holder's rebalance that failed for no chunk is enough. */
  lemma JoinKeepsChunkQuorum(l: Layout, ring: HashRing.State, x: Node, n: nat, quorum: nat,
                             id: Bytes -> ChunkId, files: Files, after: Files, m: Node, c: ChunkId)
    requires Canonical(l, ring) && l.virtualNodes >= 1
    requires x !in ring.members && Separate(l, ring.members + {x})
    requires ChunkQuorumHolds(Replicas(ring, l.hash(c), n), id, files, c, quorum)
    requires ValidCopy(id, files, m, c) && SpreadFrom(id, files, after, m, PlacementOf(l, Added(l, ring, x), n))
    ensures ChunkQuorumHolds(Replicas(Added(l, ring, x), l.hash(c), n), id, after, c, quorum)
  {
    hide Canonical, Separate, Replicas, Added, ValidCopy;
    var was, now := Replicas(ring, l.hash(c), n), Replicas(Added(l, ring, x), l.hash(c), n);
    AddedCanonical(l, ring, x);
    ReplicasExact(l, ring, l.hash(c), n);
    ReplicasExact(l, Added(l, ring, x), l.hash(c), n);
    assert |now| >= |was| by {
      AddedMembers(l, ring, x);
    }
    assert PlacementOf(l, Added(l, ring, x), n)(c) == now;
    DistinctSize(was);
    DistinctSize(now);
    SubsetSize(ChunkHolders(was, id, files, c), Elements(was));
    assert ChunkHolders(now, id, after, c) == Elements(now);
  }

  ghost function ChunkHolders(replicas: seq<Node>, id: Bytes -> ChunkId, files: Files, c: ChunkId): set<Node> {
    set r | r in replicas && ValidCopy(id, files, r, c)
  }

  /** At least `quorum` of the chunk's replicas have a valid copy. */
  ghost predicate ChunkQuorumHolds(replicas: seq<Node>, id: Bytes -> ChunkId, files: Files, c: ChunkId, quorum: nat) {
    |ChunkHolders(replicas, id, files, c)| >= quorum
  }

  /** Every valid copy the node had is by now on all its owners. */
  ghost predicate SpreadFrom(id: Bytes -> ChunkId, files: Files, after: Files, m: Node, owners: R.Placement) {
    forall c, r :: ValidCopy(id, files, m, c) && r in owners(c) ==> ValidCopy(id, after, r, c)
  }

  // ------------------------------------------------------------------ a join that is rolled back

  /** However rebalancing under the new ring went, the old owners of the key keep their quorum. */
  ghost predicate SparesQuorum(l: Layout, ring: HashRing.State, x: Node, n: nat, quorum: nat, k: Key) {
    forall held, ms, u :: QuorumHolds(Replicas(ring, l.hash(k), n), held, k, u, quorum) ==>
      QuorumHolds(Replicas(ring, l.hash(k), n),
                  R.Run(PlacementOf(l, Added(l, ring, x), n), R.World(held, map[]), ms).held, k, u, quorum)
  }

  /** Some owner more than the quorum needs, or no owner displaced. */
  ghost predicate HasSlack(l: Layout, ring: HashRing.State, x: Node, n: nat, quorum: nat, k: Key) {
    || quorum != |Replicas(ring, l.hash(k), n)|
    || Elements(Replicas(ring, l.hash(k), n)) <= Elements(Replicas(Added(l, ring, x), l.hash(k), n))
  }

  /**
   A join that is rolled back after nodes rebalanced under the new ring costs the key at most one of its old
   owners: they keep a write quorum in every such run if and only if the quorum is not all of them, or
   the join displaces none.
   */
  lemma FailedJoinSparesIff(l: Layout, ring: HashRing.State, x: Node, n: nat, quorum: nat, k: Key)
    requires Canonical(l, ring) && l.virtualNodes >= 1
    requires x !in ring.members && Separate(l, ring.members + {x})
    ensures SparesQuorum(l, ring, x, n, quorum, k) <==> HasSlack(l, ring, x, n, quorum, k)
  {
    hide Canonical, Separate, Replicas, Added;
    if HasSlack(l, ring, x, n, quorum, k) {
      forall held, ms, u | QuorumHolds(Replicas(ring, l.hash(k), n), held, k, u, quorum)
        ensures QuorumHolds(Replicas(ring, l.hash(k), n),
                            R.Run(PlacementOf(l, Added(l, ring, x), n), R.World(held, map[]), ms).held, k, u, quorum)
      {
        FailedJoinSpares(l, ring, x, n, quorum, held, ms, k, u);
      }
    } else {
      DisplacedOwnerLoses(l, ring, x, n, k);
    }
  }

  lemma FailedJoinSpares(l: Layout, ring: HashRing.State, x: Node, n: nat, quorum: nat, held: Held, ms: seq<R.Move>,
                         k: Key, u: Version)
    requires Canonical(l, ring) && l.virtualNodes >= 1
    requires x !in ring.members && Separate(l, ring.members + {x})
    requires HasSlack(l, ring, x, n, quorum, k)
    requires QuorumHolds(Replicas(ring, l.hash(k), n), held, k, u, quorum)
    ensures QuorumHolds(Replicas(ring, l.hash(k), n),
                        R.Run(PlacementOf(l, Added(l, ring, x), n), R.World(held, map[]), ms).held, k, u, quorum)
  {
    hide Canonical, Separate, R.Run, R.Has, Replicas, Added;
    var owners := PlacementOf(l, Added(l, ring, x), n);
    var start := R.World(held, map[]);
    var after := R.Run(owners, start, ms);
    var was, now := Replicas(ring, l.hash(k), n), Replicas(Added(l, ring, x), l.hash(k), n);
    assert owners(k) == now;
    var holders, holdersAfter := HoldersAmong(was, held, k, u), HoldersAmong(was, after.held, k, u);
    forall r | r in holders && r in now ensures r in holdersAfter {
      OwnersRemember(owners, held, ms, r, k, u);
    }
    if holders <= holdersAfter {
      SubsetSize(holders, holdersAfter);
    } else {
      var d :| d in holders && d !in holdersAfter;
      assert R.Has(start, d, k, u) && !R.Has(after, d, k, u) by {
        HasOnlyHeld(after, d, k, u);
      }
      LosersLeaveItToOwners(owners, start, ms, d, k, u);
      OwnersHaveIsAll(owners, after, k, u);
      OneDisplaced(l, ring, x, n, k, d);
      DistinctSize(was);
      assert Elements(was) - {d} <= holdersAfter;
      SubsetSize(Elements(was) - {d}, holdersAfter);
      SubsetSize(holders, Elements(was));
    }
  }

  lemma HasOnlyHeld(w: R.World, r: Node, k: Key, u: Version)
    ensures R.Has(R.World(w.held, map[]), r, k, u) <==> R.Has(w, r, k, u)
  {
  }

  /** A node that no longer holds a version it held has cleaned it, when every owner held it. */
  lemma LosersLeaveItToOwners(owners: R.Placement, start: R.World, ms: seq<R.Move>, d: Node, k: Key, u: Version)
    requires start.jobs == map[] && R.Has(start, d, k, u) && !R.Has(R.Run(owners, start, ms), d, k, u)
    ensures R.OwnersHave(owners, R.Run(owners, start, ms), k, u)
  {
    R.TracedAlways(owners, start, ms);
    hide R.Has, R.Backed, R.FinishedRight, R.OwnersHave;
  }

  /** A join displaces no owner but the last. */
  lemma OneDisplaced(l: Layout, ring: HashRing.State, x: Node, n: nat, k: Key, d: Node)
    requires Canonical(l, ring) && l.virtualNodes >= 1
    requires x !in ring.members && Separate(l, ring.members + {x})
    requires d in Replicas(ring, l.hash(k), n) && d !in Replicas(Added(l, ring, x), l.hash(k), n)
    ensures forall r :: r in Replicas(ring, l.hash(k), n) && r != d ==> r in Replicas(Added(l, ring, x), l.hash(k), n)
  {
    var was, now := Replicas(ring, l.hash(k), n), Replicas(Added(l, ring, x), l.hash(k), n);
    MinimalMovementOnJoin(l, ring, x, l.hash(k), n);
    hide Canonical, Separate, Replicas, Added;
    var kept := Keep(Other(x), now);
    forall r | r in kept ensures r in now {
      KeepMember(Other(x), now, r);
    }
    AllButOne(was, kept, d);
  }

  lemma AllButOne(was: seq<Node>, kept: seq<Node>, d: Node)
    requires kept <= was && |was| <= |kept| + 1 && d in was && d !in kept
    ensures forall r :: r in was && r != d ==> r in kept
  {
    var i :| 0 <= i < |was| && was[i] == d;
    assert forall j :: 0 <= j < |kept| ==> kept[j] in kept && was[j] == kept[j];
    forall r | r in was && r != d ensures r in kept {
      var j :| 0 <= j < |was| && was[j] == r;
      assert kept[j] == r;
    }
  }

  /** The value on every node of the list. */
  function Everyone(nodes: seq<Node>, k: Key, v: Value): Held {
    map r | r in nodes :: (r, k) := v
  }

  ghost function CopiesTo(replicas: seq<Node>, k: Key): set<(Key, Node)> {
    set r | r in replicas :: (k, r)
  }

  /** The first `i` owners of the key acknowledge node `d`'s copy. */
  lemma {:induction false} CopyingRun(owners: R.Placement, start: R.World, d: Node, k: Key, i: nat)
    returns (ms: seq<R.Move>)
    requires start.jobs == map[] && (d, k) in start.held && d !in owners(k) && Distinct(owners(k)) && i <= |owners(k)|
    ensures var w := R.Run(owners, start, ms);
            && w.jobs == map[0 := R.Job(d, R.LocalData(start.held, d), CopiesTo(owners(k)[..i], k), {}, {}, false)]
            && (d, k) in w.held && w.held[(d, k)] == start.held[(d, k)]
  {
    hide R.LocalData, Write;
    if i == 0 {
      ms := Take(owners, start, start, [], R.Begin(0, d));
      assert CopiesTo(owners(k)[..0], k) == {};
    } else {
      ms := CopyingRun(owners, start, d, k, i - 1);
      var w := R.Run(owners, start, ms);
      var r := owners(k)[i - 1];
      R.LocalDataIs(start.held, d);
      assert owners(k)[..i] == owners(k)[..i - 1] + [r];
      assert r !in owners(k)[..i - 1];
      assert CopiesTo(owners(k)[..i], k) == CopiesTo(owners(k)[..i - 1], k) + {(k, r)};
      WriteOther(w.held, r, d, k, w.jobs[0].snapshot[k]);
      ms := Take(owners, start, w, ms, R.CopyAcked(0, k, r));
    }
  }

  lemma WriteOther(held: Held, r: Node, d: Node, k: Key, v: Value)
    requires r != d && (d, k) in held
    ensures (d, k) in Write(held, r, k, v) && Write(held, r, k, v)[(d, k)] == held[(d, k)]
  {
  }

  lemma CleaningRun(owners: R.Placement, start: R.World, d: Node, k: Key) returns (ms: seq<R.Move>)
    requires start.jobs == map[] && (d, k) in start.held && d !in owners(k) && Distinct(owners(k))
    ensures (d, k) !in R.Run(owners, start, ms).held
  {
    ms := CopyingRun(owners, start, d, k, |owners(k)|);
    var w := R.Run(owners, start, ms);
    assert owners(k)[..|owners(k)|] == owners(k);
    R.LocalDataIs(start.held, d);
    hide R.LocalData;
    ms := Take(owners, start, w, ms, R.Clean(0, k));
  }

  /** The displaced owner rebalances before the rollback: it copies the key to all new owners and cleans it. */
  lemma DisplacedOwnerLoses(l: Layout, ring: HashRing.State, x: Node, n: nat, k: Key)
    requires !(Elements(Replicas(ring, l.hash(k), n)) <= Elements(Replicas(Added(l, ring, x), l.hash(k), n)))
    ensures !SparesQuorum(l, ring, x, n, |Replicas(ring, l.hash(k), n)|, k)
  {
    hide Replicas, Added;
    var owners := PlacementOf(l, Added(l, ring, x), n);
    var was, now := Replicas(ring, l.hash(k), n), Replicas(Added(l, ring, x), l.hash(k), n);
    var d :| d in Elements(was) && d !in Elements(now);
    var v := Value([], Version(1, d), false);
    var held := Everyone(was, k, v);
    assert owners(k) == now;
    var ms := CleaningRun(owners, R.World(held, map[]), d, k);
    assert QuorumHolds(was, held, k, v.version, |was|) by {
      forall r | r in was ensures R.Has(R.World(held, map[]), r, k, v.version) {
        R.LeqReflexive(v.version);
      }
      AllReplicasHold(was, held, k, v.version);
    }
    var after := R.Run(owners, R.World(held, map[]), ms).held;
    assert (d, k) !in after && d !in HoldersAmong(was, after, k, v.version);
    assert HoldersAmong(was, after, k, v.version) <= Elements(was) - {d};
    SubsetSize(HoldersAmong(was, after, k, v.version), Elements(was) - {d});
    DistinctSize(was);
    assert !QuorumHolds(was, after, k, v.version, |was|);
    assert after == R.Run(PlacementOf(l, Added(l, ring, x), n), R.World(held, map[]), ms).held;
  }

  // ------------------------------------------------------------------ leaving

  lemma {:induction false} OwnersRemember(owners: R.Placement, held: Held, ms: seq<R.Move>, r: Node, k: Key, u: Version)
    requires r in owners(k) && R.Has(R.World(held, map[]), r, k, u)
    ensures R.Has(R.World(R.Run(owners, R.World(held, map[]), ms).held, map[]), r, k, u)
  {
    hide Leq;
    R.OwnerRemembers(owners, R.World(held, map[]), ms, r, k, u);
  }

  /**
   A successful leave keeps the quorum: if a write quorum of the key's replicas held version `u` before
   the drain, the drain succeeded, and at least a write quorum of members is left, then a write quorum of
   the new replicas holds it after any run of writes and rebalances under the new ring, failed or not.
   */
  lemma LeaveKeepsQuorum(l: Layout, ring: HashRing.State, x: Node, n: nat, quorum: nat, held: Held, drained: Held,
                         ms: seq<R.Move>, k: Key, u: Version)
    requires Canonical(l, ring) && l.virtualNodes >= 1 && x in ring.members
    requires |ring.members| - 1 >= quorum && n >= quorum
    requires QuorumHolds(Replicas(ring, l.hash(k), n), held, k, u, quorum)
    requires Drained(held, drained, x, PlacementOf(l, Removed(l, ring, x), n))
    ensures var after := R.Run(PlacementOf(l, Removed(l, ring, x), n), R.World(drained, map[]), ms);
            QuorumHolds(Replicas(Removed(l, ring, x), l.hash(k), n), after.held, k, u, quorum)
  {
    hide Canonical, R.Run, R.Has, Replicas, Removed;
    var owners := PlacementOf(l, Removed(l, ring, x), n);
    var after := R.Run(owners, R.World(drained, map[]), ms);
    var was, now := Replicas(ring, l.hash(k), n), Replicas(Removed(l, ring, x), l.hash(k), n);
    assert owners(k) == now;
    RemovedCanonical(l, ring, x);
    MinimalMovement(l, ring, x, l.hash(k), n);
    ReplicasExact(l, Removed(l, ring, x), l.hash(k), n);
    assert Removed(l, ring, x).members == ring.members - {x} by {
      RemovedMembers(l, ring, x);
    }
    assert |now| >= quorum;
    var holders := HoldersAmong(was, held, k, u);
    if x in holders {
      forall r | r in now ensures R.Has(R.World(after.held, map[]), r, k, u) {
        DrainedCopy(held, drained, x, owners, r, k, u);
        OwnersRemember(owners, drained, ms, r, k, u);
      }
      AllReplicasHold(now, after.held, k, u);
    } else {
      forall r | r in holders ensures r in HoldersAmong(now, after.held, k, u) {
        assert r in was && r != x;
        assert r in now;
        OwnersRemember(owners, drained, ms, r, k, u);
      }
      SubsetSize(holders, HoldersAmong(now, after.held, k, u));
    }
  }

  /** The same for the quorum of a chunk. */
  lemma LeaveKeepsChunkQuorum(l: Layout, ring: HashRing.State, x: Node, n: nat, quorum: nat,
                              id: Bytes -> ChunkId, files: Files, after: Files, c: ChunkId)
    requires Canonical(l, ring) && l.virtualNodes >= 1 && x in ring.members
    requires |ring.members| - 1 >= quorum && n >= quorum
    requires ChunkQuorumHolds(Replicas(ring, l.hash(c), n), id, files, c, quorum)
    requires KeepsValid(id, files, after) && SpreadFrom(id, files, after, x, PlacementOf(l, Removed(l, ring, x), n))
    ensures ChunkQuorumHolds(Replicas(Removed(l, ring, x), l.hash(c), n), id, after, c, quorum)
  {
    hide Canonical, Replicas, Removed, ValidCopy;
    var was, now := Replicas(ring, l.hash(c), n), Replicas(Removed(l, ring, x), l.hash(c), n);
    assert PlacementOf(l, Removed(l, ring, x), n)(c) == now;
    RemovedCanonical(l, ring, x);
    MinimalMovement(l, ring, x, l.hash(c), n);
    ReplicasExact(l, Removed(l, ring, x), l.hash(c), n);
    RemovedMembers(l, ring, x);
    var holders := ChunkHolders(was, id, files, c);
    if x in holders {
      DistinctSize(now);
      assert ChunkHolders(now, id, after, c) == Elements(now);
    } else {
      assert holders <= ChunkHolders(now, id, after, c);
      SubsetSize(holders, ChunkHolders(now, id, after, c));
    }
  }

  predicate NeverRebalanced(w: R.World, r: Node) {
    forall j :: j in w.jobs ==> w.jobs[j].node != r
  }

  /** A node that does not rebalance keeps what it holds. */
  lemma {:induction false} StayersKeep(owners: R.Placement, start: R.World, ms: seq<R.Move>, r: Node, k: Key,
                                       u: Version)
    requires R.Has(start, r, k, u)
    requires NeverRebalanced(R.Run(owners, start, ms), r)
    ensures R.Has(R.Run(owners, start, ms), r, k, u)
  {
    if ms != [] {
      var i := |ms| - 1;
      var w := R.Run(owners, start, ms[..i]);
      hide R.Has, R.Do, R.Enabled, NeverRebalanced;
      if R.Enabled(owners, w, ms[i]) {
        NeverBefore(owners, w, ms[i], r);
        StayersKeep(owners, start, ms[..i], r, k, u);
        R.MoveKeeps(owners, w, ms[i]);
      } else {
        StayersKeep(owners, start, ms[..i], r, k, u);
      }
    }
  }

  lemma NeverBefore(owners: R.Placement, w: R.World, m: R.Move, r: Node)
    requires R.Enabled(owners, w, m) && NeverRebalanced(R.Do(owners, w, m), r)
    ensures NeverRebalanced(w, r)
  {
    var x := R.Do(owners, w, m);
    forall j | j in w.jobs ensures w.jobs[j].node != r {
      assert j in x.jobs;
      R.MoveKeepsSnapshot(owners, w, m, j);
    }
  }

  /**
   A leave that is rolled back after the drain and some rebalances costs nothing: the leaving node does not
   rebalance, and every other old owner of a key is one of its owners under the new ring too.
   */
  lemma FailedLeaveSpares(l: Layout, ring: HashRing.State, x: Node, n: nat, quorum: nat, held: Held, drained: Held,
                          ms: seq<R.Move>, k: Key, u: Version)
    requires Canonical(l, ring) && l.virtualNodes >= 1 && x in ring.members && NothingLost(held, drained)
    requires NeverRebalanced(R.Run(PlacementOf(l, Removed(l, ring, x), n), R.World(drained, map[]), ms), x)
    requires QuorumHolds(Replicas(ring, l.hash(k), n), held, k, u, quorum)
    ensures var w := R.Run(PlacementOf(l, Removed(l, ring, x), n), R.World(drained, map[]), ms);
            QuorumHolds(Replicas(ring, l.hash(k), n), w.held, k, u, quorum)
  {
    hide Canonical, R.Run, R.Has, Replicas, Removed;
    var owners := PlacementOf(l, Removed(l, ring, x), n);
    var w := R.Run(owners, R.World(drained, map[]), ms);
    var was := Replicas(ring, l.hash(k), n);
    MinimalMovement(l, ring, x, l.hash(k), n);
    assert owners(k) == Replicas(Removed(l, ring, x), l.hash(k), n);
    var holders := HoldersAmong(was, held, k, u);
    forall r | r in holders ensures r in HoldersAmong(was, w.held, k, u) {
      if r == x {
        StayersKeep(owners, R.World(drained, map[]), ms, x, k, u);
        HasOnlyHeld(w, x, k, u);
      } else {
        OwnersRemember(owners, drained, ms, r, k, u);
      }
    }
    SubsetSize(holders, HoldersAmong(was, w.held, k, u));
  }

  lemma RemovedMembers(l: Layout, ring: HashRing.State, x: Node)
    requires x in ring.members
    ensures Removed(l, ring, x).members == ring.members - {x} && |ring.members - {x}| == |ring.members| - 1
  {
  }

  lemma DrainedCopy(held: Held, drained: Held, x: Node, owners: R.Placement, r: Node, k: Key, u: Version)
    requires Drained(held, drained, x, owners) && r in owners(k) && R.Has(R.World(held, map[]), x, k, u)
    ensures R.Has(R.World(drained, map[]), r, k, u)
  {
    LeqTransitive(u, held[(x, k)].version, drained[(r, k)].version);
  }

  /** The ring a draining node builds from the future members is the ring the survivors reach by removing it. */
  lemma DrainRingIsSurvivorRing(l: Layout, ring: HashRing.State, x: Node, futureMembers: seq<Node>)
    requires Canonical(l, ring) && x in ring.members && Elements(futureMembers) == ring.members - {x}
    ensures Built(l, futureMembers) == Removed(l, ring, x)
  {
    assert Separate(l, Elements(futureMembers));
    BuiltCanonical(l, futureMembers);
    RemovedCanonical(l, ring, x);
    CanonicalUnique(l, Built(l, futureMembers), Removed(l, ring, x));
  }

  // ------------------------------------------------------------------ all keys and chunks at once

  /** Every quorum for a version that one of the nodes in `clean` held has passed to the new owners. */
  ghost predicate JoinCarries(l: Layout, ring: HashRing.State, x: Node, n: nat, was: Held, held: Held,
                              clean: set<Node>) {
    forall k, u, quorum: nat :: QuorumHolds(Replicas(ring, l.hash(k), n), was, k, u, quorum) ==>
      (quorum == 0 || HoldersAmong(Replicas(ring, l.hash(k), n), was, k, u) * clean != {}) ==>
      QuorumHolds(Replicas(Added(l, ring, x), l.hash(k), n), held, k, u, quorum)
  }

  lemma JoinCarriesAll(l: Layout, ring: HashRing.State, x: Node, n: nat, held: Held, ms: seq<R.Move>, clean: set<Node>)
    requires Canonical(l, ring) && l.virtualNodes >= 1
    requires x !in ring.members && Separate(l, ring.members + {x})
    requires var w := R.Run(PlacementOf(l, Added(l, ring, x), n), R.World(held, map[]), ms);
             forall m :: m in clean ==> R.CleanlyRebalanced(w, m)
    ensures JoinCarries(l, ring, x, n, held, R.Run(PlacementOf(l, Added(l, ring, x), n), R.World(held, map[]), ms).held,
                        clean)
  {
    hide Canonical, Separate, R.Run, R.CleanlyRebalanced, Replicas, Added, QuorumHolds, HoldersAmong, PlacementOf;
    forall k, u, quorum: nat | QuorumHolds(Replicas(ring, l.hash(k), n), held, k, u, quorum)
                          && (quorum == 0 || HoldersAmong(Replicas(ring, l.hash(k), n), held, k, u) * clean != {})
      ensures QuorumHolds(Replicas(Added(l, ring, x), l.hash(k), n),
                          R.Run(PlacementOf(l, Added(l, ring, x), n), R.World(held, map[]), ms).held, k, u, quorum)
    {
      if quorum > 0 {
        var m :| m in HoldersAmong(Replicas(ring, l.hash(k), n), held, k, u) * clean;
        assert m in HoldersAmong(Replicas(ring, l.hash(k), n), held, k, u);
      }
      JoinKeepsQuorum(l, ring, x, n, quorum, held, ms, k, u);
    }
  }

  /** The same for every chunk of which one of the nodes in `clean` had a valid copy. */
  ghost predicate JoinCarriesChunks(l: Layout, ring: HashRing.State, x: Node, n: nat, id: Bytes -> ChunkId, was: Files,
                                    files: Files, clean: set<Node>) {
    forall c, quorum: nat :: ChunkQuorumHolds(Replicas(ring, l.hash(c), n), id, was, c, quorum) ==>
      (exists m :: m in clean && ValidCopy(id, was, m, c)) ==>
      ChunkQuorumHolds(Replicas(Added(l, ring, x), l.hash(c), n), id, files, c, quorum)
  }

  lemma JoinCarriesAllChunks(l: Layout, ring: HashRing.State, x: Node, n: nat, id: Bytes -> ChunkId, was: Files,
                             files: Files, clean: set<Node>)
    requires Canonical(l, ring) && l.virtualNodes >= 1
    requires x !in ring.members && Separate(l, ring.members + {x})
    requires forall m :: m in clean ==> SpreadFrom(id, was, files, m, PlacementOf(l, Added(l, ring, x), n))
    ensures JoinCarriesChunks(l, ring, x, n, id, was, files, clean)
  {
    hide Canonical, Separate, Replicas, Added, ChunkQuorumHolds, ValidCopy, PlacementOf, SpreadFrom;
    forall c, quorum: nat | ChunkQuorumHolds(Replicas(ring, l.hash(c), n), id, was, c, quorum) &&
      exists m :: m in clean && ValidCopy(id, was, m, c)
      ensures ChunkQuorumHolds(Replicas(Added(l, ring, x), l.hash(c), n), id, files, c, quorum)
    {
      var m :| m in clean && ValidCopy(id, was, m, c);
      JoinKeepsChunkQuorum(l, ring, x, n, quorum, id, was, files, m, c);
    }
  }

  /** Every quorum that a join leaves some slack is still there on the old owners. */
  ghost predicate FailedJoinHarmless(l: Layout, ring: HashRing.State, x: Node, n: nat, was: Held, held: Held) {
    forall k, u, quorum: nat ::
      QuorumHolds(Replicas(ring, l.hash(k), n), was, k, u, quorum) &&
      HasSlack(l, ring, x, n, quorum, k) ==>
      QuorumHolds(Replicas(ring, l.hash(k), n), held, k, u, quorum)
  }

  lemma FailedJoinSparesAll(l: Layout, ring: HashRing.State, x: Node, n: nat, held: Held, ms: seq<R.Move>)
    requires Canonical(l, ring) && l.virtualNodes >= 1
    requires x !in ring.members && Separate(l, ring.members + {x})
    ensures FailedJoinHarmless(l, ring, x, n, held,
                               R.Run(PlacementOf(l, Added(l, ring, x), n), R.World(held, map[]), ms).held)
  {
    hide Canonical, Separate, R.Run, Replicas, Added, QuorumHolds, HasSlack, PlacementOf;
    forall k, u, quorum: nat | QuorumHolds(Replicas(ring, l.hash(k), n), held, k, u, quorum) &&
      HasSlack(l, ring, x, n, quorum, k)
      ensures QuorumHolds(Replicas(ring, l.hash(k), n),
                          R.Run(PlacementOf(l, Added(l, ring, x), n), R.World(held, map[]), ms).held, k, u, quorum)
    {
      FailedJoinSpares(l, ring, x, n, quorum, held, ms, k, u);
    }
  }

  /** Every quorum the remaining members can form has passed to the new owners. */
  ghost predicate LeaveCarries(l: Layout, ring: HashRing.State, x: Node, n: nat, was: Held, held: Held) {
    forall k, u, quorum: nat ::
      QuorumHolds(Replicas(ring, l.hash(k), n), was, k, u, quorum) && quorum <= n &&
      quorum < |ring.members| ==>
      QuorumHolds(Replicas(Removed(l, ring, x), l.hash(k), n), held, k, u, quorum)
  }

  lemma LeaveCarriesAll(l: Layout, ring: HashRing.State, x: Node, n: nat, held: Held, drained: Held, ms: seq<R.Move>)
    requires Canonical(l, ring) && l.virtualNodes >= 1 && x in ring.members
    requires Drained(held, drained, x, PlacementOf(l, Removed(l, ring, x), n))
    ensures LeaveCarries(l, ring, x, n, held,
                         R.Run(PlacementOf(l, Removed(l, ring, x), n), R.World(drained, map[]), ms).held)
  {
    hide Canonical, R.Run, Replicas, Removed, QuorumHolds, PlacementOf, Drained;
    forall k, u, quorum: nat | QuorumHolds(Replicas(ring, l.hash(k), n), held, k, u, quorum) && quorum <= n &&
      quorum < |ring.members|
      ensures QuorumHolds(Replicas(Removed(l, ring, x), l.hash(k), n),
                          R.Run(PlacementOf(l, Removed(l, ring, x), n), R.World(drained, map[]), ms).held, k, u, quorum)
    {
      LeaveKeepsQuorum(l, ring, x, n, quorum, held, drained, ms, k, u);
    }
  }

  ghost predicate LeaveCarriesChunks(l: Layout, ring: HashRing.State, x: Node, n: nat, id: Bytes -> ChunkId, was: Files,
                                     files: Files) {
    forall c, quorum: nat ::
      ChunkQuorumHolds(Replicas(ring, l.hash(c), n), id, was, c, quorum) && quorum <= n &&
      quorum < |ring.members| ==>
      ChunkQuorumHolds(Replicas(Removed(l, ring, x), l.hash(c), n), id, files, c, quorum)
  }

  lemma LeaveCarriesAllChunks(l: Layout, ring: HashRing.State, x: Node, n: nat, id: Bytes -> ChunkId, was: Files,
                              files: Files)
    requires Canonical(l, ring) && l.virtualNodes >= 1 && x in ring.members
    requires KeepsValid(id, was, files) && SpreadFrom(id, was, files, x, PlacementOf(l, Removed(l, ring, x), n))
    ensures LeaveCarriesChunks(l, ring, x, n, id, was, files)
  {
    hide Canonical, Replicas, Removed, ChunkQuorumHolds, PlacementOf, KeepsValid, SpreadFrom;
    forall c, quorum: nat | ChunkQuorumHolds(Replicas(ring, l.hash(c), n), id, was, c, quorum) && quorum <= n &&
      quorum < |ring.members|
      ensures ChunkQuorumHolds(Replicas(Removed(l, ring, x), l.hash(c), n), id, files, c, quorum)
    {
      LeaveKeepsChunkQuorum(l, ring, x, n, quorum, id, was, files, c);
    }
  }

  /** Every quorum the old owners had they still have. */
  ghost predicate QuorumsStay(l: Layout, ring: HashRing.State, n: nat, was: Held, held: Held) {
    forall k, u, quorum: nat :: QuorumHolds(Replicas(ring, l.hash(k), n), was, k, u, quorum) ==>
      QuorumHolds(Replicas(ring, l.hash(k), n), held, k, u, quorum)
  }

  lemma FailedLeaveSparesAll(l: Layout, ring: HashRing.State, x: Node, n: nat, held: Held, drained: Held,
                             ms: seq<R.Move>)
    requires Canonical(l, ring) && l.virtualNodes >= 1 && x in ring.members && NothingLost(held, drained)
    requires NeverRebalanced(R.Run(PlacementOf(l, Removed(l, ring, x), n), R.World(drained, map[]), ms), x)
    ensures QuorumsStay(l, ring, n, held,
                        R.Run(PlacementOf(l, Removed(l, ring, x), n), R.World(drained, map[]), ms).held)
  {
    hide Canonical, R.Run, Replicas, Removed, QuorumHolds, PlacementOf, NothingLost, NeverRebalanced;
    forall k, u, quorum: nat | QuorumHolds(Replicas(ring, l.hash(k), n), held, k, u, quorum)
      ensures QuorumHolds(Replicas(ring, l.hash(k), n),
                          R.Run(PlacementOf(l, Removed(l, ring, x), n), R.World(drained, map[]), ms).held, k, u, quorum)
    {
      FailedLeaveSpares(l, ring, x, n, quorum, held, drained, ms, k, u);
    }
  }
}
