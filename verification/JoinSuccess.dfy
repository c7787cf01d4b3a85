/**
 What the success of a join alone means for a quorum (`AddMember`, internal/node/cluster_membership.go).
 The coordinator asks every member to rebalance and looks only at whether the replies are there, so each
 rebalance has finished, with any number of failed copies.
 */
module JoinSuccess {
  import opened Versions
  import opened Sequences
  import opened HashRing
  import opened RingWalk
  import opened Register
  import opened Migration
  import opened Objects
  import opened QuorumSurvival
  import R = Rebalance

  predicate Finished(w: R.World, j: nat, m: Node) {
    j in w.jobs && w.jobs[j].node == m && w.jobs[j].done
  }

  /** Every one of these nodes has finished some rebalance, well or not. */
  ghost predicate AllFinished(w: R.World, targets: set<Node>) {
    forall m :: m in targets ==> exists j :: Finished(w, j, m)
  }

  /**
   Whenever every target has finished a rebalance under the new ring, among any writes and other
   rebalances, a quorum of the old replicas has become one of the new replicas.
   */
  ghost predicate SuccessPasses(l: Layout, ring: HashRing.State, x: Node, n: nat, quorum: nat, k: Key,
                                targets: set<Node>) {
    var owners := PlacementOf(l, Added(l, ring, x), n);
    forall held, ms, u ::
      QuorumHolds(Replicas(ring, l.hash(k), n), held, k, u, quorum)
      && AllFinished(R.Run(owners, R.World(held, map[]), ms), targets) ==>
        QuorumHolds(owners(k), R.Run(owners, R.World(held, map[]), ms).held, k, u, quorum)
  }

  /** There is no such quorum to begin with, or the join displaces no owner of the key. */
  ghost predicate NoneDisplaced(l: Layout, ring: HashRing.State, x: Node, n: nat, quorum: nat, k: Key) {
    || quorum == 0 || quorum > |Replicas(ring, l.hash(k), n)|
    || Elements(Replicas(ring, l.hash(k), n)) <= Elements(Replicas(Added(l, ring, x), l.hash(k), n))
  }

  /**
   The success of a join alone passes a quorum on if and only if the join displaces no owner of the key: a
   condition on the ring that can be checked before the call.
   */
  lemma SuccessPassesIff(l: Layout, ring: HashRing.State, x: Node, n: nat, quorum: nat, k: Key, targets: set<Node>)
    requires Canonical(l, ring) && l.virtualNodes >= 1
    requires x !in ring.members && Separate(l, ring.members + {x})
    ensures SuccessPasses(l, ring, x, n, quorum, k, targets) <==> NoneDisplaced(l, ring, x, n, quorum, k)
  {
    hide Canonical, Separate, Replicas, Added, R.Run, QuorumHolds, AllFinished;
    var owners := PlacementOf(l, Added(l, ring, x), n);
    assert owners(k) == Replicas(Added(l, ring, x), l.hash(k), n);
    if NoneDisplaced(l, ring, x, n, quorum, k) {
      forall held, ms, u | QuorumHolds(Replicas(ring, l.hash(k), n), held, k, u, quorum)
        ensures QuorumHolds(owners(k), R.Run(owners, R.World(held, map[]), ms).held, k, u, quorum)
      {
        OwnersKeepQuorum(l, ring, x, n, quorum, held, ms, k, u);
      }
    } else {
      var held, u := LosingStores(l, ring, x, n, quorum, k);
      var ms := FailedRebalances(l, ring, x, n, k, held, targets);
      assert QuorumHolds(Replicas(ring, l.hash(k), n), held, k, u, quorum);
      assert AllFinished(R.Run(owners, R.World(held, map[]), ms), targets);
      assert !QuorumHolds(owners(k), R.Run(owners, R.World(held, map[]), ms).held, k, u, quorum);
    }
  }

  lemma OwnersKeepQuorum(l: Layout, ring: HashRing.State, x: Node, n: nat, quorum: nat, held: Held, ms: seq<R.Move>,
                         k: Key, u: Version)
    requires NoneDisplaced(l, ring, x, n, quorum, k)
    requires QuorumHolds(Replicas(ring, l.hash(k), n), held, k, u, quorum)
    ensures var owners := PlacementOf(l, Added(l, ring, x), n);
            QuorumHolds(owners(k), R.Run(owners, R.World(held, map[]), ms).held, k, u, quorum)
  {
    hide Replicas, Added, R.Run, R.Has;
    var owners := PlacementOf(l, Added(l, ring, x), n);
    var after := R.Run(owners, R.World(held, map[]), ms).held;
    var was := Replicas(ring, l.hash(k), n);
    var holders, holdersAfter := HoldersAmong(was, held, k, u), HoldersAmong(owners(k), after, k, u);
    DistinctSize(was);
    SubsetSize(holders, Elements(was));
    if quorum > 0 {
      assert owners(k) == Replicas(Added(l, ring, x), l.hash(k), n);
      forall r | r in holders
        ensures r in holdersAfter
      {
        assert r in Elements(was) && r in Elements(owners(k));
        OwnersRemember(owners, held, ms, r, k, u);
      }
      SubsetSize(holders, holdersAfter);
    }
  }

  // ------------------------------------------------------------------ the run that loses a quorum

  /** A subset of a given size that contains a given element. */
  lemma {:induction false} ChooseWith(all: set<Node>, d: Node, size: nat) returns (some: set<Node>)
    requires d in all && 1 <= size <= |all|
    ensures d in some && some <= all && |some| == size
  {
    if size == 1 {
      some := {d};
    } else {
      some := ChooseWith(all, d, size - 1);
      if all <= some {
        SubsetSize(all, some);
        assert false;
      }
      var m :| m in all && m !in some;
      some := some + {m};
    }
  }

  function OnNodes(nodes: set<Node>, k: Key, v: Value): Held {
    map r | r in nodes :: (r, k) := v
  }

  lemma OnNodesHold(nodes: set<Node>, k: Key, v: Value, replicas: seq<Node>, quorum: nat)
    ensures QuorumHolds(replicas, OnNodes(nodes, k, v), k, v.version, quorum) <==>
              |Elements(replicas) * nodes| >= quorum
    ensures forall nk :: nk in OnNodes(nodes, k, v) ==> nk.1 == k && nk.0 in nodes
  {
    R.LeqReflexive(v.version);
    hide Leq;
    assert forall r :: (r, k) in OnNodes(nodes, k, v) <==> r in nodes;
    assert HoldersAmong(replicas, OnNodes(nodes, k, v), k, v.version) == Elements(replicas) * nodes;
  }

  /** Exactly `quorum` of the old owners hold the version, a displaced one among them; nobody holds anything else. */
  lemma LosingStores(l: Layout, ring: HashRing.State, x: Node, n: nat, quorum: nat, k: Key)
    returns (held: Held, u: Version)
    requires Canonical(l, ring) && l.virtualNodes >= 1 && x !in ring.members
    requires !NoneDisplaced(l, ring, x, n, quorum, k)
    ensures n > 0 && forall nk :: nk in held ==> nk.1 == k && nk.0 in ring.members
    ensures QuorumHolds(Replicas(ring, l.hash(k), n), held, k, u, quorum)
    ensures !QuorumHolds(Replicas(Added(l, ring, x), l.hash(k), n), held, k, u, quorum)
  {
    hide *;
    var some := LosingOwners(l, ring, x, n, quorum, k);
    var v := Value([], Version(1, x), false);
    held, u := OnNodes(some, k, v), v.version;
    OnNodesHold(some, k, v, Replicas(ring, l.hash(k), n), quorum);
    OnNodesHold(some, k, v, Replicas(Added(l, ring, x), l.hash(k), n), quorum);
  }

  /** `quorum` old owners, a displaced one among them: one fewer of them are new owners. */
  lemma LosingOwners(l: Layout, ring: HashRing.State, x: Node, n: nat, quorum: nat, k: Key) returns (some: set<Node>)
    requires Canonical(l, ring) && l.virtualNodes >= 1 && x !in ring.members
    requires !NoneDisplaced(l, ring, x, n, quorum, k)
    ensures n > 0 && some <= ring.members
    ensures |Elements(Replicas(ring, l.hash(k), n)) * some| == quorum
    ensures |Elements(Replicas(Added(l, ring, x), l.hash(k), n)) * some| < quorum
  {
    var was, now := Replicas(ring, l.hash(k), n), Replicas(Added(l, ring, x), l.hash(k), n);
    ReplicasExact(l, ring, l.hash(k), n);
    DistinctSize(was);
    hide Canonical, Replicas, Added;
    var d :| d in Elements(was) && d !in Elements(now);
    some := ChooseWith(Elements(was), d, quorum);
    hide Elements;
    assert Elements(was) * some == some;
    SubsetSize(Elements(now) * some, some - {d});
  }

  /** Copy requests of one rebalance that all fail. */
  ghost function FailedTo(m: Node, replicas: seq<Node>, k: Key): set<(Key, Node)> {
    set r | r in replicas && r != m :: (k, r)
  }

  ghost function Begun(w: R.World, j: nat, m: Node): R.Job {
    R.Job(m, R.LocalData(w.held, m), {}, {}, {}, false)
  }

  lemma {:induction false} FailingCopies(owners: R.Placement, start: R.World, j: nat, m: Node, k: Key, i: nat)
    returns (ms: seq<R.Move>)
    requires j !in start.jobs && (m, k) in start.held && Distinct(owners(k)) && i <= |owners(k)|
    ensures R.Run(owners, start, ms) ==
            R.World(start.held, start.jobs[j := Begun(start, j, m).(failed := FailedTo(m, owners(k)[..i], k))])
  {
    hide R.LocalData, Distinct;
    R.LocalDataIs(start.held, m);
    if i == 0 {
      ms := Take(owners, start, start, [], R.Begin(j, m));
      assert FailedTo(m, owners(k)[..0], k) == {};
    } else {
      ms := FailingCopies(owners, start, j, m, k, i - 1);
      var w, r := R.Run(owners, start, ms), owners(k)[i - 1];
      NotAskedYet(m, owners(k), k, i - 1);
      if r != m {
        ms := Take(owners, start, w, ms, R.CopyFailed(j, k, r));
      }
    }
  }

  lemma NotAskedYet(m: Node, replicas: seq<Node>, k: Key, i: nat)
    requires i < |replicas| && Distinct(replicas)
    ensures (k, replicas[i]) !in FailedTo(m, replicas[..i], k)
    ensures FailedTo(m, replicas[..i + 1], k) ==
            if replicas[i] == m then FailedTo(m, replicas[..i], k)
              else FailedTo(m, replicas[..i], k) + {(k, replicas[i])}
  {
    assert replicas[..i + 1] == replicas[..i] + [replicas[i]];
  }

  /** A whole rebalance whose copies all fail: it finishes, and no store has changed. */
  lemma FailingRebalance(owners: R.Placement, start: R.World, j: nat, m: Node, k: Key) returns (ms: seq<R.Move>)
    requires j !in start.jobs && Distinct(owners(k)) && owners(k) != []
    requires forall nk :: nk in start.held ==> nk.1 == k
    ensures var w := R.Run(owners, start, ms);
            && w.held == start.held && Finished(w, j, m) && w.jobs == start.jobs[j := w.jobs[j]]
  {
    hide R.LocalData, R.Enabled, Finished, FailedTo;
    var failed := if (m, k) in start.held then FailedTo(m, owners(k), k) else {};
    if (m, k) in start.held {
      ms := FailingCopies(owners, start, j, m, k, |owners(k)|);
      assert owners(k)[..|owners(k)|] == owners(k);
    } else {
      assert R.Enabled(owners, start, R.Begin(j, m)) by {
        FreshBegins(owners, start, j, m);
      }
      ms := Take(owners, start, start, [], R.Begin(j, m));
    }
    var w := R.World(start.held, start.jobs[j := Begun(start, j, m).(failed := failed)]);
    assert R.Run(owners, start, ms) == w;
    CanFinish(owners, start, j, m, k, failed);
    ms := Take(owners, start, w, ms, R.Finish(j));
    IsFinished(w, j, m);
  }

  lemma FreshBegins(owners: R.Placement, start: R.World, j: nat, m: Node)
    requires j !in start.jobs
    ensures R.Enabled(owners, start, R.Begin(j, m))
  {
  }

  lemma IsFinished(w: R.World, j: nat, m: Node)
    requires j in w.jobs && w.jobs[j].node == m
    ensures Finished(w.(jobs := w.jobs[j := w.jobs[j].(done := true)]), j, m)
  {
  }

  /** Every copy has failed, so there is nothing to clean up: the rebalance can finish. */
  lemma CanFinish(owners: R.Placement, start: R.World, j: nat, m: Node, k: Key, failed: set<(Key, Node)>)
    requires owners(k) != [] && forall nk :: nk in start.held ==> nk.1 == k
    requires (m, k) in start.held ==> failed == FailedTo(m, owners(k), k)
    ensures R.Enabled(owners, R.World(start.held, start.jobs[j := Begun(start, j, m).(failed := failed)]), R.Finish(j))
  {
    var job := Begun(start, j, m).(failed := failed);
    R.LocalDataIs(start.held, m);
    hide R.LocalData;
    forall l | l in job.snapshot
      ensures l == k && !R.Cleanable(owners, job, l)
      ensures forall r :: r in owners(l) && r != m ==> (l, r) in failed
    {
      assert (m, l) in start.held && (m, l).1 == k;
      if m !in owners(k) {
        assert owners(k)[0] in owners(k) && (k, owners(k)[0]) !in job.acked;
      }
    }
  }

  /** Every target's rebalance runs and fails. */
  lemma {:induction false} FailingRun(owners: R.Placement, start: R.World, k: Key, targets: set<Node>)
    returns (ms: seq<R.Move>)
    requires start.jobs == map[] && Distinct(owners(k)) && owners(k) != []
    requires forall nk :: nk in start.held ==> nk.1 == k
    ensures var w := R.Run(owners, start, ms);
            w.held == start.held && AllFinished(w, targets) && forall j :: j in w.jobs ==> j < |targets|
    decreases targets
  {
    if targets == {} {
      ms := [];
    } else {
      var m :| m in targets;
      var sofar := FailingRun(owners, start, k, targets - {m});
      var w := R.Run(owners, start, sofar);
      var j := |targets - {m}|;
      var more := FailingRebalance(owners, w, j, m, k);
      ms := sofar + more;
      R.RunTwice(owners, start, sofar, more);
      hide R.Run;
      StillFinished(w, R.Run(owners, w, more), j, m, targets - {m});
      assert targets == targets - {m} + {m};
    }
  }

  lemma StillFinished(w: R.World, t: R.World, j: nat, m: Node, targets: set<Node>)
    requires AllFinished(w, targets) && j !in w.jobs && Finished(t, j, m) && t.jobs == w.jobs[j := t.jobs[j]]
    ensures AllFinished(t, targets + {m})
  {
    forall p | p in targets + {m}
      ensures exists i :: Finished(t, i, p)
    {
      if p != m {
        var i :| Finished(w, i, p);
        assert Finished(t, i, p);
      }
    }
  }

  lemma FailedRebalances(l: Layout, ring: HashRing.State, x: Node, n: nat, k: Key, held: Held, targets: set<Node>)
    returns (ms: seq<R.Move>)
    requires Canonical(l, ring) && l.virtualNodes >= 1
    requires x !in ring.members && Separate(l, ring.members + {x}) && n > 0
    requires forall nk :: nk in held ==> nk.1 == k
    ensures var w := R.Run(PlacementOf(l, Added(l, ring, x), n), R.World(held, map[]), ms);
            w.held == held && AllFinished(w, targets)
  {
    hide Canonical, Separate, Replicas, Added;
    var owners := PlacementOf(l, Added(l, ring, x), n);
    NewOwners(l, ring, x, n, k);
    PlacementDistinct(l, Added(l, ring, x), n);
    ms := FailingRun(owners, R.World(held, map[]), k, targets);
  }

  lemma NewOwners(l: Layout, ring: HashRing.State, x: Node, n: nat, k: Key)
    requires Canonical(l, ring) && l.virtualNodes >= 1
    requires x !in ring.members && Separate(l, ring.members + {x}) && n > 0
    ensures PlacementOf(l, Added(l, ring, x), n)(k) != []
  {
    hide Canonical, Separate, Replicas, Added;
    AddedCanonical(l, ring, x);
    ReplicasExact(l, Added(l, ring, x), l.hash(k), n);
    AddedMembers(l, ring, x);
    assert x in Added(l, ring, x).members;
    assert PlacementOf(l, Added(l, ring, x), n)(k) == Replicas(Added(l, ring, x), l.hash(k), n);
  }

  // ------------------------------------------------------------------ chunks

  /** The same for a chunk: rebalances only ever add valid copies. */
  ghost predicate ChunkSuccessPasses(l: Layout, ring: HashRing.State, x: Node, n: nat, quorum: nat,
                                     id: Bytes -> ChunkId, c: ChunkId) {
    forall files, after ::
      ChunkQuorumHolds(Replicas(ring, l.hash(c), n), id, files, c, quorum) && KeepsValid(id, files, after) ==>
        ChunkQuorumHolds(Replicas(Added(l, ring, x), l.hash(c), n), id, after, c, quorum)
  }

  lemma ChunkSuccessPassesIff(l: Layout, ring: HashRing.State, x: Node, n: nat, quorum: nat,
                              id: Bytes -> ChunkId, data: Bytes)
    requires Canonical(l, ring) && l.virtualNodes >= 1 && x !in ring.members
    ensures ChunkSuccessPasses(l, ring, x, n, quorum, id, id(data)) <==> NoneDisplaced(l, ring, x, n, quorum, id(data))
  {
    hide Canonical, Replicas, Added, ChunkQuorumHolds, KeepsValid;
    var c := id(data);
    if NoneDisplaced(l, ring, x, n, quorum, c) {
      forall files, after | ChunkQuorumHolds(Replicas(ring, l.hash(c), n), id, files, c, quorum) &&
        KeepsValid(id, files, after)
        ensures ChunkQuorumHolds(Replicas(Added(l, ring, x), l.hash(c), n), id, after, c, quorum)
      {
        OwnersKeepChunkQuorum(l, ring, x, n, quorum, id, files, after, c);
      }
    } else {
      var some := LosingOwners(l, ring, x, n, quorum, c);
      var files := CopiesOn(some, c, data);
      CopiesOnHold(some, id, data, Replicas(ring, l.hash(c), n), quorum);
      CopiesOnHold(some, id, data, Replicas(Added(l, ring, x), l.hash(c), n), quorum);
      KeepsValidReflexive(id, files);
      assert ChunkQuorumHolds(Replicas(ring, l.hash(c), n), id, files, c, quorum);
    }
  }

  function CopiesOn(nodes: set<Node>, c: ChunkId, data: Bytes): Files {
    map r | r in nodes :: (r, c) := data
  }

  lemma CopiesOnHold(nodes: set<Node>, id: Bytes -> ChunkId, data: Bytes, replicas: seq<Node>, quorum: nat)
    ensures ChunkQuorumHolds(replicas, id, CopiesOn(nodes, id(data), data), id(data), quorum) <==>
            |Elements(replicas) * nodes| >= quorum
  {
    var files := CopiesOn(nodes, id(data), data);
    assert forall r :: (r, id(data)) in files <==> r in nodes;
    assert ChunkHolders(replicas, id, files, id(data)) == Elements(replicas) * nodes;
  }

  lemma OwnersKeepChunkQuorum(l: Layout, ring: HashRing.State, x: Node, n: nat, quorum: nat, id: Bytes -> ChunkId,
                              files: Files, after: Files, c: ChunkId)
    requires NoneDisplaced(l, ring, x, n, quorum, c) && KeepsValid(id, files, after)
    requires ChunkQuorumHolds(Replicas(ring, l.hash(c), n), id, files, c, quorum)
    ensures ChunkQuorumHolds(Replicas(Added(l, ring, x), l.hash(c), n), id, after, c, quorum)
  {
    hide Replicas, Added, ValidCopy;
    var was, now := Replicas(ring, l.hash(c), n), Replicas(Added(l, ring, x), l.hash(c), n);
    var holders := ChunkHolders(was, id, files, c);
    DistinctSize(was);
    SubsetSize(holders, Elements(was));
    if quorum > 0 {
      forall r | r in holders
        ensures r in ChunkHolders(now, id, after, c)
      {
        assert r in Elements(was) && r in Elements(now);
      }
      SubsetSize(holders, ChunkHolders(now, id, after, c));
    }
  }

  /** Every quorum of a key, or chunk, of which the join displaces no owner has passed to the new owners. */
  ghost predicate JoinCarriesUndisplaced(l: Layout, ring: HashRing.State, x: Node, n: nat, was: Held, held: Held,
                                         id: Bytes -> ChunkId, wasFiles: Files, files: Files) {
    && (forall k, u, quorum: nat ::
          QuorumHolds(Replicas(ring, l.hash(k), n), was, k, u, quorum) && NoneDisplaced(l, ring, x, n, quorum, k) ==>
            QuorumHolds(Replicas(Added(l, ring, x), l.hash(k), n), held, k, u, quorum))
    && (forall c, quorum: nat ::
          ChunkQuorumHolds(Replicas(ring, l.hash(c), n), id, wasFiles, c, quorum) &&
          NoneDisplaced(l, ring, x, n, quorum, c) ==>
            ChunkQuorumHolds(Replicas(Added(l, ring, x), l.hash(c), n), id, files, c, quorum))
  }

  lemma UndisplacedAll(l: Layout, ring: HashRing.State, x: Node, n: nat, was: Held, ms: seq<R.Move>,
                       id: Bytes -> ChunkId, wasFiles: Files, files: Files)
    requires KeepsValid(id, wasFiles, files)
    ensures JoinCarriesUndisplaced(l, ring, x, n, was,
                                   R.Run(PlacementOf(l, Added(l, ring, x), n), R.World(was, map[]), ms).held, id,
                                   wasFiles, files)
  {
    hide Replicas, Added, QuorumHolds, ChunkQuorumHolds, NoneDisplaced, R.Run, KeepsValid;
    var owners := PlacementOf(l, Added(l, ring, x), n);
    var held := R.Run(owners, R.World(was, map[]), ms).held;
    forall k, u, quorum: nat | QuorumHolds(Replicas(ring, l.hash(k), n), was, k, u, quorum) &&
      NoneDisplaced(l, ring, x, n, quorum, k)
      ensures QuorumHolds(Replicas(Added(l, ring, x), l.hash(k), n), held, k, u, quorum)
    {
      OwnersKeepQuorum(l, ring, x, n, quorum, was, ms, k, u);
      assert owners(k) == Replicas(Added(l, ring, x), l.hash(k), n);
    }
    forall c, quorum: nat | ChunkQuorumHolds(Replicas(ring, l.hash(c), n), id, wasFiles, c, quorum) &&
      NoneDisplaced(l, ring, x, n, quorum, c)
      ensures ChunkQuorumHolds(Replicas(Added(l, ring, x), l.hash(c), n), id, files, c, quorum)
    {
      OwnersKeepChunkQuorum(l, ring, x, n, quorum, id, wasFiles, files, c);
    }
  }
}
