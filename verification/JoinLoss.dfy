/**
 A successful join after which a quorum is gone (`AddMember`, internal/node/cluster_membership.go): every
 node takes the configuration and rebalances, every copy request is lost, and nobody looks at the replies.
 */
module JoinLoss {
  import opened Requests
  import opened Versions
  import opened Sequences
  import opened JoinSuccess
  import opened QuorumSurvival
  import C = ClusterConfig
  import Ch = ChunkMigration
  import H = HashRing
  import M = Migration
  import O = Objects
  import P = ConfigPublisher
  import R = Rebalance
  import W = RingWalk

  type Node = C.Node

  /** No copy request ever reaches its replica. */
  function CopiesLost(m: Node): M.RebalanceEnv {
    M.RebalanceEnv((k, r) => NotApplied, k => false, true, c => false, (c, r) => NotApplied)
  }

  function Acknowledged(m: Node): Outcome {
    Applied
  }

  /** All members run on their start configuration, and so does the newcomer, alone. */
  method StartCluster(l: H.Layout, current: seq<Node>, x: Node, n: nat, data: M.Cluster) returns (cluster: P.Cluster)
    requires current != [] && x !in current && l.virtualNodes >= 1 && H.Separate(l, Elements(current) + {x})
    ensures fresh(cluster) && cluster.Valid() && cluster.self == current[0] && cluster.data == data
    ensures cluster.layout == l && cluster.replicas == n && cluster.names == Elements(current) + {x}
    ensures cluster.nodes.Keys == Elements(current) + {x} && cluster.self in cluster.rings
    ensures cluster.nodes[cluster.self] == C.NodeConfig(0, Elements(current))
    ensures cluster.rings[cluster.self] == H.Built(l, current)
  {
    H.BuiltCanonical(l, current) by {
      assert H.Separate(l, Elements(current));
    }
    H.BuiltCanonical(l, [x]) by {
      assert H.Separate(l, Elements([x]));
    }
    assert Elements([x]) == {x};
    hide H.Canonical, H.Separate, H.Built;
    var nodes := (map m | m in current :: C.NodeConfig(0, Elements(current)))[x := C.NodeConfig(0, {x})];
    var rings := (map m | m in current :: H.Built(l, current))[x := H.Built(l, [x])];
    assert nodes.Keys == rings.Keys == Elements(current) + {x};
    cluster := new P.Cluster(current[0], nodes, rings, l, n, Elements(current) + {x}, data);
  }

  /** `quorum` old owners of the key are among these nodes, and fewer new ones. */
  ghost predicate Loses(l: H.Layout, current: seq<Node>, x: Node, n: nat, quorum: nat, k: string, some: set<Node>) {
    var ring := H.Built(l, current);
    && |Elements(W.Replicas(ring, l.hash(k), n)) * some| >= quorum
    && |Elements(W.Replicas(H.Added(l, ring, x), l.hash(k), n)) * some| < quorum
  }

  /** Such nodes exist for every key of which the join displaces an owner, and for every quorum that it has. */
  lemma LosesIff(l: H.Layout, current: seq<Node>, x: Node, n: nat, quorum: nat, k: string)
    requires x !in current && l.virtualNodes >= 1 && H.Separate(l, Elements(current) + {x})
    ensures (exists some :: Loses(l, current, x, n, quorum, k, some)) <==>
              !NoneDisplaced(l, H.Built(l, current), x, n, quorum, k)
  {
    var ring := H.Built(l, current);
    H.BuiltCanonical(l, current) by {
      assert H.Separate(l, Elements(current));
    }
    var was, now := W.Replicas(ring, l.hash(k), n), W.Replicas(H.Added(l, ring, x), l.hash(k), n);
    hide H.Canonical, H.Separate, H.Built, H.Added, W.Replicas;
    if !NoneDisplaced(l, ring, x, n, quorum, k) {
      var some := LosingOwners(l, ring, x, n, quorum, k);
      assert Loses(l, current, x, n, quorum, k, some);
    }
    if some :| Loses(l, current, x, n, quorum, k, some) {
      DistinctSize(was);
      SubsetSize(Elements(was) * some, Elements(was));
      if Elements(was) <= Elements(now) {
        SubsetSize(Elements(was) * some, Elements(now) * some);
      }
    }
  }

  /**
   A join that succeeds and loses a quorum: every node takes the configuration and answers its rebalance request,
   and afterwards fewer than `quorum` new owners of the key, and of the chunk, hold what `quorum` old owners held.
   `holders` and `keepers` can be chosen for exactly the keys and chunks of which the join displaces an owner
   (`LosesIff`).
   */
  method JoinLosesQuorum(l: H.Layout, current: seq<Node>, x: Node, n: nat, quorum: nat, k: string, value: Value,
                         holders: set<Node>, id: O.Bytes -> O.ChunkId, content: O.Bytes, keepers: set<Node>)
    returns (cluster: P.Cluster, ok: bool)
    requires current != [] && x !in current && l.virtualNodes >= 1 && H.Separate(l, Elements(current) + {x})
    requires Loses(l, current, x, n, quorum, k, holders) && Loses(l, current, x, n, quorum, id(content), keepers)
    ensures fresh(cluster) && cluster.Valid() && ok
    ensures forall m :: m in current + [x] ==>
              m in cluster.nodes && cluster.nodes[m] == C.NodeConfig(1, Elements(current) + {x})
    ensures var ring := H.Built(l, current);
            var was, now := W.Replicas(ring, l.hash(k), n), W.Replicas(H.Added(l, ring, x), l.hash(k), n);
            && QuorumHolds(was, OnNodes(holders, k, value), k, value.version, quorum)
            && !QuorumHolds(now, cluster.data.held, k, value.version, quorum)
    ensures var ring, c := H.Built(l, current), id(content);
            var was, now := W.Replicas(ring, l.hash(c), n), W.Replicas(H.Added(l, ring, x), l.hash(c), n);
            && ChunkQuorumHolds(was, id, CopiesOn(keepers, c, content), c, quorum)
            && !ChunkQuorumHolds(now, id, cluster.data.chunks.files, c, quorum)
  {
    hide *;
    var chunks := new Ch.Chunks(id, CopiesOn(keepers, id(content), content));
    var data := new M.Cluster(OnNodes(holders, k, value), chunks);
    cluster := StartCluster(l, current, x, n, data);
    NothingSent(l, current, x, n, quorum, k, holders);
    LosesKey(l, current, x, n, quorum, k, value, holders);
    LosesChunk(l, current, x, n, quorum, id, content, keepers);
    AllTake(cluster.nodes, current, x);
    var replies;
    ok, replies := cluster.AddMember(x, current, Acknowledged, Acknowledged, CopiesLost, Acknowledged);
  }

  lemma AllTake(nodes: map<Node, C.NodeConfig>, current: seq<Node>, x: Node)
    requires nodes.Keys == Elements(current) + {x}
    ensures x in Elements(current) + {x} && Acknowledged(if current == [] then x else current[0]) == Applied
    ensures forall m :: m in current || m == x ==> P.WillTake(nodes, m, Acknowledged, Acknowledged)
    ensures forall m :: m in current + [x] ==> m in Elements(current) + {x}
  {
  }

  lemma NothingSent(l: H.Layout, current: seq<Node>, x: Node, n: nat, quorum: nat, k: string, some: set<Node>)
    requires x !in current && l.virtualNodes >= 1 && H.Separate(l, Elements(current) + {x})
    requires Loses(l, current, x, n, quorum, k, some)
    ensures P.NothingArrives(PlacementOf(l, H.Added(l, H.Built(l, current), x), n), CopiesLost)
  {
    var ring := H.Built(l, current);
    H.BuiltCanonical(l, current) by {
      assert H.Separate(l, Elements(current));
    }
    hide H.Canonical, H.Separate, H.Built, H.Added, PlacementOf;
    NoReplicas(ring, l.hash(k));
    hide W.Replicas;
    assert n > 0;
    var owners := PlacementOf(l, H.Added(l, ring, x), n);
    forall j
      ensures owners(j) != []
    {
      NewOwners(l, ring, x, n, j);
    }
    NoneAnswer(owners);
  }

  lemma NoReplicas(ring: H.State, h: H.Hash)
    ensures Elements(W.Replicas(ring, h, 0)) == {}
  {
  }

  lemma NoneAnswer(owners: R.Placement)
    requires forall j :: owners(j) != []
    ensures P.NothingArrives(owners, CopiesLost)
  {
  }

  lemma LosesKey(l: H.Layout, current: seq<Node>, x: Node, n: nat, quorum: nat, k: string, value: Value,
                 some: set<Node>)
    requires Loses(l, current, x, n, quorum, k, some)
    ensures var ring := H.Built(l, current);
            && QuorumHolds(W.Replicas(ring, l.hash(k), n), OnNodes(some, k, value), k, value.version, quorum)
            && !QuorumHolds(W.Replicas(H.Added(l, ring, x), l.hash(k), n), OnNodes(some, k, value), k, value.version,
                            quorum)
  {
    var ring := H.Built(l, current);
    hide QuorumHolds, W.Replicas, H.Built, H.Added;
    OnNodesHold(some, k, value, W.Replicas(ring, l.hash(k), n), quorum);
    OnNodesHold(some, k, value, W.Replicas(H.Added(l, ring, x), l.hash(k), n), quorum);
  }

  lemma LosesChunk(l: H.Layout, current: seq<Node>, x: Node, n: nat, quorum: nat, id: O.Bytes -> O.ChunkId,
                   content: O.Bytes, some: set<Node>)
    requires Loses(l, current, x, n, quorum, id(content), some)
    ensures var ring, c := H.Built(l, current), id(content);
            && ChunkQuorumHolds(W.Replicas(ring, l.hash(c), n), id, CopiesOn(some, c, content), c, quorum)
            && !ChunkQuorumHolds(W.Replicas(H.Added(l, ring, x), l.hash(c), n), id, CopiesOn(some, c, content), c,
                                 quorum)
  {
    var ring := H.Built(l, current);
    hide ChunkQuorumHolds, W.Replicas, H.Built, H.Added;
    CopiesOnHold(some, id, content, W.Replicas(ring, l.hash(id(content)), n), quorum);
    CopiesOnHold(some, id, content, W.Replicas(H.Added(l, ring, x), l.hash(id(content)), n), quorum);
  }
}
