/**
 Adding and removing members end to end (internal/node/cluster_membership.go, internal/node/drain.go,
 internal/node/rebalance.go): the coordinator drains a leaving node, publishes the configuration, has every
 node rebalance under the ring it has by then, and rolls back when one of them fails.

 The configurations are a sound run of `ClusterConfig`, the rebalances a run of `Rebalance`.
 */
module ConfigPublisher {
  import opened Requests
  import opened Sequences
  import opened ConfigSteps
  import opened Migration
  import opened JoinSuccess
  import opened QuorumSurvival
  import C = ClusterConfig
  import Ch = ChunkMigration
  import H = HashRing
  import O = Objects
  import R = Rebalance
  import W = RingWalk

  type Node = C.Node
  type Bytes = O.Bytes
  type ChunkId = O.ChunkId
  type Files = O.Files

  /** A configuration as it is sent, with its list of members. */
  datatype Config = Config(version: nat, members: seq<Node>)

  function Summary(config: Config): NodeConfig {
    C.NodeConfig(config.version, Elements(config.members))
  }

  /** What a node answers to a rebalance request. */
  datatype Reply = Reply(keys: Counts, chunks: Ch.ChunkCounts)

  /** The nodes that reported no failed key, or no failed chunk. */
  function CleanKeys(replies: map<Node, Reply>): set<Node> {
    set m | m in replies && replies[m].keys.failed == 0
  }

  function CleanChunks(replies: map<Node, Reply>): set<Node> {
    set m | m in replies && replies[m].chunks.failed == 0
  }

  /** The node answers both the sync and the rebalance request with success. */
  predicate WillTake(nodes: map<Node, NodeConfig>, n: Node, sync: Node -> Outcome, asked: Node -> Outcome) {
    Succeeds(nodes, n, sync(n)) && asked(n).Applied?
  }

  /** Nothing the leaving node has to read or send fails. */
  ghost predicate DrainWorks(held: Held, id: Bytes -> ChunkId, files: Files, x: Node, future: R.Placement,
                             env: DrainEnv) {
    && (forall k, r :: (x, k) in held && r in future(k) ==> env.key(k, r) == Applied)
    && env.listed
    && (forall c :: (x, c) in files ==>
          Ch.Sendable(id, files, x, c, env.unreadable) && forall r :: r in future(c) ==> env.chunk(c, r) == Applied)
  }

  /** What a node holds, in the order its map or directory happens to be listed. */
  method Listing<V>(stores: map<(Node, string), V>, n: Node) returns (order: seq<string>)
    ensures Distinct(order) && forall k :: (n, k) in stores <==> k in order
  {
    order := [];
    var rest := set nk | nk in stores && nk.0 == n :: nk.1;
    assert forall k :: (n, k) in stores <==> k in rest;
    while rest != {}
      invariant Distinct(order) && forall k :: (n, k) in stores <==> k in order || k in rest
      invariant forall k :: k in order ==> k !in rest
      decreases rest
    {
      var k :| k in rest;
      order := order + [k];
      rest := rest - {k};
    }
  }

  /** The first `i` nodes were asked with success, and there is one reply for each. */
  predicate SoFar(targets: seq<Node>, asked: Node -> Outcome, replies: map<Node, Reply>, i: nat)
    requires i <= |targets|
  {
    (forall j :: 0 <= j < i ==> asked(targets[j]).Applied?) && replies.Keys == Elements(targets[..i])
  }

  lemma SoFarBegins(targets: seq<Node>, asked: Node -> Outcome, replies: map<Node, Reply>)
    requires replies == map[]
    ensures SoFar(targets, asked, replies, 0)
  {
  }

  lemma SoFarMore(targets: seq<Node>, asked: Node -> Outcome, had: map<Node, Reply>, replies: map<Node, Reply>, i: nat)
    requires i < |targets| && SoFar(targets, asked, had, i)
    ensures asked(targets[i]).Applied? && replies.Keys == had.Keys + {targets[i]} ==>
              SoFar(targets, asked, replies, i + 1)
    ensures !asked(targets[i]).Applied? ==> exists n :: n in targets && !asked(n).Applied?
  {
    assert targets[..i + 1] == targets[..i] + [targets[i]];
    assert targets[i] in targets;
  }

  lemma SoFarEnds(targets: seq<Node>, asked: Node -> Outcome, replies: map<Node, Reply>)
    requires SoFar(targets, asked, replies, |targets|)
    ensures (forall n :: n in targets ==> asked(n).Applied?) && replies.Keys == Elements(targets)
  {
    assert targets[..|targets|] == targets;
  }

  /** The first `i` nodes were synced with success, and `applied` lists them. */
  predicate SyncedSoFar(targets: seq<Node>, was: map<Node, NodeConfig>, nodes: map<Node, NodeConfig>,
                        sync: Node -> Outcome, applied: seq<Node>, i: nat)
    requires i <= |targets|
  {
    applied == targets[..i] && nodes.Keys == was.Keys &&
      forall j :: 0 <= j < i ==> Succeeds(was, targets[j], sync(targets[j]))
  }

  lemma SyncedBegins(targets: seq<Node>, nodes: map<Node, NodeConfig>, sync: Node -> Outcome)
    ensures SyncedSoFar(targets, nodes, nodes, sync, [], 0)
  {
  }

  lemma SyncedKnows(targets: seq<Node>, was: map<Node, NodeConfig>, nodes: map<Node, NodeConfig>, sync: Node -> Outcome,
                    applied: seq<Node>, i: nat)
    requires i < |targets| && SyncedSoFar(targets, was, nodes, sync, applied, i)
    ensures applied == targets[..i] && (i == 0 <==> applied == [])
    ensures !Succeeds(nodes, targets[i], sync(targets[i])) ==> exists n :: n in targets && !Succeeds(was, n, sync(n))
  {
    if !Succeeds(nodes, targets[i], sync(targets[i])) {
      assert targets[i] in targets && !Succeeds(was, targets[i], sync(targets[i]));
    }
  }

  lemma SyncedMore(targets: seq<Node>, was: map<Node, NodeConfig>, before: map<Node, NodeConfig>,
                   nodes: map<Node, NodeConfig>, sync: Node -> Outcome, applied: seq<Node>, i: nat)
    requires i < |targets| && SyncedSoFar(targets, was, before, sync, applied, i)
    requires nodes.Keys == before.Keys && Succeeds(before, targets[i], sync(targets[i]))
    ensures SyncedSoFar(targets, was, nodes, sync, applied + [targets[i]], i + 1)
  {
    assert targets[..i + 1] == targets[..i] + [targets[i]];
  }

  lemma SyncedEnds(targets: seq<Node>, was: map<Node, NodeConfig>, nodes: map<Node, NodeConfig>, sync: Node -> Outcome,
                   applied: seq<Node>)
    requires SyncedSoFar(targets, was, nodes, sync, applied, |targets|)
    ensures applied == targets && forall n :: n in targets ==> Succeeds(was, n, sync(n))
  {
  }

  lemma TakesAll(targets: seq<Node>, nodes: map<Node, NodeConfig>, sync: Node -> Outcome, asked: Node -> Outcome)
    ensures (forall n :: n in targets ==> Succeeds(nodes, n, sync(n))) &&
            (forall n :: n in targets ==> asked(n).Applied?)
            <==> forall n :: n in targets ==> WillTake(nodes, n, sync, asked)
  {
  }

  // ------------------------------------------------------------------ what rebalances came to

  /** From stores `was` the rebalances so far are a finished run under one placement, and clean replies are true. */
  ghost predicate Pass(owners: R.Placement, was: Held, held: Held, moves: seq<R.Move>, targets: set<Node>,
                       replies: map<Node, Reply>) {
    var w := R.Run(owners, R.World(was, map[]), moves);
    && w.held == held
    && (forall j :: j in w.jobs ==> w.jobs[j].done && w.jobs[j].node in targets)
    && AllFinished(w, replies.Keys)
    && (forall m :: m in CleanKeys(replies) ==> R.CleanlyRebalanced(w, m))
  }

  ghost predicate ChunkPass(id: Bytes -> ChunkId, owners: R.Placement, was: Files, files: Files,
                            replies: map<Node, Reply>) {
    O.KeepsValid(id, was, files) && forall m :: m in CleanChunks(replies) ==> SpreadFrom(id, was, files, m, owners)
  }

  lemma PassBegins(owners: R.Placement, held: Held, id: Bytes -> ChunkId, files: Files, targets: set<Node>)
    ensures Pass(owners, held, held, [], targets, map[]) && ChunkPass(id, owners, files, files, map[])
  {
  }

  /** No request of these rebalances reaches its replica, and every key has owners. */
  ghost predicate NothingArrives(owners: R.Placement, envs: Node -> RebalanceEnv) {
    forall m :: LostAll(owners, envs(m))
  }

  ghost predicate LostAll(owners: R.Placement, env: RebalanceEnv) {
    AllLost(owners, env.key) && forall c, r :: env.chunk(c, r).NotApplied?
  }

  lemma LostIs(owners: R.Placement, env: RebalanceEnv)
    requires LostAll(owners, env)
    ensures AllLost(owners, env.key) && forall c, r :: env.chunk(c, r).NotApplied?
  {
  }

  lemma NothingOf(owners: R.Placement, envs: Node -> RebalanceEnv, m: Node)
    ensures NothingArrives(owners, envs) ==> LostAll(owners, envs(m))
  {
  }

  /** Every job number used so far is below `j`. */
  ghost predicate Below(w: R.World, j: nat) {
    forall i :: i in w.jobs ==> i < j
  }

  lemma LaterNumber(owners: R.Placement, was: Held, moves: seq<R.Move>, j: nat)
    ensures Below(R.Run(owners, R.World(was, map[]), moves), j) ==>
              Below(R.Run(owners, R.World(was, map[]), moves), j + 1)
  {
  }

  /** One more finished rebalance, whether or not its reply arrives. */
  lemma PassMore(owners: R.Placement, was: Held, before: Held, held: Held, moves: seq<R.Move>, more: seq<R.Move>,
                 targets: set<Node>, replies: map<Node, Reply>, n: Node, j: nat, reply: Reply)
    requires Pass(owners, was, before, moves, targets, replies) && n in targets
    requires var v := R.Run(owners, R.World(was, map[]), moves);
             && Below(v, j)
             && var w := R.Run(owners, v, more);
                && w.held == held && j in w.jobs && w.jobs == v.jobs[j := w.jobs[j]] && w.jobs[j].done &&
                   w.jobs[j].node == n
                && (reply.keys.failed == 0 <==> R.FinishedCleanly(w, j, n))
    ensures Pass(owners, was, held, moves + more, targets, replies)
    ensures Pass(owners, was, held, moves + more, targets, replies[n := reply])
    ensures Below(R.Run(owners, R.World(was, map[]), moves + more), j + 1)
  {
    var v := R.Run(owners, R.World(was, map[]), moves);
    var w := R.Run(owners, v, more);
    R.RunTwice(owners, R.World(was, map[]), moves, more);
    hide R.Run, AllFinished;
    assert j !in v.jobs && Finished(w, j, n);
    StillFinished(v, w, j, n, replies.Keys);
    assert AllFinished(w, replies.Keys) by {
      hide *;
      FewerFinished(w, replies.Keys, n);
    }
    assert replies[n := reply].Keys == replies.Keys + {n};
    forall m | m in CleanKeys(replies) ensures R.CleanlyRebalanced(w, m) {
      StillClean(v, w, j, m);
    }
  }

  lemma FewerFinished(w: R.World, targets: set<Node>, n: Node)
    requires AllFinished(w, targets + {n})
    ensures AllFinished(w, targets)
  {
  }

  lemma StillClean(v: R.World, w: R.World, j: nat, m: Node)
    requires R.CleanlyRebalanced(v, m) && j !in v.jobs && j in w.jobs && w.jobs == v.jobs[j := w.jobs[j]]
    ensures R.CleanlyRebalanced(w, m)
  {
    var i :| R.FinishedCleanly(v, i, m);
    assert R.FinishedCleanly(w, i, m);
  }

  lemma ChunkPassMore(id: Bytes -> ChunkId, owners: R.Placement, was: Files, before: Files, files: Files,
                      replies: map<Node, Reply>, n: Node, listing: seq<ChunkId>, reply: Reply)
    requires ChunkPass(id, owners, was, before, replies) && O.KeepsValid(id, before, files)
    requires forall c :: (n, c) in before <==> c in listing
    requires reply.chunks.failed == 0 ==> Ch.Everywhere(id, files, listing, owners)
    ensures ChunkPass(id, owners, was, files, replies) && ChunkPass(id, owners, was, files, replies[n := reply])
  {
  }

  /** What the pass after a join means for the quorums. */
  lemma JoinPasses(l: H.Layout, ring: H.State, x: Node, n: nat, was: Held, held: Held, moves: seq<R.Move>,
                   id: Bytes -> ChunkId, wasFiles: Files, files: Files, targets: set<Node>, replies: map<Node, Reply>)
    requires H.Canonical(l, ring) && l.virtualNodes >= 1
    requires x !in ring.members && H.Separate(l, ring.members + {x})
    requires Pass(PlacementOf(l, H.Added(l, ring, x), n), was, held, moves, targets, replies)
    requires ChunkPass(id, PlacementOf(l, H.Added(l, ring, x), n), wasFiles, files, replies)
    ensures JoinCarries(l, ring, x, n, was, held, CleanKeys(replies))
    ensures JoinCarriesChunks(l, ring, x, n, id, wasFiles, files, CleanChunks(replies))
    ensures FailedJoinHarmless(l, ring, x, n, was, held) && O.KeepsValid(id, wasFiles, files)
    ensures JoinCarriesUndisplaced(l, ring, x, n, was, held, id, wasFiles, files)
  {
    hide H.Canonical, H.Separate, H.Added, PlacementOf, JoinCarries, JoinCarriesChunks, JoinCarriesUndisplaced,
         FailedJoinHarmless, R.Run, R.CleanlyRebalanced, SpreadFrom, AllFinished;
    UndisplacedAll(l, ring, x, n, was, moves, id, wasFiles, files);
    JoinCarriesAll(l, ring, x, n, was, moves, CleanKeys(replies));
    JoinCarriesAllChunks(l, ring, x, n, id, wasFiles, files, CleanChunks(replies));
    FailedJoinSparesAll(l, ring, x, n, was, moves);
  }

  /** What the drain and the pass after it mean for the quorums; a drain may have failed, or no node rebalanced. */
  lemma LeavePasses(l: H.Layout, ring: H.State, x: Node, n: nat, was: Held, drained: Held, held: Held,
                    moves: seq<R.Move>, id: Bytes -> ChunkId, wasFiles: Files, drainedFiles: Files, files: Files,
                    targets: set<Node>, replies: map<Node, Reply>)
    requires H.Canonical(l, ring) && l.virtualNodes >= 1 && x in ring.members && x !in targets
    requires NothingLost(was, drained) && O.KeepsValid(id, wasFiles, drainedFiles)
    requires Pass(PlacementOf(l, H.Removed(l, ring, x), n), drained, held, moves, targets, replies)
    requires ChunkPass(id, PlacementOf(l, H.Removed(l, ring, x), n), drainedFiles, files, replies)
    ensures QuorumsStay(l, ring, n, was, held) && O.KeepsValid(id, wasFiles, files)
    ensures Drained(was, drained, x, PlacementOf(l, H.Removed(l, ring, x), n)) ==>
              LeaveCarries(l, ring, x, n, was, held)
    ensures SpreadFrom(id, wasFiles, drainedFiles, x, PlacementOf(l, H.Removed(l, ring, x), n)) ==>
              LeaveCarriesChunks(l, ring, x, n, id, wasFiles, files)
  {
    hide H.Canonical, H.Removed, PlacementOf, LeaveCarries, LeaveCarriesChunks, QuorumsStay, R.Run, Drained,
         NothingLost, R.CleanlyRebalanced, SpreadFrom, O.KeepsValid;
    FailedLeaveSparesAll(l, ring, x, n, was, drained, moves);
    O.KeepsValidTransitive(id, wasFiles, drainedFiles, files);
    if Drained(was, drained, x, PlacementOf(l, H.Removed(l, ring, x), n)) {
      LeaveCarriesAll(l, ring, x, n, was, drained, moves);
    }
    if SpreadFrom(id, wasFiles, drainedFiles, x, PlacementOf(l, H.Removed(l, ring, x), n)) {
      SpreadStays(id, wasFiles, drainedFiles, files, x, PlacementOf(l, H.Removed(l, ring, x), n));
      LeaveCarriesAllChunks(l, ring, x, n, id, wasFiles, files);
    }
  }

  lemma StaysReflexive(l: H.Layout, ring: H.State, n: nat, held: Held)
    ensures QuorumsStay(l, ring, n, held, held)
  {
  }

  lemma SpreadStays(id: Bytes -> ChunkId, was: Files, before: Files, files: Files, m: Node, owners: R.Placement)
    requires SpreadFrom(id, was, before, m, owners) && O.KeepsValid(id, before, files)
    ensures SpreadFrom(id, was, files, m, owners)
  {
  }

  class Cluster {
    /** The only node that publishes configurations. */
    const self: Node
    const layout: H.Layout
    const replicas: nat
    const data: Migration.Cluster
    var nodes: map<Node, NodeConfig>
    var rings: map<Node, H.State>
    ghost const names: set<Node>  // every node that can ever be a member
    ghost const start: C.State
    ghost var trace: seq<C.Step>

    ghost function State(): C.State
      reads this
    {
      C.Run(self, start, trace)
    }

    /** Every running node's ring is the well-formed ring of its members. */
    ghost predicate RingsRight()
      reads `nodes, `rings
    {
      rings.Keys == nodes.Keys && forall n :: n in nodes ==> RingRight(rings[n], nodes[n].members)
    }

    ghost predicate RingRight(ring: H.State, members: set<Node>) {
      H.Canonical(layout, ring) && ring.members == members && members <= names
    }

    ghost predicate Sane()
      reads this
    {
      && C.Initial(self, start) && C.SoundRun(self, start, trace)
      && self in nodes && RingsRight()
      && layout.virtualNodes >= 1 && H.Separate(layout, names)
    }

    /** Between calls the nodes are what the steps so far lead to, and nothing is being published. */
    ghost predicate Valid()
      reads this
    {
      Sane() && nodes == State().nodes && State().job.Idle?
    }

    constructor (self: Node, nodes: map<Node, NodeConfig>, rings: map<Node, H.State>, layout: H.Layout, replicas: nat,
                 names: set<Node>, data: Migration.Cluster)
      requires self in nodes && self in nodes[self].members
      requires forall n :: n in nodes ==> nodes[n].version == 0
      requires layout.virtualNodes >= 1 && H.Separate(layout, names)
      requires rings.Keys == nodes.Keys
      requires forall n :: n in nodes ==>
                 H.Canonical(layout, rings[n]) && rings[n].members == nodes[n].members && nodes[n].members <= names
      ensures Valid() && this.self == self && this.nodes == nodes && this.rings == rings && this.data == data
      ensures this.layout == layout && this.replicas == replicas && this.names == names
    {
      this.self, this.nodes, this.rings, this.data := self, nodes, rings, data;
      this.layout, this.replicas, this.names := layout, replicas, names;
      start := C.State(nodes, {}, C.Idle, map[]);
      trace := [];
    }

    /**
     `sendMembershipSync`; a configuration that is taken also becomes the
     node's ring (`MembershipSync.Member.Sync`).
     */
    method SendSync(target: Node, config: Config, outcome: Outcome) returns (ok: bool)
      requires RingsRight() && H.Separate(layout, names) && Elements(config.members) <= names
      modifies `nodes, `rings
      ensures nodes == Received(old(nodes), target, Summary(config), outcome) && RingsRight()
      ensures ok == Succeeds(old(nodes), target, outcome)
    {
      if target !in nodes || outcome.NotApplied? {
        return false;
      }
      if config.version != 0 && config.version > nodes[target].version {
        H.BuiltCanonical(layout, config.members) by {
          assert H.Separate(layout, Elements(config.members));
        }
        nodes := nodes[target := C.NodeConfig(config.version, Elements(config.members))];
        rings := rings[target := H.Built(layout, config.members)];
      }
      return outcome.Applied?;
    }

    /**
     `AddMember`. On success every member of the new list has exactly the new configuration; every quorum of a key
     of which no owner is displaced has passed to the new owners, and every other one for a version that a cleanly
     rebalanced node held. On failure the coordinator is back
     on its old members, under a version above the one that failed, and the old owners keep every quorum that is
     not all of them.
     */
    method AddMember(member: Node, current: seq<Node>, sync: Node -> Outcome, asked: Node -> Outcome,
                     envs: Node -> RebalanceEnv, undo: Node -> Outcome)
      returns (ok: bool, replies: map<Node, Reply>)
      requires Valid() && Elements(current) == nodes[self].members && member in names
      requires sync(self) != AppliedThenError && undo(self) != NotApplied
      modifies `nodes, `rings, `trace, data`held, data`hints, data.chunks`files
      ensures Valid() && old(trace) <= trace && self in nodes
      ensures member in current ==> ok && nodes == old(nodes) && rings == old(rings) && data.held == old(data.held)
      ensures ok <==>
                member in current || forall n :: n in current || n == member ==> WillTake(old(nodes), n, sync, asked)
      ensures ok && member !in current ==>
                var next := C.NodeConfig(old(nodes[self]).version + 1, old(nodes[self]).members + {member});
                forall n :: n in next.members ==> n in nodes && nodes[n] == next
      ensures !ok ==> nodes[self] == C.NodeConfig(old(nodes[self]).version + 2, old(nodes[self]).members)
      ensures ok && member !in current ==>
                && replies.Keys == old(nodes[self]).members + {member}
                && JoinCarriesUndisplaced(layout, old(rings[self]), member, replicas, old(data.held), data.held,
                                          data.chunks.id, old(data.chunks.files), data.chunks.files)
                && JoinCarries(layout, old(rings[self]), member, replicas, old(data.held), data.held,
                               CleanKeys(replies))
                && JoinCarriesChunks(layout, old(rings[self]), member, replicas, data.chunks.id, old(data.chunks.files),
                                     data.chunks.files, CleanChunks(replies))
      ensures NothingArrives(PlacementOf(layout, H.Added(layout, old(rings[self]), member), replicas), envs) ==>
                data.held == old(data.held) && data.chunks.files == old(data.chunks.files)
      ensures !ok ==> FailedJoinHarmless(layout, old(rings[self]), member, replicas, old(data.held), data.held)
      ensures O.KeepsValid(data.chunks.id, old(data.chunks.files), data.chunks.files)
    {
      hide *;
      CoordinatorRuns();
      replies := map[];
      O.KeepsValidReflexive(data.chunks.id, data.chunks.files);
      if member in current {
        return true, replies;
      }
      var allMembers := current + [member];
      var previous := Config(nodes[self].version, current);
      var next := Config(previous.version + 1, allMembers);
      ghost var ring := rings[self];
      JoinRings(member, current, allMembers);
      JoinBegins(member, current, allMembers, previous, next);
      ghost var moves;
      ok, replies, moves :=
        ApplyClusterConfig(allMembers, previous, next, H.Added(layout, ring, member), sync, asked, envs, undo);
      JoinPasses(layout, ring, member, replicas, old(data.held), data.held, moves, data.chunks.id,
                 old(data.chunks.files), data.chunks.files, Elements(allMembers), replies);
      CoordinatorRuns();
    }

    lemma JoinRings(member: Node, current: seq<Node>, allMembers: seq<Node>)
      requires Valid() && Elements(current) == nodes[self].members && member in names && member !in current
      requires allMembers == current + [member]
      ensures forall n :: n in allMembers <==> n in current || n == member
      ensures forall n :: n in allMembers <==> n in nodes[self].members + {member}
      ensures Elements(allMembers) == nodes[self].members + {member}
      ensures H.Canonical(layout, rings[self]) && layout.virtualNodes >= 1
      ensures H.Separate(layout, rings[self].members + {member}) && member !in rings[self].members
      ensures RingRight(H.Added(layout, rings[self], member), Elements(allMembers))
    {
      assert Elements(allMembers) == nodes[self].members + {member};
      assert H.Separate(layout, rings[self].members + {member});
      hide H.Separate, H.Canonical, C.Run, C.SoundRun, H.Added, C.Initial;
      H.AddedCanonical(layout, rings[self], member);
      AddedMembers(layout, rings[self], member);
    }

    ghost method JoinBegins(member: Node, current: seq<Node>, allMembers: seq<Node>, previous: Config, next: Config)
      requires Valid() && Elements(current) == nodes[self].members && member in names && member !in current
      requires allMembers == current + [member] && Elements(allMembers) == nodes[self].members + {member}
      requires previous == Config(nodes[self].version, current) && next == Config(previous.version + 1, allMembers)
      modifies `trace
      ensures Publishing(allMembers, previous, next) && nodes[self] == Summary(previous) && old(trace) <= trace
      ensures Summary(next) == C.NodeConfig(nodes[self].version + 1, nodes[self].members + {member})
      ensures RollbackOf(Summary(previous), Summary(next)) == C.NodeConfig(nodes[self].version + 2, nodes[self].members)
    {
      hide H.Separate, H.Canonical, C.Run, C.SoundRun, C.Initial;
      PublishingBegins(self, start, trace, C.AddMember(member, allMembers));
      trace := trace + [C.AddMember(member, allMembers)];
    }

    /**
     `RemoveMember` of a node other than the coordinator. Nothing is published unless the node drained. On success
     every remaining member has exactly the new configuration, and every quorum the remaining members can form has
     passed to the new owners. On failure every old owner still holds what it held.
     */
    method RemoveMember(member: Node, current: seq<Node>, drain: Outcome, drainEnv: DrainEnv, sync: Node -> Outcome,
                        asked: Node -> Outcome, envs: Node -> RebalanceEnv, undo: Node -> Outcome)
      returns (ok: bool, replies: map<Node, Reply>)
      requires Valid() && Elements(current) == nodes[self].members && Distinct(current)
      requires member != self && sync(self) != AppliedThenError && undo(self) != NotApplied
      modifies `nodes, `rings, `trace, data`held, data`hints, data.chunks`files
      ensures Valid() && old(trace) <= trace && self in nodes
      ensures var drains := member in current && |current| > 1 && Succeeds(old(nodes), member, drain)
                            && DrainWorks(old(data.held), data.chunks.id, old(data.chunks.files), member,
                                          PlacementOf(layout, H.Removed(layout, old(rings[self]), member), replicas),
                                          drainEnv);
              && (ok <==> drains && forall n :: n in current && n != member ==> WillTake(old(nodes), n, sync, asked))
              && (!drains ==> nodes == old(nodes) && rings == old(rings))
              && (!ok && drains ==> nodes[self] == C.NodeConfig(old(nodes[self]).version + 2, old(nodes[self]).members))
      ensures ok ==>
                var next := C.NodeConfig(old(nodes[self]).version + 1, old(nodes[self]).members - {member});
                forall n :: n in next.members ==> n in nodes && nodes[n] == next
      ensures ok ==>
                && replies.Keys == old(nodes[self]).members - {member}
                && LeaveCarries(layout, old(rings[self]), member, replicas, old(data.held), data.held)
                && LeaveCarriesChunks(layout, old(rings[self]), member, replicas, data.chunks.id,
                                      old(data.chunks.files), data.chunks.files)
      ensures !ok ==> QuorumsStay(layout, old(rings[self]), replicas, old(data.held), data.held)
      ensures O.KeepsValid(data.chunks.id, old(data.chunks.files), data.chunks.files)
    {
      hide *;
      CoordinatorRuns();
      replies := map[];
      ghost var ring := rings[self];
      StaysReflexive(layout, ring, replicas, data.held);
      O.KeepsValidReflexive(data.chunks.id, data.chunks.files);
      if member !in current {
        return false, replies;
      }
      if |current| <= 1 {
        return false, replies;
      }
      var future := Without(current, member);
      LeaveRings(member, current, future);
      ok := SendDrain(member, future, drain, drainEnv);
      ghost var drained, drainedFiles := data.held, data.chunks.files;
      ghost var moves := [];
      if !ok {
        PassBegins(PlacementOf(layout, H.Removed(layout, ring, member), replicas), drained, data.chunks.id,
                   drainedFiles, {});
        LeavePasses(layout, ring, member, replicas, old(data.held), drained, data.held, moves, data.chunks.id,
                    old(data.chunks.files), drainedFiles, data.chunks.files, {}, map[]);
        return false, replies;
      }
      var previous := Config(nodes[self].version, current);
      var next := Config(previous.version + 1, future);
      LeaveBegins(member, current, future, previous, next);
      ok, replies, moves :=
        ApplyClusterConfig(future, previous, next, H.Removed(layout, ring, member), sync, asked, envs, undo);
      LeavePasses(layout, ring, member, replicas, old(data.held), drained, data.held, moves, data.chunks.id,
                  old(data.chunks.files), drainedFiles, data.chunks.files, Elements(future), replies);
      CoordinatorRuns();
    }

    lemma LeaveRings(member: Node, current: seq<Node>, future: seq<Node>)
      requires Valid() && Elements(current) == nodes[self].members
      requires member in current && future == Keep(W.Other(member), current)
      ensures forall n :: n in future <==> n in current && n != member
      ensures forall n :: n in future <==> n in nodes[self].members - {member}
      ensures Elements(future) == nodes[self].members - {member} && member !in Elements(future)
      ensures H.Canonical(layout, rings[self]) && layout.virtualNodes >= 1 && member in rings[self].members
      ensures RingRight(H.Removed(layout, rings[self], member), Elements(future))
      ensures H.Built(layout, future) == H.Removed(layout, rings[self], member)
    {
      hide H.Separate, H.Canonical, C.Run, C.SoundRun, H.Removed, C.Initial, H.Built;
      forall n ensures n in future <==> n in current && n != member {
        KeepMember(W.Other(member), current, n);
      }
      assert Elements(future) == nodes[self].members - {member};
      H.RemovedCanonical(layout, rings[self], member);
      RemovedMembers(layout, rings[self], member);
      DrainRingIsSurvivorRing(layout, rings[self], member, future);
    }

    ghost method LeaveBegins(member: Node, current: seq<Node>, future: seq<Node>, previous: Config, next: Config)
      requires Valid() && Elements(current) == nodes[self].members && Distinct(current)
      requires member != self && member in current && |current| > 1 &&
               Elements(future) == nodes[self].members - {member}
      requires previous == Config(nodes[self].version, current) && next == Config(previous.version + 1, future)
      modifies `trace
      ensures Publishing(future, previous, next) && nodes[self] == Summary(previous) && old(trace) <= trace
      ensures Summary(next) == C.NodeConfig(nodes[self].version + 1, nodes[self].members - {member})
      ensures RollbackOf(Summary(previous), Summary(next)) == C.NodeConfig(nodes[self].version + 2, nodes[self].members)
    {
      hide H.Separate, H.Canonical, C.Run, C.SoundRun, C.Initial, C.Inv;
      DistinctSize(current);
      CoordinatorIsMember();
      assert self in Elements(future);
      PublishingBegins(self, start, trace, C.RemoveMember(member, future));
      trace := trace + [C.RemoveMember(member, future)];
    }

    lemma CoordinatorRuns()
      requires Valid()
      ensures self in nodes && self in rings
    {
    }

    lemma CoordinatorIsMember()
      requires Valid()
      ensures self in nodes[self].members
    {
      C.InvAlways(self, start, trace);
    }

    /** `removeMember`. */
    method Without(members: seq<Node>, member: Node) returns (result: seq<Node>)
      ensures result == Keep(W.Other(member), members)
    {
      result := [];
      var i := 0;
      while i < |members|
        invariant 0 <= i <= |members| && result == Keep(W.Other(member), members[..i])
      {
        assert members[..i + 1][..i] == members[..i];
        if members[i] != member {
          result := result + [members[i]];
        }
        i := i + 1;
      }
      assert members[..i] == members;
    }

    /** `sendDrain`: the leaving node builds the future ring from the list it is sent. */
    method SendDrain(target: Node, future: seq<Node>, outcome: Outcome, env: DrainEnv) returns (ok: bool)
      modifies data`held, data.chunks`files
      ensures var owners := PlacementOf(layout, H.Built(layout, future), replicas);
              && NothingLost(old(data.held), data.held)
              && O.KeepsValid(data.chunks.id, old(data.chunks.files), data.chunks.files)
              && (ok <==> Succeeds(nodes, target, outcome)
                          && DrainWorks(old(data.held), data.chunks.id, old(data.chunks.files), target, owners, env))
              && (ok ==> Drained(old(data.held), data.held, target, owners)
                         && SpreadFrom(data.chunks.id, old(data.chunks.files), data.chunks.files, target, owners))
    {
      O.KeepsValidReflexive(data.chunks.id, data.chunks.files);
      if target !in nodes || outcome.NotApplied? {
        return false;
      }
      var order := Listing(data.held, target);
      var listing := Listing(data.chunks.files, target);
      var drained := data.Drain(target, order, listing, PlacementOf(layout, H.Built(layout, future), replicas), env);
      return drained && outcome.Applied?;
    }

    method ApplyClusterConfig(targets: seq<Node>, previous: Config, next: Config, ghost ring: H.State,
                              sync: Node -> Outcome, asked: Node -> Outcome, envs: Node -> RebalanceEnv,
                              undo: Node -> Outcome)
      returns (ok: bool, replies: map<Node, Reply>, ghost moves: seq<R.Move>)
      requires Publishing(targets, previous, next) && nodes[self] == Summary(previous)
      requires sync(self) != AppliedThenError && undo(self) != NotApplied
      requires RingRight(ring, Elements(targets))
      modifies `nodes, `rings, `trace, data`held, data`hints, data.chunks`files
      ensures Valid() && old(trace) <= trace
      ensures ok <==> forall n :: n in targets ==> WillTake(old(nodes), n, sync, asked)
      ensures ok ==>
                replies.Keys == Elements(targets) &&
                forall n :: n in targets ==> n in nodes && nodes[n] == Summary(next)
      ensures !ok ==> nodes[self] == RollbackOf(Summary(previous), Summary(next))
      ensures NothingArrives(PlacementOf(layout, ring, replicas), envs) ==>
                data.held == old(data.held) && data.chunks.files == old(data.chunks.files)
      ensures Pass(PlacementOf(layout, ring, replicas), old(data.held), data.held, moves, Elements(targets), replies)
      ensures ChunkPass(data.chunks.id, PlacementOf(layout, ring, replicas), old(data.chunks.files), data.chunks.files,
                        replies)
    {
      hide *;
      TargetsListed(targets, previous, next);
      var applied;
      ok, applied := PublishAll(targets, previous, next, sync);
      replies, moves := map[], [];
      PassBegins(PlacementOf(layout, ring, replicas), data.held, data.chunks.id, data.chunks.files, Elements(targets));
      TakesAll(targets, old(nodes), sync, asked);
      if ok {
        PublishedEnds(targets, previous, next, old(trace));
        ok, replies, moves := RebalanceAll(targets, previous, next, ring, asked, envs);
      }
      if !ok {
        Compensate(applied, previous, next, undo);
      }
    }

    lemma TargetsListed(targets: seq<Node>, previous: Config, next: Config)
      requires Publishing(targets, previous, next)
      ensures targets != [] && targets == next.members
    {
    }

    lemma PublishedEnds(targets: seq<Node>, previous: Config, next: Config, was: seq<C.Step>)
      requires Published(targets, previous, next, was, |targets|)
      ensures Published(targets, previous, next, trace, |targets|) && was <= trace
      ensures forall n :: n in targets ==> n in nodes && nodes[n] == Summary(next)
    {
    }

    /** A configuration is about to be published to its targets. */
    ghost predicate Publishing(targets: seq<Node>, previous: Config, next: Config)
      reads this
    {
      && Sane() && nodes == State().nodes && targets != [] && targets == next.members
      && State().job == C.Publishing(targets, Summary(previous), Summary(next), 0)
      && Elements(previous.members) <= names && Elements(next.members) <= names
    }

    /** The first `done` nodes of `applied` have been asked to roll back. */
    ghost predicate RollingBack(applied: seq<Node>, rollback: NodeConfig, done: nat)
      reads this
    {
      && Sane() && State().job == Undoing(applied, rollback, done)
      && State().nodes == Stored(self, nodes, applied, rollback, done)
    }

    /** The first `i` targets have taken the configuration. */
    ghost predicate Published(targets: seq<Node>, previous: Config, next: Config, was: seq<C.Step>, i: nat)
      requires i <= |targets|
      reads this
    {
      && Sane() && nodes == State().nodes && was <= trace
      && Elements(next.members) <= names && Elements(previous.members) <= names
      && State().job == (if i < |targets| then C.Publishing(targets, Summary(previous), Summary(next), i)
                         else C.Rebalancing(targets, Summary(previous), Summary(next), 0))
      && (forall j :: 0 <= j < i ==> targets[j] in nodes && nodes[targets[j]] == Summary(next))
      && (self in targets[..i] || nodes[self] == Summary(previous))
    }

    /** The first loop of `applyClusterConfig`. */
    method PublishAll(targets: seq<Node>, previous: Config, next: Config, sync: Node -> Outcome)
      returns (ok: bool, applied: seq<Node>)
      requires Publishing(targets, previous, next) && nodes[self] == Summary(previous) && sync(self) != AppliedThenError
      modifies `nodes, `rings, `trace
      ensures ok <==> forall n :: n in targets ==> Succeeds(old(nodes), n, sync(n))
      ensures Elements(previous.members) <= names
      ensures ok ==> applied == targets && Published(targets, previous, next, old(trace), |targets|)
      ensures !ok ==> old(trace) <= trace && RollingBack(applied, RollbackOf(Summary(previous), Summary(next)), 0)
                      && (applied == [] ==> nodes[self].members == Elements(previous.members))
    {
      hide *;
      applied := [];
      ghost var nodes0, trace0 := nodes, trace;
      PublishedBegins(targets, previous, next);
      SyncedBegins(targets, nodes, sync);
      var i := 0;
      while i < |targets|
        invariant 0 <= i <= |targets| && Published(targets, previous, next, trace0, i)
        invariant SyncedSoFar(targets, nodes0, nodes, sync, applied, i)
      {
        SyncedKnows(targets, nodes0, nodes, sync, applied, i);
        ghost var before := nodes;
        ok := PublishOne(targets, previous, next, i, sync(targets[i]), trace0);
        if !ok {
          return;
        }
        SyncedMore(targets, nodes0, before, nodes, sync, applied, i);
        applied := applied + [targets[i]];
        i := i + 1;
      }
      SyncedEnds(targets, nodes0, nodes, sync, applied);
      return true, applied;
    }

    lemma PublishedBegins(targets: seq<Node>, previous: Config, next: Config)
      requires Publishing(targets, previous, next) && nodes[self] == Summary(previous)
      ensures Published(targets, previous, next, trace, 0) && Elements(previous.members) <= names
    {
      hide C.Run, C.Initial, C.SoundRun, H.Separate, H.Canonical;
    }

    /** One publishing request and its steps. */
    method PublishOne(targets: seq<Node>, ghost previous: Config, next: Config, i: nat, outcome: Outcome,
                      ghost was: seq<C.Step>)
      returns (ok: bool)
      requires i < |targets| && Published(targets, previous, next, was, i) &&
               (targets[i] == self ==> outcome != AppliedThenError)
      modifies `nodes, `rings, `trace
      ensures ok == Succeeds(old(nodes), targets[i], outcome) && nodes.Keys == old(nodes.Keys)
      ensures ok ==> Published(targets, previous, next, was, i + 1)
      ensures !ok ==> was <= trace && RollingBack(targets[..i], RollbackOf(Summary(previous), Summary(next)), 0)
                      && (i == 0 ==> nodes[self].members == Elements(previous.members))
    {
      hide C.Run, C.Initial, C.SoundRun, Answer, H.Separate, RingRight;
      ok := SendSync(targets[i], next, outcome);
      PublishAnswered(self, start, trace, outcome);
      trace := trace + Answer(self, old(nodes), targets[i], Summary(next), outcome);
      assert targets[..i + 1] == targets[..i] + [targets[i]];
    }

    /** The first `i` targets have been asked to rebalance. */
    ghost predicate Asking(targets: seq<Node>, previous: Config, next: Config, ring: H.State, was: seq<C.Step>, i: nat)
      reads this
    {
      && Sane() && nodes == State().nodes && was <= trace
      && (forall n :: n in targets ==> n in nodes && rings[n] == ring)
      && State().job == if i < |targets| then C.Rebalancing(targets, Summary(previous), Summary(next), i) else C.Idle
    }

    /** `Pass` and `ChunkPass` of the stores as they are now; job numbers from `j` on are free. */
    ghost predicate Passing(ring: H.State, was: Held, wasFiles: Files, moves: seq<R.Move>, targets: set<Node>,
                            replies: map<Node, Reply>, j: nat)
      reads data, data.chunks
    {
      var owners := PlacementOf(layout, ring, replicas);
      && Pass(owners, was, data.held, moves, targets, replies)
      && ChunkPass(data.chunks.id, owners, wasFiles, data.chunks.files, replies)
      && Below(R.Run(owners, R.World(was, map[]), moves), j)
    }

    /** The second loop of `applyClusterConfig`. Replies are read only to see that they are there. */
    method RebalanceAll(targets: seq<Node>, ghost previous: Config, ghost next: Config, ghost ring: H.State,
                        asked: Node -> Outcome, envs: Node -> RebalanceEnv)
      returns (ok: bool, replies: map<Node, Reply>, ghost moves: seq<R.Move>)
      requires targets != [] && targets == next.members && RingRight(ring, Elements(targets))
      requires Published(targets, previous, next, trace, |targets|)
      modifies `trace, data`held, data`hints, data.chunks`files
      ensures old(trace) <= trace && (ok ==> Valid())
      ensures ok <==> forall n :: n in targets ==> asked(n).Applied?
      ensures !ok ==> RollingBack(targets, RollbackOf(Summary(previous), Summary(next)), 0)
      ensures ok ==> replies.Keys == Elements(targets)
      ensures NothingArrives(PlacementOf(layout, ring, replicas), envs) ==>
                data.held == old(data.held) && data.chunks.files == old(data.chunks.files)
      ensures Pass(PlacementOf(layout, ring, replicas), old(data.held), data.held, moves, Elements(targets), replies)
      ensures ChunkPass(data.chunks.id, PlacementOf(layout, ring, replicas), old(data.chunks.files), data.chunks.files,
                        replies)
    {
      hide *;
      replies, moves := map[], [];
      ghost var was, wasFiles, trace0, members := data.held, data.chunks.files, trace, Elements(targets);
      AskingBegins(targets, previous, next, ring);
      PassingBegins(ring, members);
      SoFarBegins(targets, asked, replies);
      var i := 0;
      while i < |targets|
        invariant 0 <= i <= |targets| && Asking(targets, previous, next, ring, trace0, i)
        invariant Passing(ring, was, wasFiles, moves, members, replies, i)
        invariant SoFar(targets, asked, replies, i)
        invariant NothingArrives(PlacementOf(layout, ring, replicas), envs) ==>
                    data.held == was && data.chunks.files == wasFiles
      {
        ghost var had := replies;
        NothingOf(PlacementOf(layout, ring, replicas), envs, targets[i]);
        AskingKnows(targets, previous, next, ring, trace0, i);
        ok, replies, moves := SendRebalance(targets[i], asked(targets[i]), envs(targets[i]), ring, was, wasFiles,
                                            members, replies, moves, i);
        RecordRebalance(targets, previous, next, ring, trace0, i, ok);
        SoFarMore(targets, asked, had, replies, i);
        if !ok {
          PassingIs(ring, was, wasFiles, moves, members, replies, i + 1);
          return;
        }
        i := i + 1;
      }
      AskingEnds(targets, previous, next, ring, trace0);
      PassingIs(ring, was, wasFiles, moves, members, replies, i);
      SoFarEnds(targets, asked, replies);
      return true, replies, moves;
    }

    lemma AskingBegins(targets: seq<Node>, previous: Config, next: Config, ring: H.State)
      requires targets != [] && targets == next.members && RingRight(ring, Elements(targets))
      requires Published(targets, previous, next, trace, |targets|)
      ensures Asking(targets, previous, next, ring, trace, 0)
    {
      hide C.Run, C.Initial, C.SoundRun, H.Separate, H.Canonical;
      SameRings(targets, Summary(next), ring);
    }

    lemma AskingKnows(targets: seq<Node>, previous: Config, next: Config, ring: H.State, was: seq<C.Step>, i: nat)
      requires i < |targets| && Asking(targets, previous, next, ring, was, i)
      ensures targets[i] in rings && rings[targets[i]] == ring && targets[i] in Elements(targets)
    {
    }

    lemma AskingEnds(targets: seq<Node>, previous: Config, next: Config, ring: H.State, was: seq<C.Step>)
      requires Asking(targets, previous, next, ring, was, |targets|)
      ensures Valid() && was <= trace
    {
    }

    lemma PassingBegins(ring: H.State, targets: set<Node>)
      ensures Passing(ring, data.held, data.chunks.files, [], targets, map[], 0)
    {
      PassBegins(PlacementOf(layout, ring, replicas), data.held, data.chunks.id, data.chunks.files, targets);
    }

    lemma PassingIs(ring: H.State, was: Held, wasFiles: Files, moves: seq<R.Move>, targets: set<Node>,
                    replies: map<Node, Reply>, j: nat)
      requires Passing(ring, was, wasFiles, moves, targets, replies, j)
      ensures Pass(PlacementOf(layout, ring, replicas), was, data.held, moves, targets, replies)
      ensures ChunkPass(data.chunks.id, PlacementOf(layout, ring, replicas), wasFiles, data.chunks.files, replies)
      ensures Below(R.Run(PlacementOf(layout, ring, replicas), R.World(was, map[]), moves), j)
      ensures R.Run(PlacementOf(layout, ring, replicas), R.World(was, map[]), moves).held == data.held
      ensures j !in R.Run(PlacementOf(layout, ring, replicas), R.World(was, map[]), moves).jobs
    {
    }

    lemma PassingIf(ring: H.State, was: Held, wasFiles: Files, moves: seq<R.Move>, targets: set<Node>,
                    replies: map<Node, Reply>, j: nat)
      requires Pass(PlacementOf(layout, ring, replicas), was, data.held, moves, targets, replies)
      requires ChunkPass(data.chunks.id, PlacementOf(layout, ring, replicas), wasFiles, data.chunks.files, replies)
      requires Below(R.Run(PlacementOf(layout, ring, replicas), R.World(was, map[]), moves), j)
      ensures Passing(ring, was, wasFiles, moves, targets, replies, j)
    {
    }

    ghost method RecordRebalance(targets: seq<Node>, previous: Config, next: Config, ring: H.State, was: seq<C.Step>,
                                 i: nat, ok: bool)
      requires i < |targets| && Asking(targets, previous, next, ring, was, i)
      modifies `trace
      ensures ok ==> Asking(targets, previous, next, ring, was, i + 1)
      ensures !ok ==> was <= trace && RollingBack(targets, RollbackOf(Summary(previous), Summary(next)), 0)
    {
      hide C.Run, C.Initial, C.SoundRun, H.Separate, RingsRight, RingRight, RollbackOf, Summary;
      assert targets[i] in targets && targets[i] in nodes;
      RebalanceAnswered(self, start, trace, ok);
      trace := trace + [if ok then C.TargetOk else C.TargetFailed];
    }

    /** Nodes with the same members have the same ring. */
    lemma SameRings(targets: seq<Node>, config: NodeConfig, ring: H.State)
      requires RingsRight() && (forall n :: n in targets ==> n in nodes && nodes[n] == config) &&
               RingRight(ring, config.members)
      ensures forall n :: n in targets ==> n in rings
      ensures forall n :: n in targets ==> rings[n] == ring
    {
      forall n | n in targets ensures rings[n] == ring {
        H.CanonicalUnique(layout, rings[n], ring);
      }
    }

    /** `sendRebalance`: the node rebalances under its own ring, unless the request is lost. */
    method SendRebalance(target: Node, outcome: Outcome, env: RebalanceEnv, ghost ring: H.State, ghost was: Held,
                         ghost wasFiles: Files, ghost targets: set<Node>, replies: map<Node, Reply>,
                         ghost moves: seq<R.Move>, ghost j: nat)
      returns (ok: bool, after: map<Node, Reply>, ghost more: seq<R.Move>)
      requires target in rings && rings[target] == ring && target in targets
      requires Passing(ring, was, wasFiles, moves, targets, replies, j)
      modifies data`held, data`hints, data.chunks`files
      ensures ok == outcome.Applied?
      ensures after.Keys == if ok then replies.Keys + {target} else replies.Keys
      ensures LostAll(PlacementOf(layout, ring, replicas), env) ==>
                data.held == old(data.held) && data.chunks.files == old(data.chunks.files)
      ensures Passing(ring, was, wasFiles, more, targets, after, j + 1)
    {
      hide *;
      PassingIs(ring, was, wasFiles, moves, targets, replies, j);
      if outcome.NotApplied? {
        LaterNumber(PlacementOf(layout, ring, replicas), was, moves, j);
        PassingIf(ring, was, wasFiles, moves, targets, replies, j + 1);
        return false, replies, moves;
      }
      var owners := PlacementOf(layout, rings[target], replicas);
      var order := Listing(data.held, target);
      var listing := Listing(data.chunks.files, target);
      ghost var before, beforeFiles := data.held, data.chunks.files;
      ghost var w := R.Run(owners, R.World(was, map[]), moves);
      PlacementDistinct(layout, ring, replicas);
      if LostAll(owners, env) {
        LostIs(owners, env);
      }
      var counts, chunkCounts;
      ghost var run;
      counts, chunkCounts, run := data.Rebalance(target, order, listing, owners, env, w, j);
      var reply := Reply(counts, chunkCounts);
      PassMore(owners, was, before, data.held, moves, run, targets, replies, target, j, reply);
      ChunkPassMore(data.chunks.id, owners, wasFiles, beforeFiles, data.chunks.files, replies, target, listing, reply);
      more := moves + run;
      ok := outcome.Applied?;
      after := if ok then replies[target := reply] else replies;
      PassingIf(ring, was, wasFiles, more, targets, after, j + 1);
    }

    /** `compensateClusterConfig`: best effort on every node that took the failed configuration. */
    method Compensate(applied: seq<Node>, previous: Config, next: Config, undo: Node -> Outcome)
      requires RollingBack(applied, RollbackOf(Summary(previous), Summary(next)), 0) && undo(self) != NotApplied
      requires Elements(previous.members) <= names
      requires applied == [] ==> nodes[self].members == Elements(previous.members)
      modifies `nodes, `rings, `trace
      ensures Valid() && old(trace) <= trace
      ensures self in nodes && nodes[self] == RollbackOf(Summary(previous), Summary(next))
    {
      hide C.Run, C.Initial, C.SoundRun, Answer, H.Separate, RingRight;
      var rollback := Config(next.version + 1, previous.members);
      var i := 0;
      while i < |applied|
        invariant 0 <= i <= |applied| && RollingBack(applied, Summary(rollback), i) && old(trace) <= trace
        invariant i == |applied| > 0 ==> State().nodes[self] == Summary(rollback)
        invariant applied == [] ==> nodes == old(nodes)
      {
        ghost var before := nodes;
        var sent := SendSync(applied[i], rollback, undo(applied[i]));
        UndoAnswered(self, start, trace, undo(applied[i]));
        trace := trace + Answer(self, before, applied[i], Summary(rollback), undo(applied[i]));
        i := i + 1;
      }
      if self !in applied {
        nodes := nodes[self := C.NodeConfig(rollback.version, nodes[self].members)];
      }
    }
  }
}
