/**
 Applying a configuration to a node's ring (`handleMembershipSync`, internal/node/handler.go).
 */
module MembershipSync {
  import opened Sequences
  import opened HashRing
  import opened RingWalk
  import opened ClusterConfig

  datatype Status = BadRequest | NoContent

  class Member {
    const ring: Ring
    var configVersion: nat
    var tracked: set<Node>  // nodes the failure detector follows

    ghost predicate Valid()
      reads this, ring
    {
      Canonical(ring.layout, ring.Contents())
    }

    function Config(): NodeConfig
      reads this, ring
    {
      NodeConfig(configVersion, ring.members)
    }

    constructor (layout: Layout)
      ensures Valid() && Config() == NodeConfig(0, {}) && tracked == {} && ring.layout == layout && fresh(ring)
    {
      ring := new Ring(layout);
      configVersion, tracked := 0, {};
    }

    /**
     The handler performs exactly `Handle`, and the ring it leaves is the one `New` builds from the
     list received. `current` is the sorted member list the handler reads first.
     */
    method Sync(version: nat, members: seq<Node>, current: seq<Node>) returns (status: Status)
      requires Valid() && Elements(current) == ring.members
      requires Separate(ring.layout, ring.members + Elements(members))
      modifies this, ring
      ensures Valid() && Config() == Handle(old(Config()), NodeConfig(version, Elements(members)))
      ensures Config() == if version > old(configVersion) then NodeConfig(version, Elements(members)) else old(Config())
      ensures status == if version == 0 then BadRequest else NoContent
      ensures configVersion != old(configVersion) ==>
                ring.Contents() == Built(ring.layout, members) &&
                tracked == old(tracked) - (Elements(current) - Elements(members)) + Elements(members)
      ensures configVersion == old(configVersion) ==> ring.Contents() == old(ring.Contents()) && tracked == old(tracked)
    {
      if version == 0 {
        return BadRequest;
      }
      if version <= configVersion {
        return NoContent;
      }
      RemoveGone(members, current);
      AddAll(members, Elements(current) * Elements(members));
      BuiltCanonical(ring.layout, members) by {
        SeparateSubset(ring.layout, ring.members + Elements(current) + Elements(members), Elements(members));
      }
      CanonicalUnique(ring.layout, ring.Contents(), Built(ring.layout, members));
      configVersion := version;
      return NoContent;
    }

    method RemoveGone(members: seq<Node>, current: seq<Node>)
      requires Valid() && Elements(current) == ring.members
      modifies this`tracked, ring
      ensures Valid() && ring.members == Elements(current) * Elements(members)
      ensures tracked == old(tracked) - (Elements(current) - Elements(members))
    {
      hide Canonical, Added, Separate;
      var i := 0;
      assert Elements(current[..0]) == {};
      while i < |current|
        invariant 0 <= i <= |current| && Canonical(ring.layout, ring.Contents())
        invariant ring.members == old(ring.members) - (Elements(current[..i]) - Elements(members))
        invariant tracked == old(tracked) - (Elements(current[..i]) - Elements(members))
      {
        assert Elements(current[..i + 1]) == Elements(current[..i]) + {current[i]};
        if current[i] !in members {
          RemovedCanonical(ring.layout, ring.Contents(), current[i]);
          ring.Remove(current[i]);
          tracked := tracked - {current[i]};
        }
        i := i + 1;
      }
      assert current[..i] == current;
    }

    method AddAll(members: seq<Node>, ghost kept: set<Node>)
      requires Valid() && ring.members == kept && kept <= Elements(members)
      requires Separate(ring.layout, Elements(members))
      modifies this`tracked, ring
      ensures Valid() && ring.members == Elements(members)
      ensures tracked == old(tracked) + Elements(members)
    {
      hide Canonical, Removed, Separate;
      var i := 0;
      assert Elements(members[..0]) == {};
      while i < |members|
        invariant 0 <= i <= |members| && Canonical(ring.layout, ring.Contents())
        invariant ring.members == kept + Elements(members[..i])
        invariant tracked == old(tracked) + Elements(members[..i])
      {
        assert Elements(members[..i + 1]) == Elements(members[..i]) + {members[i]};
        SeparateSubset(ring.layout, Elements(members), ring.members + {members[i]}) by {
          assert forall m :: m in Elements(members[..i + 1]) ==> m in Elements(members);
        }
        AddedCanonical(ring.layout, ring.Contents(), members[i]);
        ring.Add(members[i]);
        tracked := tracked + {members[i]};
        i := i + 1;
      }
      assert members[..i] == members;
    }
  }

  lemma SeparateSubset(l: Layout, all: set<string>, some: set<string>)
    requires Separate(l, all) && some <= all
    ensures Separate(l, some)
  {
  }

  /**
   Nodes that agree on the configuration agree on every replica list: two nodes of any sound run at the same
   version of at least one place every key on the same owners in the same order.
   */
  lemma AgreeingNodesAgreeOnOwners(c: Node, init: ClusterConfig.State, steps: seq<Step>, a: Node, b: Node,
                                   l: Layout, ringA: HashRing.State, ringB: HashRing.State, h: Hash, n: int)
    requires Initial(c, init) && SoundRun(c, init, steps)
    requires var s := ClusterConfig.Run(c, init, steps);
             && a in s.nodes && b in s.nodes && s.nodes[a].version == s.nodes[b].version >= 1
             && ringA.members == s.nodes[a].members && ringB.members == s.nodes[b].members
    requires Canonical(l, ringA) && Canonical(l, ringB)
    ensures ringA == ringB && Replicas(ringA, h, n) == Replicas(ringB, h, n)
  {
    Agreement(c, init, steps, a, b);
    CanonicalUnique(l, ringA, ringB);
  }
}
