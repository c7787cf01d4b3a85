/**
 The calls a client makes (`Put`, `Delete`, `Get`, `nextVersion`; internal/node/replication.go, version.go), put
 together from the loops in `Coordinator`. `answers` to read requests and `reports` of write requests come in the
 order in which they arrive.
 */
module ClientCalls {
  import opened Versions
  import opened Sequences
  import opened Register
  import opened Coordinator
  import opened ReadWrite

  /** What one call finds around it: its coordinator's address and quorums, and the replicas of the key. */
  datatype Site = Site(self: Node, owners: seq<Node>, readQuorum: nat, writeQuorum: nat)

  predicate AnswersOf(site: Site, answers: seq<ReadResult>) {
    OneReplyEach(answers) && forall i :: 0 <= i < |answers| ==> answers[i].replica in site.owners
  }

  /** Every counter found among the answers is below `n`. */
  ghost predicate AllBelow(replies: map<Node, Reply>, n: nat) {
    forall r :: r in replies && Found(replies[r]).Some? ==> Found(replies[r]).value.version.counter < n
  }

  /**
   `nextVersion`: a version of this node, above every counter a read quorum answered with and every counter handed
   out here before. Without a read quorum there is none, and nothing is handed out.
   */
  method AllocateVersion(site: Site, answers: seq<ReadResult>, cell: VersionCell, rivals: seq<nat>)
    returns (version: Option<Version>)
    requires AnswersOf(site, answers)
    requires Rising(cell.counter, rivals)
    modifies cell
    ensures version.Some? <==> |site.owners| >= site.readQuorum && |Answered(RepliesOf(answers))| >= site.readQuorum
    ensures version.None? ==> cell.counter == old(cell.counter)
    ensures version.Some? ==>
              && version.value.nodeId == site.self && AllBelow(RepliesOf(answers), version.value.counter)
              && version.value.counter > old(cell.counter) && cell.counter == version.value.counter
              && forall i :: 0 <= i < |rivals| ==> version.value.counter > rivals[i]
    ensures version.Some? && rivals == [] ==>
              version.value.counter == Max(MaxCounter(site.owners, RepliesOf(answers)), old(cell.counter)) + 1
  {
    hide Answered, RepliesOf;
    if |site.owners| < site.readQuorum {
      return None;
    }
    var success, largest := LargestCounter(site.owners, answers);
    if success < site.readQuorum {
      return None;
    }
    var next := AllocateCounter(cell, largest, rivals);
    MaxIsAbove(site, answers, next);
    return Some(Version(next, site.self));
  }

  lemma MaxIsAbove(site: Site, answers: seq<ReadResult>, n: nat)
    requires AnswersOf(site, answers) && n > MaxCounter(site.owners, RepliesOf(answers))
    ensures AllBelow(RepliesOf(answers), n)
  {
    var replies := RepliesOf(answers);
    forall r | r in replies && Found(replies[r]).Some?
      ensures Found(replies[r]).value.version.counter < n
    {
      RepliesOfMember(answers, r);
      MaxCounterBounds(site.owners, replies, r);
    }
  }

  /** `Put`: the data under a new version, live, to every replica. */
  method Put(site: Site, key: Key, data: seq<Byte>, answers: seq<ReadResult>, reports: seq<WriteResult>,
             cell: VersionCell, rivals: seq<nat>, hints: HintStore, ghost all: map<(Node, Node, Key), Value>)
    returns (version: Option<Version>, ok: bool)
    requires AnswersOf(site, answers) && OneResultEach(reports) && hints.self == site.self && hints.Shows(all)
    requires forall i :: 0 <= i < |reports| ==> reports[i].replica in hints.names
    requires Rising(cell.counter, rivals)
    modifies cell, hints
    ensures version.Some? <==> |site.owners| >= site.readQuorum && |Answered(RepliesOf(answers))| >= site.readQuorum
    ensures version.Some? ==> version.value.nodeId == site.self && AllBelow(RepliesOf(answers), version.value.counter)
    ensures ok <==> version.Some? && |Acks(reports)| >= site.writeQuorum
    ensures hints.Shows(if version.None? then all
                        else HintsAfter(all, site.self, key, Value(data, version.value, false), reports))
  {
    hide Answered, RepliesOf, HintStore.Shows, HintsAfter, AllBelow, Acks;
    version := AllocateVersion(site, answers, cell, rivals);
    if version.None? {
      return None, false;
    }
    ok := ReplicateValue(hints, key, Value(data, version.value, false), reports, site.writeQuorum, all);
  }

  /** `Delete`: a tombstone under a new version, to every replica. */
  method Delete(site: Site, key: Key, answers: seq<ReadResult>, reports: seq<WriteResult>,
                cell: VersionCell, rivals: seq<nat>, hints: HintStore, ghost all: map<(Node, Node, Key), Value>)
    returns (version: Option<Version>, ok: bool)
    requires AnswersOf(site, answers) && OneResultEach(reports) && hints.self == site.self && hints.Shows(all)
    requires forall i :: 0 <= i < |reports| ==> reports[i].replica in hints.names
    requires Rising(cell.counter, rivals)
    modifies cell, hints
    ensures version.Some? <==> |site.owners| >= site.readQuorum && |Answered(RepliesOf(answers))| >= site.readQuorum
    ensures version.Some? ==> version.value.nodeId == site.self && AllBelow(RepliesOf(answers), version.value.counter)
    ensures ok <==> version.Some? && |Acks(reports)| >= site.writeQuorum
    ensures hints.Shows(if version.None? then all
                        else HintsAfter(all, site.self, key, Value([], version.value, true), reports))
  {
    hide Answered, RepliesOf, HintStore.Shows, HintsAfter, AllBelow, Acks;
    version := AllocateVersion(site, answers, cell, rivals);
    if version.None? {
      return None, false;
    }
    ok := ReplicateValue(hints, key, Value([], version.value, true), reports, site.writeQuorum, all);
  }

  /** The replica answered, with nothing or with an older copy. */
  predicate Behind(reply: Reply, latest: Value) {
    reply.Answer? && (reply.value.None? || CompareVersion(reply.value.value.version, latest.version) < 0)
  }

  /**
   `Get`: with a read quorum the newest copy among the answers, nothing if it is a tombstone or there is none; and
   exactly the replicas that answered with less are sent that copy.
   */
  method Get(site: Site, key: Key, answers: seq<ReadResult>)
    returns (response: Response, ok: bool, latest: Option<Value>, repaired: set<Node>)
    requires AnswersOf(site, answers)
    ensures ok <==> site.owners != [] && |Answered(RepliesOf(answers))| >= site.readQuorum
    ensures ok ==> IsNewest(RepliesOf(answers), latest)
    ensures ok ==> response == (if latest.Some? && !latest.value.deleted then Present(latest.value.data) else Absent)
    ensures ok ==> forall r :: r in repaired <==>
                     latest.Some? && r in RepliesOf(answers) && Behind(RepliesOf(answers)[r], latest.value)
    ensures !ok ==> repaired == {}
  {
    hide Answered, RepliesOf, IsNewest;
    response, latest, repaired := Absent, None, {};
    if |site.owners| == 0 {
      return response, false, latest, repaired;
    }
    var success;
    success, latest := SelectLatest(answers);
    if success < site.readQuorum {
      return response, false, latest, repaired;
    }
    if latest.None? {
      return response, true, latest, repaired;
    }
    ghost var op := Op(GetOf, site.self, key, Reading, RepliesOf(answers), {}, map[]);
    repaired := RepairTargets(op, answers, latest.value);
    RepairedAreBehind(RepliesOf(answers), latest.value);
    if !latest.value.deleted {
      response := Present(latest.value.data);
    }
    return response, true, latest, repaired;
  }

  lemma RepairedAreBehind(replies: map<Node, Reply>, latest: Value)
    ensures forall r :: r in replies ==> (NeedsRepair(replies[r], latest) <==> Behind(replies[r], latest))
  {
    forall r | r in replies
      ensures NeedsRepair(replies[r], latest) <==> Behind(replies[r], latest)
    {
      if replies[r].Answer? && replies[r].value.Some? {
        CompareVersionSeparates(latest.version, replies[r].value.value.version);
      }
    }
  }

  // ------------------------------------------------------------------ the register takes these calls

  /** The version, and the value, that a call allocates are those of the register's allocation step. */
  lemma AllocationIsStep(cfg: Config, s: State, id: nat, site: Site, answers: seq<ReadResult>, version: Version)
    requires Enabled(cfg, s, Allocate(id)) && s.ops[id].coordinator == site.self
    requires s.ops[id].replies == RepliesOf(answers) && site.owners == cfg.owners(s.ops[id].key)
    requires version.nodeId == site.self
    requires version.counter == Max(MaxCounter(site.owners, RepliesOf(answers)), Counter(s, site.self)) + 1
    ensures var op, t := s.ops[id], Do(cfg, s, Allocate(id));
            && t.ops[id].phase.Writing? && t.counters[site.self] == version.counter
            && t.ops[id].phase.value == if op.kind.PutOf? then Value(op.kind.data, version, false)
                                        else Value([], version, true)
  {
    hide MaxCounter;
  }

  /** What a call reads, answers and repairs is what the register's selection step does. */
  lemma SelectionIsStep(cfg: Config, s: State, id: nat, answers: seq<ReadResult>, latest: Option<Value>)
    requires Enabled(cfg, s, Select(id, latest)) && s.ops[id].replies == RepliesOf(answers)
    ensures var t := Do(cfg, s, Select(id, latest));
            && t.ops[id].phase == Selected(latest)
            && (latest.None? ==> t.wire == s.wire)
            && (latest.Some? ==>
                  t.wire == s.wire + set r | r in RepliesOf(answers) && Behind(RepliesOf(answers)[r], latest.value)
                                           :: (r, s.ops[id].key, latest.value))
  {
    hide RepliesOf, IsNewest, MaxCounter;
    if latest.Some? {
      RepairsAreBehind(s.ops[id], latest.value);
    }
  }

  lemma RepairsAreBehind(op: Op, latest: Value)
    ensures Repairs(op, Some(latest)) ==
            set r | r in op.replies && Behind(op.replies[r], latest) :: (r, op.key, latest)
  {
    forall r | r in op.replies && op.replies[r].Answer? && op.replies[r].value.Some?
      ensures !Leq(latest.version, op.replies[r].value.value.version) <==>
                CompareVersion(op.replies[r].value.value.version, latest.version) < 0
    {
      CompareVersionSeparates(latest.version, op.replies[r].value.value.version);
    }
  }
}
