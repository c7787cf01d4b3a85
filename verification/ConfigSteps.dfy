/**
 The coordinator's loops over member nodes (internal/node/cluster_membership.go) as sound runs of the
 step system in `ClusterConfig`: what each answered or failed request does to nodes and job.
 */
module ConfigSteps {
  import opened Requests
  import opened Sequences
  import C = ClusterConfig

  type Node = C.Node
  type NodeConfig = C.NodeConfig

  function Received(nodes: map<Node, NodeConfig>, target: Node, config: NodeConfig, outcome: Outcome)
    : map<Node, NodeConfig>
  {
    if outcome.NotApplied? || target !in nodes then nodes else nodes[target := C.Handle(nodes[target], config)]
  }

  predicate Succeeds(nodes: map<Node, NodeConfig>, target: Node, outcome: Outcome) {
    outcome.Applied? && target in nodes
  }

  /**
   The steps one request amounts to. Whether the coordinator's own undo
   request was also acknowledged makes no difference.
   */
  function Answer(c: Node, nodes: map<Node, NodeConfig>, target: Node, config: NodeConfig,
                  outcome: Outcome): seq<C.Step> {
    if Succeeds(nodes, target, outcome) || (target == c && c in nodes && !outcome.NotApplied?) then [C.TargetOk]
    else if outcome.NotApplied? || target !in nodes then [C.TargetFailed]
    else [C.TargetFailed, C.Deliver(C.Sync(target, config))]
  }

  /** One more step of a sound run. */
  lemma OneMore(c: Node, init: C.State, trace: seq<C.Step>, step: C.Step)
    requires C.Enabled(c, C.Run(c, init, trace), step)
    ensures C.Run(c, init, trace + [step]) == C.Do(c, C.Run(c, init, trace), step)
    ensures C.SoundRun(c, init, trace) && C.Sound(c, C.Run(c, init, trace), step) ==>
              C.SoundRun(c, init, trace + [step])
  {
    assert (trace + [step])[..|trace|] == trace;
  }

  /** A membership change starts by publishing to its list of targets. */
  lemma PublishingBegins(c: Node, init: C.State, trace: seq<C.Step>, step: C.Step)
    requires C.SoundRun(c, init, trace) && (step.AddMember? || step.RemoveMember?) && step.order != []
    requires C.Enabled(c, C.Run(c, init, trace), step) && C.Sound(c, C.Run(c, init, trace), step)
    ensures var s := C.Run(c, init, trace); var t := C.Run(c, init, trace + [step]);
            && C.SoundRun(c, init, trace + [step]) && t.nodes == s.nodes
            && t.job == C.Publishing(step.order, s.nodes[c], C.NodeConfig(s.nodes[c].version + 1, Elements(step.order)),
                                     0)
  {
    OneMore(c, init, trace, step);
    C.Starts(c, C.Run(c, init, trace), step);
  }

  function RollbackOf(previous: NodeConfig, next: NodeConfig): NodeConfig {
    C.NodeConfig(next.version + 1, previous.members)
  }

  /** Compensation of `applied` under way, or over at once if there is nothing to undo. */
  function Undoing(applied: seq<Node>, rollback: NodeConfig, done: nat): C.Job {
    if done < |applied| then C.Compensating(applied, rollback, done) else C.Idle
  }

  /** `compensateClusterConfig` ends by recording the version itself if no sync brought it here. */
  function Stored(c: Node, nodes: map<Node, NodeConfig>, applied: seq<Node>, rollback: NodeConfig, done: nat)
    : map<Node, NodeConfig>
    requires c in nodes
  {
    if done < |applied| || c in applied then nodes
    else nodes[c := C.NodeConfig(rollback.version, nodes[c].members)]
  }

  lemma PublishOk(c: Node, s: C.State)
    requires C.Inv(c, s) && s.job.Publishing? && C.Enabled(c, s, C.TargetOk)
    ensures var target := s.job.targets[s.job.done]; var t := C.Do(c, s, C.TargetOk);
            && t.nodes == Received(s.nodes, target, s.job.next, Applied) && t.nodes[target] == s.job.next
            && t.job == if s.job.done + 1 < |s.job.targets|
                 then C.Publishing(s.job.targets, s.job.previous, s.job.next, s.job.done + 1)
                        else C.Rebalancing(s.job.targets, s.job.previous, s.job.next, 0)
  {
    assert C.Recorded(s, s.nodes[s.job.targets[s.job.done]]);
  }

  lemma PublishFailed(c: Node, s: C.State)
    requires C.Inv(c, s) && s.job.Publishing? && C.Enabled(c, s, C.TargetFailed)
    ensures var applied := s.job.targets[..s.job.done]; var rollback := RollbackOf(s.job.previous, s.job.next);
            var t := C.Do(c, s, C.TargetFailed);
            && t.job == Undoing(applied, rollback, 0) && t.nodes == Stored(c, s.nodes, applied, rollback, 0)
            && C.Sync(s.job.targets[s.job.done], s.job.next) in t.wire
  {
    hide C.OnTrack, C.AllRecorded;
  }

  lemma DeliverLate(c: Node, s: C.State, m: C.Message)
    requires C.Enabled(c, s, C.Deliver(m))
    ensures var t := C.Do(c, s, C.Deliver(m));
            t.job == s.job && t.nodes == Received(s.nodes, m.target, m.config, AppliedThenError)
  {
  }

  /** A failed request is a failed step, with the late delivery it may turn into. */
  lemma FailedSteps(c: Node, init: C.State, trace: seq<C.Step>, target: Node, config: NodeConfig, outcome: Outcome)
    requires C.SoundRun(c, init, trace) && (target == c && c in C.Run(c, init, trace).nodes ==> outcome.NotApplied?)
    requires var s := C.Run(c, init, trace);
             && C.Enabled(c, s, C.TargetFailed) && C.Sound(c, s, C.TargetFailed) && !Succeeds(s.nodes, target, outcome)
             && C.Sync(target, config) in C.Do(c, s, C.TargetFailed).wire
             && (target in C.Do(c, s, C.TargetFailed).nodes <==> target in s.nodes)
             && c in C.Do(c, s, C.TargetFailed).nodes
    ensures var s := C.Run(c, init, trace);
            var t := C.Run(c, init, trace + Answer(c, s.nodes, target, config, outcome));
            && t.job == C.Do(c, s, C.TargetFailed).job
            && t.nodes == Received(C.Do(c, s, C.TargetFailed).nodes, target, config, outcome)
            && C.SoundRun(c, init, trace + Answer(c, s.nodes, target, config, outcome))
  {
    var s := C.Run(c, init, trace);
    OneMore(c, init, trace, C.TargetFailed);
    if !outcome.NotApplied? && target in s.nodes {
      var m := C.Sync(target, config);
      DeliverLate(c, C.Do(c, s, C.TargetFailed), m);
      OneMore(c, init, trace + [C.TargetFailed], C.Deliver(m));
      assert trace + [C.TargetFailed] + [C.Deliver(m)] == trace + [C.TargetFailed, C.Deliver(m)];
    }
  }

  /** One sync of the publishing loop, seen as steps. */
  lemma PublishAnswered(c: Node, init: C.State, trace: seq<C.Step>, outcome: Outcome)
    requires C.Initial(c, init) && C.SoundRun(c, init, trace) && C.Run(c, init, trace).job.Publishing?
    requires var j := C.Run(c, init, trace).job;
             j.done < |j.targets| && (j.targets[j.done] == c ==> outcome != AppliedThenError)
    ensures var s := C.Run(c, init, trace);
            C.SoundRun(c, init, trace + Answer(c, s.nodes, s.job.targets[s.job.done], s.job.next, outcome))
    ensures var s := C.Run(c, init, trace);
            var target := s.job.targets[s.job.done];
            var t := C.Run(c, init, trace + Answer(c, s.nodes, target, s.job.next, outcome));
            if Succeeds(s.nodes, target, outcome) then
              && t.nodes == Received(s.nodes, target, s.job.next, outcome) && t.nodes[target] == s.job.next
              && t.job == if s.job.done + 1 < |s.job.targets|
                   then C.Publishing(s.job.targets, s.job.previous, s.job.next, s.job.done + 1)
                          else C.Rebalancing(s.job.targets, s.job.previous, s.job.next, 0)
            else
              && c in s.nodes
              && t.job == Undoing(s.job.targets[..s.job.done], RollbackOf(s.job.previous, s.job.next), 0)
              && t.nodes == Stored(c, Received(s.nodes, target, s.job.next, outcome), s.job.targets[..s.job.done],
                                   RollbackOf(s.job.previous, s.job.next), 0)
  {
    hide *;
    C.InvAlways(c, init, trace);
    var s := C.Run(c, init, trace);
    var target := s.job.targets[s.job.done];
    PublishReady(c, s);
    AnswerIs(c, s.nodes, target, s.job.next, outcome);
    if Succeeds(s.nodes, target, outcome) {
      OneMore(c, init, trace, C.TargetOk);
      PublishOk(c, s);
    } else {
      var applied, rollback := s.job.targets[..s.job.done], RollbackOf(s.job.previous, s.job.next);
      PublishFailed(c, s);
      StoredKeys(c, s.nodes, applied, rollback, 0);
      FailedSteps(c, init, trace, target, s.job.next, outcome);
      NotAppliedIs(s.nodes, target, s.job.next, outcome);
      NotAppliedIs(Stored(c, s.nodes, applied, rollback, 0), target, s.job.next, outcome);
      if target != c {
        ReceivedThenStored(c, s.nodes, applied, target, s.job.next, rollback, outcome, 0);
      }
    }
  }

  lemma NotAppliedIs(nodes: map<Node, NodeConfig>, target: Node, config: NodeConfig, outcome: Outcome)
    ensures outcome == NotApplied ==> Received(nodes, target, config, outcome) == nodes
  {
  }

  lemma PublishReady(c: Node, s: C.State)
    requires C.Inv(c, s) && s.job.Publishing? && s.job.done < |s.job.targets|
    ensures c in s.nodes && C.Enabled(c, s, C.TargetFailed) && C.Sound(c, s, C.TargetFailed) &&
            C.Sound(c, s, C.TargetOk)
    ensures s.job.targets[s.job.done] in s.nodes ==> C.Enabled(c, s, C.TargetOk)
  {
    hide C.AllRecorded;
  }

  lemma RebalanceAnswered(c: Node, init: C.State, trace: seq<C.Step>, ok: bool)
    requires C.Initial(c, init) && C.SoundRun(c, init, trace) && C.Run(c, init, trace).job.Rebalancing?
    requires var s := C.Run(c, init, trace);
             s.job.done < |s.job.targets| && (ok ==> s.job.targets[s.job.done] in s.nodes)
    ensures var s := C.Run(c, init, trace);
            var t := C.Run(c, init, trace + [if ok then C.TargetOk else C.TargetFailed]);
            && C.SoundRun(c, init, trace + [if ok then C.TargetOk else C.TargetFailed])
            && t.nodes == s.nodes
            && t.job == if !ok then C.Compensating(s.job.targets, RollbackOf(s.job.previous, s.job.next), 0)
                        else if s.job.done + 1 < |s.job.targets|
                          then C.Rebalancing(s.job.targets, s.job.previous, s.job.next, s.job.done + 1) else C.Idle
  {
    C.InvAlways(c, init, trace);
    OneMore(c, init, trace, if ok then C.TargetOk else C.TargetFailed);
  }

  /** One more undo request, good or bad, and what it makes of the coordinator. */
  lemma UndoStep(c: Node, s: C.State, ok: bool)
    requires C.Inv(c, s) && s.job.Compensating? && C.Enabled(c, s, if ok then C.TargetOk else C.TargetFailed)
    requires !ok ==> s.job.targets[s.job.done] != c
    ensures var target := s.job.targets[s.job.done]; var t := C.Do(c, s, if ok then C.TargetOk else C.TargetFailed);
            && t.job == Undoing(s.job.targets, s.job.rollback, s.job.done + 1)
            && t.nodes == Stored(c, if ok then Received(s.nodes, target, s.job.rollback, Applied) else s.nodes,
                                 s.job.targets, s.job.rollback, s.job.done + 1)
            && (t.job.Idle? ==> c in t.nodes && t.nodes[c] == s.job.rollback)
            && (!ok ==> C.Sync(target, s.job.rollback) in t.wire)
  {
    hide C.AllRecorded;
    C.PrefixStep(c, s.job.targets, s.job.done);
    C.AllSeen(s.job.targets);
  }

  /** One sync of the compensation loop; the last one leaves the coordinator on the rolled-back members. */
  lemma UndoAnswered(c: Node, init: C.State, trace: seq<C.Step>, outcome: Outcome)
    requires C.Initial(c, init) && C.SoundRun(c, init, trace) && C.Run(c, init, trace).job.Compensating?
    requires var j := C.Run(c, init, trace).job;
             j.done < |j.targets| && (j.targets[j.done] == c ==> outcome != NotApplied)
    ensures var s := C.Run(c, init, trace);
            C.SoundRun(c, init, trace + Answer(c, s.nodes, s.job.targets[s.job.done], s.job.rollback, outcome))
    ensures var s := C.Run(c, init, trace);
            var target := s.job.targets[s.job.done];
            var t := C.Run(c, init, trace + Answer(c, s.nodes, target, s.job.rollback, outcome));
            && c in s.nodes
            && t.job == Undoing(s.job.targets, s.job.rollback, s.job.done + 1)
            && t.nodes == Stored(c, Received(s.nodes, target, s.job.rollback, outcome), s.job.targets, s.job.rollback,
                                 s.job.done + 1)
            && (t.job.Idle? ==> c in t.nodes && t.nodes[c] == s.job.rollback)
  {
    hide *;
    C.InvAlways(c, init, trace);
    var s := C.Run(c, init, trace);
    var target := s.job.targets[s.job.done];
    UndoReady(c, s);
    AnswerIs(c, s.nodes, target, s.job.rollback, outcome);
    if (outcome.Applied? && target in s.nodes) || target == c {
      OneMore(c, init, trace, C.TargetOk);
      UndoStep(c, s, true);
      SameReceived(s.nodes, target, s.job.rollback, outcome);
    } else {
      UndoStep(c, s, false);
      StoredKeys(c, s.nodes, s.job.targets, s.job.rollback, s.job.done + 1);
      FailedSteps(c, init, trace, target, s.job.rollback, outcome);
      ReceivedThenStored(c, s.nodes, s.job.targets, target, s.job.rollback, s.job.rollback, outcome, s.job.done + 1);
    }
  }

  lemma AnswerIs(c: Node, nodes: map<Node, NodeConfig>, target: Node, config: NodeConfig, outcome: Outcome)
    ensures (outcome.Applied? && target in nodes) || (target == c && c in nodes && !outcome.NotApplied?) ==>
              Answer(c, nodes, target, config, outcome) == [C.TargetOk]
    ensures Succeeds(nodes, target, outcome) <==> outcome.Applied? && target in nodes
  {
  }

  lemma SameReceived(nodes: map<Node, NodeConfig>, target: Node, config: NodeConfig, outcome: Outcome)
    ensures outcome != NotApplied ==>
              Received(nodes, target, config, outcome) == Received(nodes, target, config, Applied)
  {
  }

  lemma StoredKeys(c: Node, nodes: map<Node, NodeConfig>, applied: seq<Node>, rollback: NodeConfig, done: nat)
    requires c in nodes
    ensures Stored(c, nodes, applied, rollback, done).Keys == nodes.Keys
  {
  }

  /** A late delivery to another node does not mind whether the coordinator has recorded its version yet. */
  lemma ReceivedThenStored(c: Node, nodes: map<Node, NodeConfig>, applied: seq<Node>, target: Node, config: NodeConfig,
                           rollback: NodeConfig, outcome: Outcome, done: nat)
    requires c in nodes && target != c
    ensures c in Received(nodes, target, config, outcome)
    ensures Received(nodes, target, config, outcome)[c] == nodes[c]
    ensures Received(Stored(c, nodes, applied, rollback, done), target, config, outcome)
            == Stored(c, Received(nodes, target, config, outcome), applied, rollback, done)
    ensures c in Received(Stored(c, nodes, applied, rollback, done), target, config, outcome)
    ensures Received(Stored(c, nodes, applied, rollback, done), target, config, outcome)[c] ==
              Stored(c, nodes, applied, rollback, done)[c]
  {
  }

  lemma UndoReady(c: Node, s: C.State)
    requires C.Inv(c, s) && s.job.Compensating? && s.job.done < |s.job.targets|
    ensures c in s.nodes && C.Enabled(c, s, C.TargetFailed) && C.Sound(c, s, C.TargetOk)
    ensures s.job.targets[s.job.done] in s.nodes ==> C.Enabled(c, s, C.TargetOk)
    ensures s.job.targets[s.job.done] != c ==> C.Sound(c, s, C.TargetFailed)
  {
    hide C.AllRecorded;
  }
}
