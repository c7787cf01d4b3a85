/**
 Publishing member lists (internal/node/cluster_membership.go, internal/node/handler.go).

 One coordinator publishes numbered configurations one target at a time. A sync can be lost, or arrive
 any time later and more than once, whether or not the coordinator saw it fail. Three things that can
 happen to the coordinator itself break agreement; runs without them are called sound.
 */
module ClusterConfig {
  import opened Sequences

  type Node = string

  /** A node's ring members and the version of the configuration they came from. */
  datatype NodeConfig = NodeConfig(version: nat, members: set<Node>)

  datatype Message = Sync(target: Node, config: NodeConfig)

  datatype Job =
    | Idle
    | Publishing(targets: seq<Node>, previous: NodeConfig, next: NodeConfig, done: nat)
    | Rebalancing(targets: seq<Node>, previous: NodeConfig, next: NodeConfig, done: nat)
    | Compensating(targets: seq<Node>, rollback: NodeConfig, done: nat)

  /** `published` is history: the member set each version number was used for. */
  datatype State = State(nodes: map<Node, NodeConfig>, wire: set<Message>, job: Job, published: map<nat, set<Node>>)

  /** `handleMembershipSync`: version zero is refused, an old version acknowledged and ignored. */
  function Handle(current: NodeConfig, config: NodeConfig): NodeConfig {
    if config.version == 0 || config.version <= current.version then current else config
  }

  function Delivered(s: State, m: Message): map<Node, NodeConfig> {
    if m.target in s.nodes then s.nodes[m.target := Handle(s.nodes[m.target], m.config)] else s.nodes
  }

  datatype Step =
    | AddMember(member: Node, order: seq<Node>)
    | RemoveMember(member: Node, order: seq<Node>)
    | TargetOk
    | TargetFailed
    | Deliver(m: Message)

  predicate Waiting(j: Job) {
    !j.Idle? && j.done < |j.targets|
  }

  predicate Exhausted(j: Job) {
    !j.Idle? && j.done >= |j.targets|
  }

  ghost predicate Enabled(c: Node, s: State, step: Step) {
    c in s.nodes &&
    match step
    case AddMember(m, order) =>
      s.job.Idle? && m !in s.nodes[c].members && Elements(order) == s.nodes[c].members + {m}
    case RemoveMember(m, order) =>
      s.job.Idle? && m in s.nodes[c].members && |s.nodes[c].members| > 1 && Elements(order) == s.nodes[c].members - {m}
    case TargetOk => Waiting(s.job) && s.job.targets[s.job.done] in s.nodes
    case TargetFailed => Waiting(s.job)
    case Deliver(m) => m in s.wire
  }

  /** Start publishing the configuration after the coordinator's own. */
  function Publish(c: Node, s: State, order: seq<Node>): State
    requires c in s.nodes
  {
    var next := NodeConfig(s.nodes[c].version + 1, Elements(order));
    s.(job := Publishing(order, s.nodes[c], next, 0), published := s.published[next.version := next.members])
  }

  /** Start rolling the applied targets back to the previous members under a fresh version. */
  function Compensate(s: State, applied: seq<Node>, previous: NodeConfig, next: NodeConfig): State {
    var rollback := NodeConfig(next.version + 1, previous.members);
    s.(job := Compensating(applied, rollback, 0), published := s.published[rollback.version := rollback.members])
  }

  /** The next phase once every target has been handled. */
  function Settle(c: Node, s: State): State
    requires c in s.nodes
  {
    if !Exhausted(s.job) then s
    else match s.job
      case Publishing(targets, previous, next, _) => s.(job := Rebalancing(targets, previous, next, 0))
      case Rebalancing(_, _, _, _) => s.(job := Idle)
      case Compensating(targets, rollback, _) =>
        if c in targets then s.(job := Idle)
        else s.(job := Idle, nodes := s.nodes[c := NodeConfig(rollback.version, s.nodes[c].members)])
  }

  ghost function Do(c: Node, s: State, step: Step): State
    requires Enabled(c, s, step)
  {
    match step
    case AddMember(_, order) => Settle(c, Publish(c, s, order))
    case RemoveMember(_, order) => Settle(c, Publish(c, s, order))
    case Deliver(m) => s.(nodes := Delivered(s, m))
    case TargetOk =>
      var target := s.job.targets[s.job.done];
      (match s.job
       case Publishing(targets, previous, next, done) =>
         Settle(c, s.(nodes := Delivered(s, Sync(target, next)), job := Publishing(targets, previous, next, done + 1)))
       case Rebalancing(targets, previous, next, done) =>
         Settle(c, s.(job := Rebalancing(targets, previous, next, done + 1)))
       case Compensating(targets, rollback, done) =>
         Settle(c, s.(nodes := Delivered(s, Sync(target, rollback)), job := Compensating(targets, rollback, done + 1))))
    case TargetFailed =>
      var target := s.job.targets[s.job.done];
      (match s.job
       case Publishing(targets, previous, next, done) =>
         Settle(c, Compensate(s, targets[..done], previous, next).(wire := s.wire + {Sync(target, next)}))
       case Rebalancing(targets, previous, next, done) => Settle(c, Compensate(s, targets, previous, next))
       case Compensating(targets, rollback, done) =>
         Settle(c, s.(wire := s.wire + {Sync(target, rollback)}, job := Compensating(targets, rollback, done + 1))))
  }

  lemma Lists(order: seq<Node>, members: set<Node>)
    ensures Elements(order) == members <==> forall n :: n in order <==> n in members
  {
  }

  /**
   A change starts only between jobs, a join of a node that is not a member, a leave of one that is and is not the
   last. It publishes the coordinator's members with that one change, one version on, to the new members in order.
   */
  lemma ChangeStarts(c: Node, s: State, m: Node, order: seq<Node>)
    requires c in s.nodes && s.job.Idle?
    ensures var mine := s.nodes[c];
            && (Enabled(c, s, AddMember(m, order)) <==>
                 m !in mine.members && forall n :: n in order <==> n in mine.members || n == m)
            && (Enabled(c, s, RemoveMember(m, order)) <==>
                 m in mine.members && mine.members != {m} && forall n :: n in order <==> n in mine.members && n != m)
            && (forall step :: step in {AddMember(m, order), RemoveMember(m, order)} && Enabled(c, s, step) ==>
                 Do(c, s, step).job == Publishing(order, mine, NodeConfig(mine.version + 1, Elements(order)), 0))
  {
    var mine := s.nodes[c];
    Lists(order, mine.members + {m});
    Lists(order, mine.members - {m});
    if m in mine.members {
      assert mine.members == mine.members - {m} + {m};
      assert |mine.members - {m}| == |mine.members| - 1;
      assert mine.members - {m} == {} <==> mine.members == {m};
    }
  }

  /** Every node starts unconfigured, with whatever members it was started with. */
  predicate Initial(c: Node, s: State) {
    && c in s.nodes && c in s.nodes[c].members
    && (forall n :: n in s.nodes ==> s.nodes[n].version == 0)
    && s.wire == {} && s.job == Idle && s.published == map[]
  }

  ghost function Run(c: Node, init: State, steps: seq<Step>): State {
    if steps == [] then init
    else
      var s := Run(c, init, steps[..|steps| - 1]);
      if Enabled(c, s, steps[|steps| - 1]) then Do(c, s, steps[|steps| - 1]) else s
  }

  lemma RunMore(c: Node, init: State, steps: seq<Step>, step: Step)
    requires Enabled(c, Run(c, init, steps), step)
    ensures Run(c, init, steps + [step]) == Do(c, Run(c, init, steps), step)
  {
    assert (steps + [step])[..|steps|] == steps;
  }

  lemma Starts(c: Node, s: State, step: Step)
    requires (step.AddMember? || step.RemoveMember?) && Enabled(c, s, step) && step.order != []
    ensures Do(c, s, step) == Publish(c, s, step.order)
  {
  }

  // ------------------------------------------------------------------ invariant

  /**
   Which of three things that can happen to the coordinator are ruled out: that it removes itself, that a sync to
   itself that it saw fail brings it a newer configuration all the same, and that it misses its own rollback.
   */
  datatype Rules = Rules(stays: bool, hearsOnce: bool, hearsRollback: bool)

  const ALL_RULES := Rules(true, true, true)

  predicate Allowed(rules: Rules, c: Node, s: State, step: Step) {
    match step
    case RemoveMember(m, _) => rules.stays ==> m != c
    case Deliver(m) => rules.hearsOnce && m.target == c && c in s.nodes ==> m.config.version <= s.nodes[c].version
    case TargetFailed =>
      rules.hearsRollback && s.job.Compensating? && Waiting(s.job) ==> s.job.targets[s.job.done] != c
    case _ => true
  }

  ghost predicate AllowedRun(rules: Rules, c: Node, init: State, steps: seq<Step>) {
    steps != [] ==>
      var before := steps[..|steps| - 1];
      var step := steps[|steps| - 1];
      && AllowedRun(rules, c, init, before)
      && (Enabled(c, Run(c, init, before), step) ==> Allowed(rules, c, Run(c, init, before), step))
  }

  predicate Sound(c: Node, s: State, step: Step) {
    Allowed(ALL_RULES, c, s, step)
  }

  ghost predicate SoundRun(c: Node, init: State, steps: seq<Step>) {
    AllowedRun(ALL_RULES, c, init, steps)
  }

  predicate Recorded(s: State, config: NodeConfig) {
    config.version >= 1 ==> config.version in s.published && s.published[config.version] == config.members
  }

  /** Every configured node and every message carries a recorded configuration. */
  ghost predicate AllRecorded(s: State) {
    && (forall n :: n in s.nodes ==> Recorded(s, s.nodes[n]))
    && (forall m :: m in s.wire ==> Recorded(s, m.config))
  }

  ghost predicate NoneAbove(s: State, top: nat) {
    forall v :: v in s.published ==> 1 <= v <= top
  }

  /** Where the coordinator stands in its current job, and the largest version number used. */
  ghost predicate OnTrack(c: Node, s: State) {
    && c in s.nodes && c in s.nodes[c].members
    && match s.job
       case Idle => NoneAbove(s, s.nodes[c].version)
       case Publishing(targets, previous, next, done) =>
         && done < |targets| && c in targets && NoneAbove(s, next.version) && Recorded(s, next)
         && next.version == previous.version + 1 && next.members == Elements(targets)
         && c in previous.members
         && s.nodes[c] == if c in targets[..done] then next else previous
       case Rebalancing(targets, previous, next, done) =>
         && done < |targets| && c in targets && NoneAbove(s, next.version) && Recorded(s, next)
         && next.version == previous.version + 1 && c in next.members
         && c in previous.members && s.nodes[c] == next
       case Compensating(targets, rollback, done) =>
         && done < |targets| && NoneAbove(s, rollback.version) && Recorded(s, rollback) && c in rollback.members
         && rollback.version >= 2
         && s.nodes[c].version < rollback.version + (if c in targets[..done] then 1 else 0)
         && (c in targets[..done] ==> s.nodes[c] == rollback)
         && (c !in targets ==> s.nodes[c].members == rollback.members)
  }

  ghost predicate Inv(c: Node, s: State) {
    AllRecorded(s) && OnTrack(c, s)
  }

  /** Using a fresh version number disturbs nothing recorded. */
  lemma RecordFresh(s: State, t: State, version: nat, members: set<Node>)
    requires AllRecorded(s) && version !in s.published
    requires t.published == s.published[version := members] && t.nodes == s.nodes
    requires forall m :: m in t.wire ==> m in s.wire || Recorded(t, m.config)
    ensures AllRecorded(t)
  {
  }

  lemma DeliverRecorded(s: State, t: State, m: Message)
    requires AllRecorded(s) && Recorded(s, m.config)
    requires t.nodes == Delivered(s, m) && t.published == s.published && t.wire == s.wire
    ensures AllRecorded(t)
  {
  }

  lemma PrefixStep(c: Node, targets: seq<Node>, done: nat)
    requires done < |targets|
    ensures c in targets[..done + 1] <==> c in targets[..done] || targets[done] == c
  {
    assert targets[..done + 1] == targets[..done] + [targets[done]];
  }

  /** Settling keeps the invariant of the job it ends. */
  lemma SettleKeeps(c: Node, s: State)
    requires AllRecorded(s) && c in s.nodes && c in s.nodes[c].members
    requires Waiting(s.job) ==> OnTrack(c, s)
    requires Exhausted(s.job)
    requires s.job.Publishing? ==>
               && s.job.targets != [] && s.job.next == s.nodes[c] && NoneAbove(s, s.job.next.version) &&
                  c in s.job.targets
               && s.job.next.version == s.job.previous.version + 1 && c in s.job.previous.members
    requires s.job.Rebalancing? ==> NoneAbove(s, s.nodes[c].version)
    requires s.job.Compensating? ==>
               && NoneAbove(s, s.job.rollback.version) && Recorded(s, s.job.rollback) && s.job.rollback.version >= 1
               && (if c in s.job.targets then s.nodes[c] == s.job.rollback
                  else s.nodes[c].members == s.job.rollback.members)
    ensures Inv(c, Settle(c, s))
  {
  }

  lemma StartKeeps(c: Node, s: State, order: seq<Node>)
    requires Inv(c, s) && s.job.Idle? && c in order
    ensures Inv(c, Settle(c, Publish(c, s, order)))
  {
    var t := Publish(c, s, order);
    RecordFresh(s, t, s.nodes[c].version + 1, Elements(order));
    assert t.job.targets[..0] == [];
  }

  lemma AllSeen(targets: seq<Node>)
    ensures targets[..|targets|] == targets
  {
  }

  lemma TargetOkKeeps(c: Node, s: State)
    requires Inv(c, s) && Enabled(c, s, TargetOk)
    ensures Inv(c, Do(c, s, TargetOk))
  {
    var j := s.job;
    PrefixStep(c, j.targets, j.done);
    AllSeen(j.targets);
    match j {
      case Publishing(_, _, _, _) => PublishKeeps(c, s);
      case Rebalancing(targets, previous, next, done) =>
        var t := s.(job := Rebalancing(targets, previous, next, done + 1));
        if done + 1 == |targets| {
          SettleKeeps(c, t);
        }
      case Compensating(_, _, _) => UndoKeeps(c, s);
    }
  }

  lemma PublishKeeps(c: Node, s: State)
    requires Inv(c, s) && s.job.Publishing? && Enabled(c, s, TargetOk)
    ensures Inv(c, Do(c, s, TargetOk))
  {
    var j := s.job;
    var m := Sync(j.targets[j.done], j.next);
    PrefixStep(c, j.targets, j.done);
    AllSeen(j.targets);
    var t := s.(nodes := Delivered(s, m), job := Publishing(j.targets, j.previous, j.next, j.done + 1));
    DeliverRecorded(s, t, m);
    hide AllRecorded;
    if j.done + 1 == |j.targets| {
      SettleKeeps(c, t);
    }
  }

  lemma UndoKeeps(c: Node, s: State)
    requires Inv(c, s) && s.job.Compensating? && Enabled(c, s, TargetOk)
    ensures Inv(c, Do(c, s, TargetOk))
  {
    var j := s.job;
    var m := Sync(j.targets[j.done], j.rollback);
    PrefixStep(c, j.targets, j.done);
    AllSeen(j.targets);
    var t := s.(nodes := Delivered(s, m), job := Compensating(j.targets, j.rollback, j.done + 1));
    DeliverRecorded(s, t, m);
    hide AllRecorded;
    if j.done + 1 == |j.targets| {
      SettleKeeps(c, t);
    }
  }

  lemma CompensateKeeps(c: Node, s: State, applied: seq<Node>, t: State)
    requires Inv(c, s) && (s.job.Publishing? || s.job.Rebalancing?)
    requires applied == if s.job.Publishing? then s.job.targets[..s.job.done] else s.job.targets
    requires var u := Compensate(s, applied, s.job.previous, s.job.next);
             t == u.(wire := t.wire) && forall m :: m in t.wire ==> m in s.wire || m.config == s.job.next
    ensures Inv(c, Settle(c, t))
  {
    RecordFresh(s, t, s.job.next.version + 1, s.job.previous.members);
    assert applied[..0] == [];
    if applied == [] {
      SettleKeeps(c, t);
    }
  }

  lemma TargetFailedKeeps(c: Node, s: State)
    requires Inv(c, s) && Enabled(c, s, TargetFailed) && Sound(c, s, TargetFailed)
    ensures Inv(c, Do(c, s, TargetFailed))
  {
    var j := s.job;
    match j {
      case Publishing(targets, previous, next, done) =>
        CompensateKeeps(c, s, targets[..done],
          Compensate(s, targets[..done], previous, next).(wire := s.wire + {Sync(targets[done], next)}));
      case Rebalancing(targets, previous, next, done) =>
        CompensateKeeps(c, s, targets, Compensate(s, targets, previous, next));
      case Compensating(targets, rollback, done) =>
        PrefixStep(c, targets, done);
        AllSeen(targets);
        var t := s.(wire := s.wire + {Sync(targets[done], rollback)}, job := Compensating(targets, rollback, done + 1));
        if done + 1 == |targets| {
          SettleKeeps(c, t);
        }
    }
  }

  lemma InvKept(c: Node, s: State, step: Step)
    requires Inv(c, s) && Enabled(c, s, step) && Sound(c, s, step)
    ensures Inv(c, Do(c, s, step))
  {
    hide Settle, Publish;
    match step {
      case AddMember(_, order) =>
        assert c in Elements(order);
        StartKeeps(c, s, order);
      case RemoveMember(_, order) =>
        assert c in Elements(order);
        StartKeeps(c, s, order);
      case Deliver(m) => DeliverRecorded(s, Do(c, s, step), m);
      case TargetOk => TargetOkKeeps(c, s);
      case TargetFailed => TargetFailedKeeps(c, s);
    }
  }

  lemma {:induction false} InvAlways(c: Node, init: State, steps: seq<Step>)
    requires Initial(c, init) && SoundRun(c, init, steps)
    ensures Inv(c, Run(c, init, steps))
  {
    if steps != [] {
      var n := |steps| - 1;
      hide Do, Enabled, Inv, Sound;
      InvAlways(c, init, steps[..n]);
      if Enabled(c, Run(c, init, steps[..n]), steps[n]) {
        InvKept(c, Run(c, init, steps[..n]), steps[n]);
      }
    } else {
      assert Inv(c, init);
    }
  }

  // ------------------------------------------------------------------ main results

  /**
   Config agreement: in every sound run, any two nodes at the same version of at least one have the same
   member set, whatever was lost, delayed or rolled back.
   */
  lemma Agreement(c: Node, init: State, steps: seq<Step>, a: Node, b: Node)
    requires Initial(c, init) && SoundRun(c, init, steps)
    requires var s := Run(c, init, steps); a in s.nodes && b in s.nodes && s.nodes[a].version == s.nodes[b].version >= 1
    ensures var s := Run(c, init, steps); s.nodes[a].members == s.nodes[b].members
  {
    InvAlways(c, init, steps);
    hide OnTrack;
  }

  /** No node's version ever falls, and a node whose version stays keeps its members. */
  lemma VersionsNeverFall(c: Node, s: State, step: Step, n: Node)
    requires Inv(c, s) && Enabled(c, s, step) && Sound(c, s, step) && n in s.nodes
    ensures var t := Do(c, s, step);
            && n in t.nodes && s.nodes[n].version <= t.nodes[n].version
            && (s.nodes[n].version == t.nodes[n].version ==> t.nodes[n] == s.nodes[n])
  {
    if !s.job.Idle? {
      PrefixStep(c, s.job.targets, s.job.done);
      AllSeen(s.job.targets);
    }
  }

  lemma {:induction false} VersionsNeverFallInRuns(c: Node, init: State, steps: seq<Step>, more: seq<Step>, n: Node)
    requires Initial(c, init) && SoundRun(c, init, steps + more) && n in Run(c, init, steps).nodes
    ensures n in Run(c, init, steps + more).nodes
    ensures Run(c, init, steps).nodes[n].version <= Run(c, init, steps + more).nodes[n].version
  {
    hide Do, Enabled, Inv, Sound;
    if more == [] {
      assert steps + more == steps;
    } else {
      var k := |more| - 1;
      var all := steps + more;
      assert all[..|all| - 1] == steps + more[..k];
      VersionsNeverFallInRuns(c, init, steps, more[..k], n);
      InvAlways(c, init, steps + more[..k]);
      var t := Run(c, init, steps + more[..k]);
      if Enabled(c, t, more[k]) {
        VersionsNeverFall(c, t, more[k], n);
      }
    }
  }

  /**
   With the coordinator as the only publisher its own configuration is always the newest: whenever it is
   idle, every node at its version has its members and no node is ahead of it.
   */
  lemma CoordinatorIsNewest(c: Node, init: State, steps: seq<Step>, n: Node)
    requires Initial(c, init) && SoundRun(c, init, steps) && Run(c, init, steps).job.Idle? &&
             n in Run(c, init, steps).nodes
    ensures var s := Run(c, init, steps);
            && c in s.nodes && s.nodes[n].version <= s.nodes[c].version
            && (s.nodes[n].version == s.nodes[c].version >= 1 ==> s.nodes[n].members == s.nodes[c].members)
  {
    InvAlways(c, init, steps);
    var s := Run(c, init, steps);
    assert Recorded(s, s.nodes[n]);
  }

  // ------------------------------------------------------------------ single requests

  /** A sync is taken exactly if its configuration is newer than the target's; nobody else notices. */
  lemma NewerIsTaken(s: State, m: Message)
    ensures Delivered(s, m) ==
              if m.target in s.nodes && m.config.version > s.nodes[m.target].version
              then s.nodes[m.target := m.config] else s.nodes
  {
    if m.target in s.nodes {
      assert s.nodes[m.target := s.nodes[m.target]] == s.nodes;
    }
  }

  /** The request the current job is waiting for. */
  function Request(j: Job): Message
    requires (j.Publishing? || j.Compensating?) && Waiting(j)
  {
    Sync(j.targets[j.done], if j.Publishing? then j.next else j.rollback)
  }

  lemma WireGrows(c: Node, s: State, step: Step)
    requires Enabled(c, s, step)
    ensures s.wire <= Do(c, s, step).wire
  {
  }

  /** A sync that was seen to fail may still arrive after anything else that happens, and then counts as a late one. */
  lemma {:induction false} FailedSyncMayArrive(c: Node, init: State, before: seq<Step>, after: seq<Step>)
    requires var s := Run(c, init, before);
             Enabled(c, s, TargetFailed) && (s.job.Publishing? || s.job.Compensating?)
    ensures var m, t := Request(Run(c, init, before).job), Run(c, init, before + [TargetFailed] + after);
            m in t.wire &&
            (c in t.nodes ==> Enabled(c, t, Deliver(m)) && Do(c, t, Deliver(m)).nodes == Delivered(t, m))
  {
    if after == [] {
      RunMore(c, init, before, TargetFailed);
      assert before + [TargetFailed] + [] == before + [TargetFailed];
    } else {
      var k := |after| - 1;
      FailedSyncMayArrive(c, init, before, after[..k]);
      var all := before + [TargetFailed] + after;
      assert all[..|all| - 1] == before + [TargetFailed] + after[..k];
      var t := Run(c, init, all[..|all| - 1]);
      if Enabled(c, t, after[k]) {
        WireGrows(c, t, after[k]);
      }
    }
  }
}
