/**
 What agreement on configurations needs (internal/node/cluster_membership.go): exactly that three things do
 not happen to the coordinator.
 */
module ConfigAgreement {
  import opened Sequences
  import opened ClusterConfig

  /** Any two nodes at the same version of at least one have the same members. */
  ghost predicate Agree(s: State) {
    forall a, b :: a in s.nodes && b in s.nodes && s.nodes[a].version == s.nodes[b].version >= 1 ==>
      s.nodes[a].members == s.nodes[b].members
  }

  /** Every run within these rules, from every start, agrees. */
  ghost predicate AlwaysAgree(rules: Rules) {
    forall c, init, steps :: Initial(c, init) && AllowedRun(rules, c, init, steps) ==> Agree(Run(c, init, steps))
  }

  const WITHOUT_STAYING := Rules(false, true, true)
  const WITHOUT_HEARING_ONCE := Rules(true, false, true)
  const WITHOUT_HEARING_ROLLBACK := Rules(true, true, false)

  /** The coordinator removes itself, keeps its version and uses the next one for a second configuration. */
  function SelfRemoval(c: Node, a: Node, b: Node): seq<Step> {
    [RemoveMember(c, [a]), TargetOk, TargetOk, AddMember(b, [c, a, b]), TargetOk]
  }

  /** The coordinator's sync to itself is reported as failed and arrives during the rollback of the others. */
  function HalfFailure(c: Node, a: Node, b: Node): seq<Step> {
    [AddMember(b, [a, c, b]), TargetOk, TargetFailed, Deliver(Sync(c, NodeConfig(1, {a, c, b}))), TargetOk]
  }

  /** A join fails, the coordinator misses the rollback, and uses the rollback's version again. */
  function MissedRollback(c: Node, a: Node, b: Node): seq<Step> {
    [AddMember(b, [c, a, b]), TargetOk, TargetOk, TargetFailed, TargetFailed, TargetOk, RemoveMember(a, [c, b]),
     TargetOk]
  }

  /** Two running nodes, `c` and `a`, that know each other; `b` and `d` are not running. */
  predicate Pair(c: Node, a: Node, init: State) {
    && c != a && init.nodes == map[c := NodeConfig(0, {c, a}), a := NodeConfig(0, {c, a})]
    && init.wire == {} && init.job == Idle && init.published == map[]
  }

  /**
   A run within these rules that ends with the two nodes at the same
   version, of at least one, and different members.
   */
  ghost predicate Disagrees(rules: Rules, c: Node, a: Node, init: State, steps: seq<Step>) {
    var s := Run(c, init, steps);
    && Initial(c, init) && AllowedRun(rules, c, init, steps)
    && c in s.nodes && a in s.nodes && s.nodes[c].version == s.nodes[a].version >= 1
    && s.nodes[c].members != s.nodes[a].members
  }

  lemma Joins(c: Node, a: Node, b: Node, s: State, order: seq<Node>)
    requires c in s.nodes && s.job.Idle? && s.nodes[c].members == {c, a} && b != c && b != a &&
             Elements(order) == {c, a, b}
    ensures Enabled(c, s, AddMember(b, order))
  {
  }

  lemma Leaves(c: Node, m: Node, s: State, order: seq<Node>)
    requires c in s.nodes && s.job.Idle? && m in s.nodes[c].members
    requires |s.nodes[c].members| > 1 && Elements(order) == s.nodes[c].members - {m}
    ensures Enabled(c, s, RemoveMember(m, order))
  {
  }

  /** One step, given what it does: the value after it and the steps so far. */
  lemma Then(rules: Rules, c: Node, init: State, steps: seq<Step>, step: Step, s: State, t: State, more: seq<Step>)
    requires Run(c, init, steps) == s && Enabled(c, s, step) && Do(c, s, step) == t && more == steps + [step]
    requires AllowedRun(rules, c, init, steps) && Allowed(rules, c, s, step)
    ensures Run(c, init, more) == t && AllowedRun(rules, c, init, more)
  {
    RunMore(c, init, steps, step);
    assert more[..|more| - 1] == steps;
  }

  /** The target takes a configuration that is newer than its own. */
  function Synced(s: State): State
    requires s.job.Publishing? && Waiting(s.job)
  {
    var j := s.job;
    s.(nodes := s.nodes[j.targets[j.done] := j.next],
       job := if j.done + 1 < |j.targets| then Publishing(j.targets, j.previous, j.next, j.done + 1)
       else Rebalancing(j.targets, j.previous, j.next, 0))
  }

  lemma Syncs(c: Node, s: State)
    requires c in s.nodes && s.job.Publishing? && Waiting(s.job) && s.job.targets[s.job.done] in s.nodes
    requires s.job.next.version > s.nodes[s.job.targets[s.job.done]].version
    ensures Enabled(c, s, TargetOk) && Do(c, s, TargetOk) == Synced(s)
  {
  }

  /** A publishing request fails after some good ones. */
  function RolledBack(s: State): State
    requires s.job.Publishing? && 0 < s.job.done < |s.job.targets|
  {
    var j := s.job;
    var back := NodeConfig(j.next.version + 1, j.previous.members);
    s.(wire := s.wire + {Sync(j.targets[j.done], j.next)}, job := Compensating(j.targets[..j.done], back, 0),
       published := s.published[back.version := back.members])
  }

  lemma RollsBack(c: Node, s: State)
    requires c in s.nodes && s.job.Publishing? && 0 < s.job.done < |s.job.targets|
    ensures Enabled(c, s, TargetFailed) && Do(c, s, TargetFailed) == RolledBack(s)
  {
  }

  /** A rollback of nodes other than the coordinator ends. */
  lemma LastUndone(c: Node, s: State)
    requires c in s.nodes && s.job.Compensating? && Waiting(s.job) && s.job.done + 1 == |s.job.targets| &&
             c !in s.job.targets
    requires s.job.targets[s.job.done] in s.nodes && s.job.rollback.version > s.nodes[s.job.targets[s.job.done]].version
    ensures Enabled(c, s, TargetOk) &&
            var t := Do(c, s, TargetOk);
            c in t.nodes && t.nodes[c] == NodeConfig(s.job.rollback.version, s.nodes[c].members)
            && t.nodes == s.nodes[s.job.targets[s.job.done] := s.job.rollback][c := t.nodes[c]]
  {
  }

  lemma LastRebalanced(c: Node, s: State)
    requires c in s.nodes && s.job.Rebalancing? && s.job.done + 1 == |s.job.targets| &&
             s.job.targets[s.job.done] in s.nodes
    ensures Enabled(c, s, TargetOk) && Do(c, s, TargetOk) == s.(job := Idle)
  {
  }

  lemma Delivers(c: Node, s: State, m: Message)
    requires c in s.nodes && m in s.wire && m.target in s.nodes && m.config.version > s.nodes[m.target].version
    ensures Enabled(c, s, Deliver(m)) && Do(c, s, Deliver(m)) == s.(nodes := s.nodes[m.target := m.config])
  {
  }

  /** The coordinator misses its rollback, and the last other target takes it. */
  lemma MissesAndEnds(c: Node, a: Node, s: State)
    requires c in s.nodes && a in s.nodes && s.job.Compensating? && s.job.targets == [c, a] && s.job.done == 0 && a != c
    requires s.job.rollback.version > s.nodes[a].version
    ensures Enabled(c, s, TargetFailed) &&
            var t := Do(c, s, TargetFailed);
            Enabled(c, t, TargetOk) && Do(c, t, TargetOk).job.Idle? &&
            Do(c, t, TargetOk).nodes == s.nodes[a := s.job.rollback]
  {
  }

  lemma NothingYet(rules: Rules, c: Node, init: State)
    ensures Run(c, init, []) == init && AllowedRun(rules, c, init, [])
  {
  }

  lemma LeavesItself(c: Node, a: Node, init: State)
    requires Pair(c, a, init)
    ensures var s := Run(c, init, [RemoveMember(c, [a]), TargetOk, TargetOk]);
            && AllowedRun(WITHOUT_STAYING, c, init, [RemoveMember(c, [a]), TargetOk, TargetOk])
            && s.job.Idle? && c in s.nodes && a in s.nodes
            && s.nodes[c] == NodeConfig(0, {c, a}) && s.nodes[a] == NodeConfig(1, {a})
  {
    var leave := RemoveMember(c, [a]);
    assert Elements([a]) == {a} && {c, a} - {c} == {a} && |{c, a}| > 1;
    NothingYet(WITHOUT_STAYING, c, init);
    hide Run, AllowedRun, Enabled, Do, Settle, Elements;
    Leaves(c, c, init, [a]);
    Starts(c, init, leave);
    var s1 := Publish(c, init, [a]);
    Then(WITHOUT_STAYING, c, init, [], leave, init, s1, [leave]);
    Syncs(c, s1);
    var s2 := Synced(s1);
    Then(WITHOUT_STAYING, c, init, [leave], TargetOk, s1, s2, [leave, TargetOk]);
    LastRebalanced(c, s2);
    Then(WITHOUT_STAYING, c, init, [leave, TargetOk], TargetOk, s2, s2.(job := Idle), [leave, TargetOk, TargetOk]);
  }

  /** A coordinator that removes itself keeps its version, and uses the next one for a second configuration. */
  lemma RemovingItselfBreaksAgreement(c: Node, a: Node, b: Node, init: State)
    requires Pair(c, a, init) && b != c && b != a
    ensures Disagrees(WITHOUT_STAYING, c, a, init, SelfRemoval(c, a, b))
  {
    var left, join := [RemoveMember(c, [a]), TargetOk, TargetOk], AddMember(b, [c, a, b]);
    LeavesItself(c, a, init);
    assert Elements([c, a, b]) == {c, a, b};
    var s3 := Run(c, init, left);
    hide Run, AllowedRun, Enabled, Do, Settle, Elements;
    Joins(c, a, b, s3, [c, a, b]);
    Starts(c, s3, join);
    var s4 := Publish(c, s3, [c, a, b]);
    Then(WITHOUT_STAYING, c, init, left, join, s3, s4, left + [join]);
    Syncs(c, s4);
    Then(WITHOUT_STAYING, c, init, left + [join], TargetOk, s4, Synced(s4), left + [join, TargetOk]);
    assert left + [join, TargetOk] == SelfRemoval(c, a, b);
    assert b in {c, a, b} && b !in {a};
  }

  /**
   A failed sync that reaches the coordinator all the same leaves it with
   the failed members under the rollback's version.
   */
  lemma HalfFailedSyncBreaksAgreement(c: Node, a: Node, b: Node, init: State)
    requires Pair(c, a, init) && b != c && b != a
    ensures Disagrees(WITHOUT_HEARING_ONCE, c, a, init, HalfFailure(c, a, b))
  {
    var sent := [AddMember(b, [a, c, b]), TargetOk, TargetFailed];
    var m := Sync(c, NodeConfig(1, {a, c, b}));
    FailsAtItself(c, a, b, init);
    var s3 := Run(c, init, sent);
    hide Run, AllowedRun, Enabled, Do, Settle;
    var s4 := s3.(nodes := s3.nodes[c := m.config]);
    Delivers(c, s3, m);
    Then(WITHOUT_HEARING_ONCE, c, init, sent, Deliver(m), s3, s4, sent + [Deliver(m)]);
    LastUndone(c, s4);
    Then(WITHOUT_HEARING_ONCE, c, init, sent + [Deliver(m)], TargetOk, s4, Do(c, s4, TargetOk),
         sent + [Deliver(m), TargetOk]);
    assert sent + [Deliver(m), TargetOk] == HalfFailure(c, a, b);
    assert b in {a, c, b} && b !in {c, a};
  }

  /** The states of that join, up to the failure. */
  lemma FailedJoin(c: Node, a: Node, b: Node, init: State)
    requires Pair(c, a, init) && b != c && b != a
    ensures var s1 := Publish(c, init, [a, c, b]);
            && c in s1.nodes && a in s1.nodes && s1.job.Publishing? && Waiting(s1.job)
            && s1.job.targets[s1.job.done] == a && s1.job.next.version > s1.nodes[a].version
            && var s2 := Synced(s1);
            && c in s2.nodes && s2.job.Publishing? && 0 < s2.job.done < |s2.job.targets|
            && var s := RolledBack(s2);
            && c in s.nodes && a in s.nodes && s.nodes[c].version == 0 && s.nodes[a].version == 1
            && s.job == Compensating([a], NodeConfig(2, {c, a}), 0) && Sync(c, NodeConfig(1, {a, c, b})) in s.wire
  {
    assert Elements([a, c, b]) == {a, c, b} && [a, c, b][..1] == [a];
    hide Elements;
  }

  /** A join whose sync to the coordinator itself is reported as failed. */
  lemma FailsAtItself(c: Node, a: Node, b: Node, init: State)
    requires Pair(c, a, init) && b != c && b != a
    ensures var s := Run(c, init, [AddMember(b, [a, c, b]), TargetOk, TargetFailed]);
            && AllowedRun(WITHOUT_HEARING_ONCE, c, init, [AddMember(b, [a, c, b]), TargetOk, TargetFailed])
            && c in s.nodes && a in s.nodes && s.nodes[c].version == 0 && s.nodes[a].version == 1
            && s.job == Compensating([a], NodeConfig(2, {c, a}), 0) && Sync(c, NodeConfig(1, {a, c, b})) in s.wire
  {
    FailedJoin(c, a, b, init);
    assert Elements([a, c, b]) == {a, c, b};
    var join := AddMember(b, [a, c, b]);
    NothingYet(WITHOUT_HEARING_ONCE, c, init);
    hide Run, AllowedRun, Enabled, Do, Settle, Elements;
    Joins(c, a, b, init, [a, c, b]);
    Starts(c, init, join);
    hide Publish, Synced, RolledBack;
    var s1 := Publish(c, init, [a, c, b]);
    Then(WITHOUT_HEARING_ONCE, c, init, [], join, init, s1, [join]);
    Syncs(c, s1);
    var s2 := Synced(s1);
    Then(WITHOUT_HEARING_ONCE, c, init, [join], TargetOk, s1, s2, [join, TargetOk]);
    RollsBack(c, s2);
    Then(WITHOUT_HEARING_ONCE, c, init, [join, TargetOk], TargetFailed, s2, RolledBack(s2),
         [join, TargetOk, TargetFailed]);
  }

  /** A coordinator that misses its own rollback uses the rollback's version again. */
  lemma MissedRollbackBreaksAgreement(c: Node, a: Node, b: Node, init: State)
    requires Pair(c, a, init) && b != c && b != a
    ensures Disagrees(WITHOUT_HEARING_ROLLBACK, c, a, init, MissedRollback(c, a, b))
  {
    var leave := RemoveMember(a, [c, b]);
    var failed := [AddMember(b, [c, a, b]), TargetOk, TargetOk, TargetFailed, TargetFailed, TargetOk];
    MissesRollback(c, a, b, init);
    var s6 := Run(c, init, failed);
    hide Run, AllowedRun;
    assert Elements([c, b]) == {c, b};
    assert |{c, a, b}| == 3 && {c, a, b} - {a} == {c, b};
    hide Enabled, Do, Settle;
    Leaves(c, a, s6, [c, b]);
    Starts(c, s6, leave);
    var s7 := Publish(c, s6, [c, b]);
    Then(WITHOUT_HEARING_ROLLBACK, c, init, failed, leave, s6, s7, failed + [leave]);
    Syncs(c, s7);
    Then(WITHOUT_HEARING_ROLLBACK, c, init, failed + [leave], TargetOk, s7, Synced(s7), failed + [leave, TargetOk]);
    assert a in {c, a} && a !in {c, b};
    assert failed + [leave, TargetOk] == MissedRollback(c, a, b);
  }

  /** A join of a node that does not run, whose rollback the coordinator misses. */
  lemma MissesRollback(c: Node, a: Node, b: Node, init: State)
    requires Pair(c, a, init) && b != c && b != a
    ensures var steps := [AddMember(b, [c, a, b]), TargetOk, TargetOk, TargetFailed, TargetFailed, TargetOk];
            var s := Run(c, init, steps);
            && AllowedRun(WITHOUT_HEARING_ROLLBACK, c, init, steps) && s.job.Idle? && c in s.nodes && a in s.nodes
            && s.nodes[c] == NodeConfig(1, {c, a, b}) && s.nodes[a] == NodeConfig(2, {c, a})
  {
    assert Elements([c, a, b]) == {c, a, b} && [c, a, b][..2] == [c, a];
    var join := AddMember(b, [c, a, b]);
    NothingYet(WITHOUT_HEARING_ROLLBACK, c, init);
    hide Run, AllowedRun, Enabled, Do, Settle, Elements;
    Joins(c, a, b, init, [c, a, b]);
    Starts(c, init, join);
    var s1 := Publish(c, init, [c, a, b]);
    Then(WITHOUT_HEARING_ROLLBACK, c, init, [], join, init, s1, [join]);
    Syncs(c, s1);
    var s2 := Synced(s1);
    Then(WITHOUT_HEARING_ROLLBACK, c, init, [join], TargetOk, s1, s2, [join, TargetOk]);
    Syncs(c, s2);
    var s3 := Synced(s2);
    Then(WITHOUT_HEARING_ROLLBACK, c, init, [join, TargetOk], TargetOk, s2, s3, [join, TargetOk, TargetOk]);
    assert s3.nodes == init.nodes[c := NodeConfig(1, {c, a, b})][a := NodeConfig(1, {c, a, b})];
    hide Publish, Synced;
    RollbackMissed(c, a, b, init, [join, TargetOk, TargetOk], s3);
    assert [join, TargetOk, TargetOk] + [TargetFailed, TargetFailed, TargetOk]
           == [join, TargetOk, TargetOk, TargetFailed, TargetFailed, TargetOk];
  }

  lemma RollbackMissed(c: Node, a: Node, b: Node, init: State, steps: seq<Step>, s: State)
    requires Run(c, init, steps) == s && c in s.nodes && a in s.nodes && a != c
    requires AllowedRun(WITHOUT_HEARING_ROLLBACK, c, init, steps)
    requires s.nodes[c] == NodeConfig(1, {c, a, b}) && s.nodes[a].version == 1
    requires s.job == Publishing([c, a, b], NodeConfig(0, {c, a}), NodeConfig(1, {c, a, b}), 2)
    ensures var t := Run(c, init, steps + [TargetFailed, TargetFailed, TargetOk]);
            && AllowedRun(WITHOUT_HEARING_ROLLBACK, c, init, steps + [TargetFailed, TargetFailed, TargetOk])
            && t.job.Idle? && c in t.nodes && a in t.nodes
            && t.nodes[c] == NodeConfig(1, {c, a, b}) && t.nodes[a] == NodeConfig(2, {c, a})
  {
    hide Run, AllowedRun, Enabled, Do, Settle;
    assert [c, a, b][..2] == [c, a];
    RollsBack(c, s);
    var s4 := RolledBack(s);
    MissesAndEnds(c, a, s4);
    Then(WITHOUT_HEARING_ROLLBACK, c, init, steps, TargetFailed, s, s4, steps + [TargetFailed]);
    var s5 := Do(c, s4, TargetFailed);
    Then(WITHOUT_HEARING_ROLLBACK, c, init, steps + [TargetFailed], TargetFailed, s4, s5,
         steps + [TargetFailed, TargetFailed]);
    Then(WITHOUT_HEARING_ROLLBACK, c, init, steps + [TargetFailed, TargetFailed], TargetOk, s5, Do(c, s5, TargetOk),
         steps + [TargetFailed, TargetFailed, TargetOk]);
  }


  // ------------------------------------------------------------------ exactly the three

  predicate Within(strict: Rules, loose: Rules) {
    (loose.stays ==> strict.stays) && (loose.hearsOnce ==> strict.hearsOnce) &&
    (loose.hearsRollback ==> strict.hearsRollback)
  }

  lemma {:induction false} LooserRules(strict: Rules, loose: Rules, c: Node, init: State, steps: seq<Step>)
    requires Within(strict, loose) && AllowedRun(strict, c, init, steps)
    ensures AllowedRun(loose, c, init, steps)
  {
    hide Run, Enabled;
    if steps != [] {
      LooserRules(strict, loose, c, init, steps[..|steps| - 1]);
    }
  }

  lemma DisagreementBreaks(rules: Rules, strict: Rules, c: Node, a: Node, init: State, steps: seq<Step>)
    requires Within(strict, rules) && Disagrees(strict, c, a, init, steps)
    ensures !AlwaysAgree(rules)
  {
    LooserRules(strict, rules, c, init, steps);
    hide Initial, AllowedRun, Run;
    assert !Agree(Run(c, init, steps));
  }

  /**
   Every run agrees if and only if all three things are ruled out: with any of the three allowed, even alone, some
   run makes two nodes disagree.
   */
  lemma AgreementIff(rules: Rules)
    ensures AlwaysAgree(rules) <==> rules == ALL_RULES
  {
    hide Run, Initial, AllowedRun, Agree, Disagrees;
    if rules == ALL_RULES {
      forall c, init, steps | Initial(c, init) && AllowedRun(rules, c, init, steps)
        ensures Agree(Run(c, init, steps))
      {
        AgreesAll(c, init, steps);
      }
    } else {
      var c, a, b := "c", "a", "b";
      var init := State(map[c := NodeConfig(0, {c, a}), a := NodeConfig(0, {c, a})], {}, Idle, map[]);
      assert Pair(c, a, init);
      if !rules.stays {
        RemovingItselfBreaksAgreement(c, a, b, init);
        DisagreementBreaks(rules, WITHOUT_STAYING, c, a, init, SelfRemoval(c, a, b));
      } else if !rules.hearsOnce {
        HalfFailedSyncBreaksAgreement(c, a, b, init);
        DisagreementBreaks(rules, WITHOUT_HEARING_ONCE, c, a, init, HalfFailure(c, a, b));
      } else {
        MissedRollbackBreaksAgreement(c, a, b, init);
        DisagreementBreaks(rules, WITHOUT_HEARING_ROLLBACK, c, a, init, MissedRollback(c, a, b));
      }
    }
  }

  lemma AgreesAll(c: Node, init: State, steps: seq<Step>)
    requires Initial(c, init) && AllowedRun(ALL_RULES, c, init, steps)
    ensures Agree(Run(c, init, steps))
  {
    hide Run, Initial, AllowedRun;
    var s := Run(c, init, steps);
    forall a, b | a in s.nodes && b in s.nodes && s.nodes[a].version == s.nodes[b].version >= 1
      ensures s.nodes[a].members == s.nodes[b].members
    {
      assert SoundRun(c, init, steps);
      Agreement(c, init, steps, a, b);
    }
  }
}
