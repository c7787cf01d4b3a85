/**
 What clients get back (internal/node/replication.go): reads answer what some write of the key wrote, and the newest
 acknowledged write as long as no newer one was begun. Every statement is about every run of the register.
 */
module ReadWrite {
  import opened Versions
  import opened Sequences
  import opened Register

  /** What `Get` tells its client: the data, or that there is none. */
  datatype Response = Present(data: seq<Byte>) | Absent

  /** A tombstone reads as nothing. */
  function Respond(latest: Option<Value>): Response {
    if latest.None? || latest.value.deleted then Absent else Present(latest.value.data)
  }

  /** A write replicates what its client asked for, and a read selects a newest answer. */
  ghost predicate Right(op: Op) {
    && (Allocated(op) ==>
          && !op.kind.GetOf?
          && (op.kind.PutOf? ==> op.phase.value.data == op.kind.data && !op.phase.value.deleted)
          && (op.kind.DeleteOf? ==> op.phase.value.deleted))
    && (op.phase.Selected? ==> op.kind.GetOf? && IsNewest(op.replies, op.phase.latest))
  }

  ghost predicate AllRight(s: State) {
    forall id :: id in s.ops ==> Right(s.ops[id])
  }

  lemma StepRight(cfg: Config, s: State, step: Step, id: nat)
    requires Enabled(cfg, s, step) && AllRight(s) && id in Do(cfg, s, step).ops
    ensures Right(Do(cfg, s, step).ops[id])
  {
    if step.Arrive? || step.ListHints? || step.HandOff? || step.DropHint? || step.id != id {
      hide *;
      UntouchedOps(cfg, s, step, id);
      RightOne(s, id);
    } else {
      hide MaxCounter, IsNewest, Leq, Write, AddHint, RemoveHint, Repairs, NextVersion, Answered, LookupAt;
      assert id in s.ops ==> Right(s.ops[id]);
    }
  }

  lemma RightOne(s: State, id: nat)
    requires AllRight(s) && id in s.ops
    ensures Right(s.ops[id])
  {
  }

  lemma {:induction false} RightAlways(cfg: Config, steps: seq<Step>)
    ensures AllRight(Run(cfg, steps))
  {
    if steps != [] {
      var n := |steps| - 1;
      hide Right, Enabled, Do;
      RightAlways(cfg, steps[..n]);
      var s := Run(cfg, steps[..n]);
      if Enabled(cfg, s, steps[n]) {
        forall id | id in Do(cfg, s, steps[n]).ops
          ensures Right(Do(cfg, s, steps[n]).ops[id])
        {
          StepRight(cfg, s, steps[n], id);
        }
      }
    }
  }

  /** An operation remains what its client started it as. */
  lemma OperationsAsStarted(cfg: Config, before: seq<Step>, id: nat, c: Node, k: Key, kind: Kind, after: seq<Step>)
    requires id !in Run(cfg, before).ops
    ensures var t := Run(cfg, before + [Start(id, c, k, kind)] + after);
            id in t.ops && t.ops[id].kind == kind && t.ops[id].coordinator == c && t.ops[id].key == k
  {
    RunMore(cfg, before, Start(id, c, k, kind));
    RunKeepsOp(cfg, before + [Start(id, c, k, kind)], after, id);
    hide Run;
  }

  /** What a put or delete replicates, in every run. */
  lemma WritesWhatWasAsked(cfg: Config, steps: seq<Step>, w: nat)
    requires w in Run(cfg, steps).ops && Allocated(Run(cfg, steps).ops[w])
    ensures var op := Run(cfg, steps).ops[w];
            && !op.kind.GetOf?
            && (op.kind.PutOf? ==> op.phase.value == Value(op.kind.data, op.phase.value.version, false))
            && (op.kind.DeleteOf? ==> op.phase.value.deleted)
            && Respond(Some(op.phase.value)) == (if op.kind.PutOf? then Present(op.kind.data) else Absent)
  {
    RightAlways(cfg, steps);
    hide Run;
    assert Right(Run(cfg, steps).ops[w]);
  }

  /** The write a read saw: same key, and the very value the read selected. */
  ghost predicate SawWrite(s: State, r: nat, w: nat)
    requires r in s.ops && s.ops[r].phase.Selected?
  {
    && s.ops[r].phase.latest.Some?
    && w in s.ops && Allocated(s.ops[w]) && s.ops[w].key == s.ops[r].key
    && s.ops[w].phase.value == s.ops[r].phase.latest.value
  }

  /**
   Every read answers what was asked of the one write it saw: the data of a put, nothing for a delete, and nothing
   if it saw no write at all.
   */
  lemma ReadsAnswerWrites(cfg: Config, steps: seq<Step>, r: nat)
    requires Sound(cfg) && r in Run(cfg, steps).ops && Run(cfg, steps).ops[r].phase.Selected?
    ensures var s := Run(cfg, steps); var op := s.ops[r];
            && op.kind.GetOf?
            && (op.phase.latest.None? ==> Respond(op.phase.latest) == Absent)
            && (op.phase.latest.Some? ==>
                  exists w ::
                    SawWrite(s, r, w) &&
                    Respond(op.phase.latest) == (if s.ops[w].kind.PutOf? then Present(s.ops[w].kind.data) else Absent))
  {
    var s := Run(cfg, steps);
    RightAlways(cfg, steps);
    InvAlways(cfg, steps);
    assert Right(s.ops[r]);
    hide Run;
    if s.ops[r].phase.latest.Some? {
      var w := SelectedIsGenuine(cfg, s, r);
      WritesWhatWasAsked(cfg, steps, w);
      assert SawWrite(s, r, w);
    }
  }

  lemma SelectedIsGenuine(cfg: Config, s: State, r: nat) returns (w: nat)
    requires Inv(cfg, s) && r in s.ops && Right(s.ops[r])
    requires s.ops[r].phase.Selected? && s.ops[r].phase.latest.Some?
    ensures SawWrite(s, r, w)
  {
    hide Core, FinishedCovered, Leq;
    var op := s.ops[r];
    var q :| q in op.replies && Found(op.replies[q]) == op.phase.latest;
    assert Genuine(s, op.key, op.phase.latest.value);
    w := s.issued[op.phase.latest.value.version];
  }

  /** A read that selects the version of a put answers exactly its data; of a delete, that there is none. */
  lemma SameVersionSameAnswer(cfg: Config, steps: seq<Step>, r: nat, w: nat)
    requires Sound(cfg)
    requires var s := Run(cfg, steps);
             && r in s.ops && s.ops[r].phase.Selected? && s.ops[r].phase.latest.Some?
             && w in s.ops && Allocated(s.ops[w])
             && s.ops[r].phase.latest.value.version == s.ops[w].phase.value.version
    ensures var s := Run(cfg, steps);
            s.ops[w].key == s.ops[r].key &&
            Respond(s.ops[r].phase.latest) == (if s.ops[w].kind.PutOf? then Present(s.ops[w].kind.data) else Absent)
  {
    ReadsAnswerWrites(cfg, steps, r);
    hide Run;
    var s := Run(cfg, steps);
    var v :| SawWrite(s, r, v) &&
      Respond(s.ops[r].phase.latest) == (if s.ops[v].kind.PutOf? then Present(s.ops[v].kind.data) else Absent);
    AllocationsUnique(cfg, steps, v, w);
  }

  /** No other write of the key is numbered above this one. */
  ghost predicate NoneNewer(s: State, a: nat)
    requires a in s.ops && Allocated(s.ops[a])
  {
    forall w :: w in s.ops && Allocated(s.ops[w]) && s.ops[w].key == s.ops[a].key ==>
      Leq(s.ops[w].phase.value.version, s.ops[a].phase.value.version)
  }

  /**
   Read your writes. If a write returned success before a read of its key starts, and up to the end of the run no
   write of the key is numbered above it, the read answers exactly what was asked of that write.
   */
  lemma LastWriteIsRead(cfg: Config, before: seq<Step>, b: Step, after: seq<Step>, a: nat)
    requires Sound(cfg) && b.Start? && b.kind.GetOf? && Enabled(cfg, Run(cfg, before), b)
    requires var s := Run(cfg, before);
             a in s.ops && s.ops[a].phase.Returned? && s.ops[a].phase.ok && s.ops[a].key == b.key
    ensures var s, t := Run(cfg, before), Run(cfg, before + [b] + after);
            && b.id in t.ops && a in t.ops && Allocated(t.ops[a]) && t.ops[a].kind == s.ops[a].kind
            && (t.ops[b.id].phase.Selected? && NoneNewer(t, a) ==>
                  Respond(t.ops[b.id].phase.latest) ==
                    (if s.ops[a].kind.PutOf? then Present(s.ops[a].kind.data) else Absent))
  {
    assert b.id !in Run(cfg, before).ops && b == Start(b.id, b.coordinator, b.key, b.kind);
    hide Do, Enabled, Leq, Sound;
    var s, t := Run(cfg, before), Run(cfg, before + [b] + after);
    RealTimeOrder(cfg, before, b, after, a);
    assert before + [b] + after == before + ([b] + after);
    RunKeepsOp(cfg, before, [b] + after, a);
    if t.ops[b.id].phase.Selected? && NoneNewer(t, a) {
      ReadsAnswerWrites(cfg, before + [b] + after, b.id);
      var w :| SawWrite(t, b.id, w) &&
        Respond(t.ops[b.id].phase.latest) == (if t.ops[w].kind.PutOf? then Present(t.ops[w].kind.data) else Absent);
      OperationsAsStarted(cfg, before, b.id, b.coordinator, b.key, b.kind, after);
      NewestIsLast(cfg, before + [b] + after, a, w);
    }
  }

  lemma NewestIsLast(cfg: Config, steps: seq<Step>, a: nat, w: nat)
    requires Sound(cfg)
    requires var t := Run(cfg, steps);
             && a in t.ops && w in t.ops && Allocated(t.ops[a]) && Allocated(t.ops[w])
             && Leq(t.ops[w].phase.value.version, t.ops[a].phase.value.version)
             && Leq(t.ops[a].phase.value.version, t.ops[w].phase.value.version)
    ensures a == w
  {
    hide Run, Leq;
    var t := Run(cfg, steps);
    EqualVersions(t.ops[a].phase.value.version, t.ops[w].phase.value.version);
    AllocationsUnique(cfg, steps, a, w);
  }

  // ------------------------------------------------------------------ quorums

  /**
   Once every owner has been heard the call is decided, one way or the other: without a read quorum of answers it is
   refused, with one a write is given a version and a read selects a newest copy. Before that nothing is decided.
   */
  lemma DecidesOnQuorum(cfg: Config, s: State, id: nat)
    requires id in s.ops && s.ops[id].phase.Reading?
    ensures var op := s.ops[id];
            var heard := forall r :: r in cfg.owners(op.key) ==> r in op.replies;
            var quorum := |Answered(op.replies)| >= cfg.readQuorum;
            && (Enabled(cfg, s, Refuse(id)) <==> heard && !quorum)
            && (Enabled(cfg, s, Allocate(id)) <==> heard && quorum && !op.kind.GetOf?)
            && ((exists latest :: Enabled(cfg, s, Select(id, latest))) <==> heard && quorum && op.kind.GetOf?)
  {
    var latest := SomeNewest(s.ops[id].replies);
    hide IsNewest, Answered;
    if s.ops[id].kind.GetOf? && Enabled(cfg, s, Select(id, latest)) {
      assert exists l :: Enabled(cfg, s, Select(id, l));
    }
  }

  /** Among finitely many answers there is a newest. */
  lemma {:induction false} SomeNewest(replies: map<Node, Reply>) returns (latest: Option<Value>)
    ensures IsNewest(replies, latest)
    decreases |replies|
  {
    if replies.Keys == {} {
      latest := None;
    } else {
      var r :| r in replies;
      var rest := replies - {r};
      assert |rest| < |replies| by {
        assert rest.Keys == replies.Keys - {r};
        assert |rest.Keys| == |rest| && |replies.Keys| == |replies|;
      }
      latest := SomeNewest(rest);
      var v := Found(replies[r]);
      VersionsTotallyOrdered();
      hide Leq;
      assert forall q :: q in replies <==> q in rest || q == r;
      if v.Some? && (latest.None? || !Leq(v.value.version, latest.value.version)) {
        latest := v;
      }
    }
  }

  /** A round that returns succeeds exactly with a write quorum of acknowledgements, and only then is acknowledged. */
  lemma ReturnsOnQuorum(cfg: Config, s: State, id: nat)
    requires Enabled(cfg, s, Return(id))
    ensures var op, t := s.ops[id], Do(cfg, s, Return(id));
            && t.ops[id].phase == Returned(op.phase.value, |op.phase.acks| >= cfg.writeQuorum)
            && t.acked == s.acked +
                 (if |op.phase.acks| >= cfg.writeQuorum then {(op.key, op.phase.value.version)} else {})
            && t.held == s.held && t.hints == s.hints
  {
  }

  /** Each owner reports once to a round, and a call is over once it is refused. */
  lemma ReportsOnce(cfg: Config, s: State, id: nat, r: Node)
    ensures Enabled(cfg, s, WriteAcked(id, r)) <==>
              && id in s.ops && s.ops[id].phase.Writing? && r in cfg.owners(s.ops[id].key)
              && r !in s.ops[id].phase.acks + s.ops[id].phase.errors
    ensures Enabled(cfg, s, WriteFailed(id, r)) <==> Enabled(cfg, s, WriteAcked(id, r))
    ensures Enabled(cfg, s, Refuse(id)) ==> Do(cfg, s, Refuse(id)).ops[id].phase == Refused
  {
  }

  // ------------------------------------------------------------------ hand-off

  /**
   Any hint can be handed off: a flush lists exactly the hints of its node, and when the hand-off is acknowledged
   the replica holds the hinted version, and dropping the hint removes it and no other.
   */
  lemma HintIsHandedOff(cfg: Config, s: State, c: Node, r: Node, k: Key)
    requires (c, r, k) in s.hints
    ensures var v, t := s.hints[(c, r, k)], Do(cfg, s, ListHints(c));
            && t == s.(listed := t.listed)
            && (forall d, q, l, u :: (d, q, l, u) in t.listed <==>
                 (d, q, l, u) in s.listed || (d == c && (d, q, l) in s.hints && s.hints[(d, q, l)] == u))
            && Enabled(cfg, t, HandOff(c, r, k, v, true))
            && var u := Do(cfg, t, HandOff(c, r, k, v, true));
               && Holds(u, r, k, v.version) && u.hints == s.hints
               && Enabled(cfg, u, DropHint(c, r, k, v.version))
               && var w := Do(cfg, u, DropHint(c, r, k, v.version));
                  && w.hints == s.hints - {(c, r, k)} && w.held == u.held
                  && w.flushed == s.flushed - {(c, r, k, v.version)}
  {
    hide Leq, Write, IsNewest, MaxCounter, AddHint, Repairs, NextVersion, Begin, ValueFor, CanReport;
    var v, t := s.hints[(c, r, k)], Do(cfg, s, ListHints(c));
    FlushLists(cfg, s, c);
    WriteKeeps(t, Do(cfg, t, HandOff(c, r, k, v, true)), r, k, v);
  }

  lemma FlushLists(cfg: Config, s: State, c: Node)
    ensures var t := Do(cfg, s, ListHints(c));
            && t == s.(listed := t.listed)
            && forall d, q, l, u :: (d, q, l, u) in t.listed <==>
                 (d, q, l, u) in s.listed || (d == c && (d, q, l) in s.hints && s.hints[(d, q, l)] == u)
  {
    hide Leq, Write, IsNewest, MaxCounter, AddHint, Repairs, NextVersion, Begin, ValueFor, CanReport;
    var t := Do(cfg, s, ListHints(c));
    forall d, q, l, u
      ensures (d, q, l, u) in t.listed <==>
                (d, q, l, u) in s.listed || (d == c && (d, q, l) in s.hints && s.hints[(d, q, l)] == u)
    {
      if d == c && (d, q, l) in s.hints && s.hints[(d, q, l)] == u {
        assert (d, q, l).0 == c;
      }
    }
  }

  // ------------------------------------------------------------------ read repair

  /**
   After a read every replica that answered holds at least what the read selected, or is being sent exactly that;
   a replica that was not behind is sent nothing.
   */
  lemma LaggingIsRepaired(cfg: Config, s: State, id: nat, latest: Value, r: Node)
    requires Inv(cfg, s) && Enabled(cfg, s, Select(id, Some(latest)))
    requires r in s.ops[id].replies && s.ops[id].replies[r].Answer?
    ensures var t, had := Do(cfg, s, Select(id, Some(latest))), s.ops[id].replies[r].value;
            if had.None? || CompareVersion(had.value.version, latest.version) < 0
            then (r, s.ops[id].key, latest) in t.wire
            else (r, s.ops[id].key, latest) in t.wire ==> (r, s.ops[id].key, latest) in s.wire
  {
    hide MaxCounter, IsNewest, NextVersion, Inv;
    var had := s.ops[id].replies[r].value;
    if had.Some? {
      CompareVersionSeparates(had.value.version, latest.version);
    }
  }

  /** Once the repair arrives the replica holds at least that version. */
  lemma RepairArrives(cfg: Config, s: State, r: Node, k: Key, v: Value)
    requires Enabled(cfg, s, Arrive(r, k, v))
    ensures Holds(Do(cfg, s, Arrive(r, k, v)), r, k, v.version)
  {
    WriteKeeps(s, Do(cfg, s, Arrive(r, k, v)), r, k, v);
  }

  // ------------------------------------------------------------------ requests that failed

  lemma WireGrows(cfg: Config, s: State, step: Step)
    requires Enabled(cfg, s, step)
    ensures s.wire <= Do(cfg, s, step).wire
  {
    hide MaxCounter, IsNewest, Leq, Write, AddHint, RemoveHint, Repairs, NextVersion, Begin, LookupAt, ValueFor;
  }

  lemma {:induction false} WireStays(cfg: Config, before: seq<Step>, after: seq<Step>)
    ensures Run(cfg, before).wire <= Run(cfg, before + after).wire
  {
    hide Do, Enabled;
    if after == [] {
      assert before + after == before;
    } else {
      var n := |after| - 1;
      WireStays(cfg, before, after[..n]);
      assert before + after == before + after[..n] + [after[n]];
      RunMore(cfg, before + after[..n], after[n]);
      hide Run;
      var t := Run(cfg, before + after[..n]);
      if Enabled(cfg, t, after[n]) {
        WireGrows(cfg, t, after[n]);
      }
    }
  }

  /**
   A write request that its coordinator saw fail leaves a hint at least that new, and may still reach its replica
   after anything else that happens; the replica then holds at least that version.
   */
  lemma FailedWriteMayArrive(cfg: Config, before: seq<Step>, id: nat, r: Node, after: seq<Step>)
    requires CanReport(cfg, Run(cfg, before), id, r)
    ensures var op := Run(cfg, before).ops[id];
            var s, t := Run(cfg, before + [WriteFailed(id, r)]), Run(cfg, before + [WriteFailed(id, r)] + after);
            && (op.coordinator, r, op.key) in s.hints
            && Leq(op.phase.value.version, s.hints[(op.coordinator, r, op.key)].version)
            && Enabled(cfg, t, Arrive(r, op.key, op.phase.value))
            && Holds(Do(cfg, t, Arrive(r, op.key, op.phase.value)), r, op.key, op.phase.value.version)
  {
    RunMore(cfg, before, WriteFailed(id, r));
    WireStays(cfg, before + [WriteFailed(id, r)], after);
    FailureLeavesHint(cfg, Run(cfg, before), id, r);
    hide Run, Do, Enabled, Leq, Holds;
    var op, t := Run(cfg, before).ops[id], Run(cfg, before + [WriteFailed(id, r)] + after);
    OnWireMayArrive(cfg, t, r, op.key, op.phase.value);
  }

  lemma FailureLeavesHint(cfg: Config, s: State, id: nat, r: Node)
    requires CanReport(cfg, s, id, r)
    ensures var op, t := s.ops[id], Do(cfg, s, WriteFailed(id, r));
            && Enabled(cfg, s, WriteFailed(id, r)) && (r, op.key, op.phase.value) in t.wire
            && (op.coordinator, r, op.key) in t.hints
            && Leq(op.phase.value.version, t.hints[(op.coordinator, r, op.key)].version)
  {
    VersionsTotallyOrdered();
    hide Leq;
  }

  lemma OnWireMayArrive(cfg: Config, s: State, r: Node, k: Key, v: Value)
    requires (r, k, v) in s.wire
    ensures Enabled(cfg, s, Arrive(r, k, v)) && Holds(Do(cfg, s, Arrive(r, k, v)), r, k, v.version)
  {
    RepairArrives(cfg, s, r, k, v);
  }
}
