/**
 Overlapping quorums are exactly what real-time order needs (internal/node/node.go sets 3 copies, 2 and 2).
 */
module QuorumOverlap {
  import opened Versions
  import opened Sequences
  import opened Register

  /** What real-time order promises of one acknowledged write and one later operation, in one run. */
  ghost predicate InOrder(cfg: Config, before: seq<Step>, b: Step, after: seq<Step>, a: nat) {
    var s, t := Run(cfg, before), Run(cfg, before + [b] + after);
    b.Start? && Enabled(cfg, s, b) && a in s.ops && s.ops[a].phase.Returned? && s.ops[a].phase.ok &&
    s.ops[a].key == b.key ==>
      && b.id in t.ops
      && (Allocated(t.ops[b.id]) ==> s.ops[a].phase.value.version.counter < t.ops[b.id].phase.value.version.counter)
      && (t.ops[b.id].phase.Selected? ==>
            t.ops[b.id].phase.latest.Some? && Leq(s.ops[a].phase.value.version, t.ops[b.id].phase.latest.value.version))
  }

  ghost predicate AlwaysInOrder(cfg: Config) {
    forall before, b, after, a :: InOrder(cfg, before, b, after, a)
  }

  ghost predicate Overlapping(cfg: Config) {
    forall k :: cfg.writeQuorum + cfg.readQuorum > |cfg.owners(k)|
  }

  /** The guarantee holds of every run if and only if any read quorum meets any write quorum. */
  lemma InOrderIffOverlapping(cfg: Config)
    requires forall k :: Distinct(cfg.owners(k))
    ensures AlwaysInOrder(cfg) <==> Overlapping(cfg)
  {
    hide Run, Do, Enabled, InOrder;
    if Overlapping(cfg) {
      forall before, b, after, a
        ensures InOrder(cfg, before, b, after, a)
      {
        OverlapGivesOrder(cfg, before, b, after, a);
      }
    } else {
      var k :| cfg.writeQuorum + cfg.readQuorum <= |cfg.owners(k)|;
      StaleRead(cfg, k);
    }
  }

  lemma OverlapGivesOrder(cfg: Config, before: seq<Step>, b: Step, after: seq<Step>, a: nat)
    requires Sound(cfg)
    ensures InOrder(cfg, before, b, after, a)
  {
    hide Run, Do, Enabled, Leq, Allocated, Sound;
    var s := Run(cfg, before);
    if b.Start? && Enabled(cfg, s, b) && a in s.ops && s.ops[a].phase.Returned? && s.ops[a].phase.ok &&
      s.ops[a].key == b.key {
      RealTimeOrder(cfg, before, b, after, a);
    }
  }

  // ------------------------------------------------------------------ a stale read without overlap

  function UpTo(f: nat -> Step, n: nat): seq<Step> {
    if n == 0 then [] else UpTo(f, n - 1) + [f(n - 1)]
  }

  /** The first copies take the write; the others miss it for good. */
  function Replicate(cfg: Config, k: Key): nat -> Step {
    (i: nat) => if i >= |cfg.owners(k)| then Return(0)
         else if i < cfg.writeQuorum then WriteAcked(0, cfg.owners(k)[i]) else WriteFailed(0, cfg.owners(k)[i])
  }

  function ReadAll(cfg: Config, k: Key): nat -> Step {
    (i: nat) => if i >= |cfg.owners(k)| then Return(0) else ReadOk(0, cfg.owners(k)[i])
  }

  /** The copies that took the write do not answer; the others do. */
  function ReadOthers(cfg: Config, k: Key): nat -> Step {
    (i: nat) => if i >= |cfg.owners(k)| then Return(0)
         else if i < cfg.writeQuorum then ReadFailed(1, cfg.owners(k)[i]) else ReadOk(1, cfg.owners(k)[i])
  }

  function PutSteps(cfg: Config, k: Key): seq<Step> {
    var n := |cfg.owners(k)|;
    [Start(0, "c", k, PutOf([]))] + UpTo(ReadAll(cfg, k), n) + [Allocate(0)] + UpTo(Replicate(cfg, k), n) + [Return(0)]
  }

  function GetSteps(cfg: Config, k: Key): seq<Step> {
    UpTo(ReadOthers(cfg, k), |cfg.owners(k)|) + [Select(1, None)]
  }

  lemma OneMore(cfg: Config, before: seq<Step>, f: nat -> Step, n: nat)
    ensures var s := Run(cfg, before + UpTo(f, n));
            Run(cfg, before + UpTo(f, n + 1)) == if Enabled(cfg, s, f(n)) then Do(cfg, s, f(n)) else s
  {
    hide Run, Do, Enabled;
    assert before + UpTo(f, n + 1) == before + UpTo(f, n) + [f(n)];
    RunMore(cfg, before + UpTo(f, n), f(n));
  }

  /** One more element of a list without repeats. */
  lemma NextElement(owners: seq<Node>, n: nat)
    requires n < |owners| && Distinct(owners)
    ensures owners[n] !in Elements(owners[..n]) && Elements(owners[..n + 1]) == Elements(owners[..n]) + {owners[n]}
  {
    assert owners[..n + 1] == owners[..n] + [owners[n]];
  }

  /** The put while it reads: nothing stored anywhere, `n` empty answers. */
  ghost predicate ReadingPut(cfg: Config, k: Key, s: State, n: nat)
    requires n <= |cfg.owners(k)|
  {
    && s.held == map[] && s.ops.Keys == {0}
    && var op := s.ops[0];
       && op.kind == PutOf([]) && op.key == k && op.phase == Reading && op.coordinator == "c"
       && op.replies.Keys == Elements(cfg.owners(k)[..n])
       && forall r :: r in op.replies ==> op.replies[r] == Answer(None)
  }

  lemma PutStarts(cfg: Config, k: Key)
    ensures ReadingPut(cfg, k, Run(cfg, [Start(0, "c", k, PutOf([]))]), 0)
  {
    assert [Start(0, "c", k, PutOf([]))] == [] + [Start(0, "c", k, PutOf([]))];
    RunMore(cfg, [], Start(0, "c", k, PutOf([])));
    assert Run(cfg, []) == INITIAL;
    hide Run;
  }

  lemma PutReadsOne(cfg: Config, k: Key, s: State, n: nat)
    requires Distinct(cfg.owners(k)) && n < |cfg.owners(k)| && ReadingPut(cfg, k, s, n)
    ensures var step := ReadAll(cfg, k)(n);
            Enabled(cfg, s, step) && ReadingPut(cfg, k, Do(cfg, s, step), n + 1)
  {
    NextElement(cfg.owners(k), n);
  }

  lemma {:induction false} PutReads(cfg: Config, k: Key, n: nat)
    requires Distinct(cfg.owners(k)) && n <= |cfg.owners(k)|
    ensures ReadingPut(cfg, k, Run(cfg, [Start(0, "c", k, PutOf([]))] + UpTo(ReadAll(cfg, k), n)), n)
  {
    hide Do, Enabled, ReadingPut, Run;
    var start := [Start(0, "c", k, PutOf([]))];
    if n == 0 {
      assert start + UpTo(ReadAll(cfg, k), 0) == start;
      PutStarts(cfg, k);
    } else {
      PutReads(cfg, k, n - 1);
      OneMore(cfg, start, ReadAll(cfg, k), n - 1);
      PutReadsOne(cfg, k, Run(cfg, start + UpTo(ReadAll(cfg, k), n - 1)), n - 1);
    }
  }

  /** Only the first copies hold anything. */
  ghost predicate OnlyFirst(cfg: Config, k: Key, held: map<(Node, Key), Value>) {
    forall r, l :: (r, l) in held ==> IsFirst(cfg, k, r)
  }

  ghost predicate IsFirst(cfg: Config, k: Key, r: Node) {
    exists i :: 0 <= i < cfg.writeQuorum && i < |cfg.owners(k)| && cfg.owners(k)[i] == r
  }

  lemma FirstWrites(cfg: Config, k: Key, held: map<(Node, Key), Value>, r: Node, v: Value)
    requires OnlyFirst(cfg, k, held) && IsFirst(cfg, k, r)
    ensures OnlyFirst(cfg, k, Write(held, r, k, v))
  {
    hide IsFirst, Leq;
  }

  /** The put while it replicates: the first copies hold something, nobody else does. */
  ghost predicate WritingPut(cfg: Config, k: Key, s: State, n: nat)
    requires n <= |cfg.owners(k)|
  {
    && OnlyFirst(cfg, k, s.held)
    && s.ops.Keys == {0}
    && var op := s.ops[0];
       && op.key == k && op.phase.Writing?
       && Told(cfg.owners(k), cfg.writeQuorum, n, op.phase.acks, op.phase.errors)
  }

  /** The first `n` copies have reported, the first `quorum` of them well. */
  predicate Told(owners: seq<Node>, quorum: nat, n: nat, acks: set<Node>, errors: set<Node>)
    requires n <= |owners|
  {
    acks == Elements(owners[..Min(n, quorum)]) && acks + errors == Elements(owners[..n])
  }

  lemma TellOne(owners: seq<Node>, quorum: nat, n: nat, acks: set<Node>, errors: set<Node>)
    requires Distinct(owners) && n < |owners| && Told(owners, quorum, n, acks, errors)
    ensures owners[n] in owners && owners[n] !in acks && owners[n] !in errors
    ensures n < quorum ==> Told(owners, quorum, n + 1, acks + {owners[n]}, errors)
    ensures n >= quorum ==> Told(owners, quorum, n + 1, acks, errors + {owners[n]})
  {
    NextElement(owners, n);
    hide Distinct, Elements;
  }

  lemma PutAllocates(cfg: Config, k: Key, s: State)
    requires Distinct(cfg.owners(k)) && ReadingPut(cfg, k, s, |cfg.owners(k)|) && cfg.readQuorum <= |cfg.owners(k)|
    ensures Enabled(cfg, s, Allocate(0)) && WritingPut(cfg, k, Do(cfg, s, Allocate(0)), 0)
  {
    hide NextVersion;
    var owners := cfg.owners(k);
    assert owners[..|owners|] == owners && owners[..0] == [];
    DistinctSize(owners);
    assert Answered(s.ops[0].replies) == Elements(owners);
  }

  lemma PutWrites(cfg: Config, k: Key, s: State, n: nat)
    requires Distinct(cfg.owners(k)) && n < |cfg.owners(k)| && WritingPut(cfg, k, s, n)
    ensures var step := Replicate(cfg, k)(n);
            Enabled(cfg, s, step) && WritingPut(cfg, k, Do(cfg, s, step), n + 1)
  {
    hide Do, Enabled, Write, OnlyFirst, IsFirst, Told, Distinct;
    var r := cfg.owners(k)[n];
    TellOne(cfg.owners(k), cfg.writeQuorum, n, s.ops[0].phase.acks, s.ops[0].phase.errors);
    ReportOne(cfg, s, 0, r, n < cfg.writeQuorum);
    if n < cfg.writeQuorum {
      FirstIs(cfg, k, n);
      FirstWrites(cfg, k, s.held, r, s.ops[0].phase.value);
    }
  }

  lemma FirstIs(cfg: Config, k: Key, n: nat)
    requires n < cfg.writeQuorum && n < |cfg.owners(k)|
    ensures IsFirst(cfg, k, cfg.owners(k)[n])
  {
  }

  lemma OthersHoldNothing(cfg: Config, k: Key, held: map<(Node, Key), Value>, n: nat)
    requires Distinct(cfg.owners(k)) && OnlyFirst(cfg, k, held) && cfg.writeQuorum <= n < |cfg.owners(k)|
    ensures (cfg.owners(k)[n], k) !in held
  {
  }

  lemma {:induction false} PutReplicates(cfg: Config, k: Key, before: seq<Step>, n: nat)
    requires Distinct(cfg.owners(k)) && n <= |cfg.owners(k)| && WritingPut(cfg, k, Run(cfg, before), 0)
    ensures WritingPut(cfg, k, Run(cfg, before + UpTo(Replicate(cfg, k), n)), n)
  {
    hide Do, Enabled, WritingPut, Run;
    if n == 0 {
      assert before + UpTo(Replicate(cfg, k), 0) == before;
    } else {
      PutReplicates(cfg, k, before, n - 1);
      OneMore(cfg, before, Replicate(cfg, k), n - 1);
      PutWrites(cfg, k, Run(cfg, before + UpTo(Replicate(cfg, k), n - 1)), n - 1);
    }
  }

  /** Only the first copies hold anything, and the put returned success. */
  ghost predicate PutDone(cfg: Config, k: Key, s: State) {
    && OnlyFirst(cfg, k, s.held)
    && s.ops.Keys == {0} && s.ops[0].key == k && s.ops[0].phase.Returned? && s.ops[0].phase.ok
  }

  lemma PutReturns(cfg: Config, k: Key, s: State)
    requires Distinct(cfg.owners(k)) && WritingPut(cfg, k, s, |cfg.owners(k)|) && cfg.writeQuorum <= |cfg.owners(k)|
    ensures Enabled(cfg, s, Return(0)) && PutDone(cfg, k, Do(cfg, s, Return(0)))
  {
    var owners := cfg.owners(k);
    assert owners[..|owners|] == owners;
    DistinctSize(owners[..cfg.writeQuorum]);
  }

  lemma PutSucceeds(cfg: Config, k: Key)
    requires Distinct(cfg.owners(k)) && cfg.writeQuorum + cfg.readQuorum <= |cfg.owners(k)|
    ensures PutDone(cfg, k, Run(cfg, PutSteps(cfg, k)))
  {
    hide Run, Do, Enabled, ReadingPut, WritingPut, PutDone;
    var n := |cfg.owners(k)|;
    var asked := [Start(0, "c", k, PutOf([]))] + UpTo(ReadAll(cfg, k), n);
    PutReads(cfg, k, n);
    PutAllocates(cfg, k, Run(cfg, asked));
    RunMore(cfg, asked, Allocate(0));
    var told := asked + [Allocate(0)] + UpTo(Replicate(cfg, k), n);
    PutReplicates(cfg, k, asked + [Allocate(0)], n);
    PutReturns(cfg, k, Run(cfg, told));
    RunMore(cfg, told, Return(0));
  }

  /** The later get: every answer so far is empty. */
  ghost predicate ReadingGet(cfg: Config, k: Key, s: State, n: nat)
    requires n <= |cfg.owners(k)|
  {
    && OnlyFirst(cfg, k, s.held)
    && 1 in s.ops
    && var op := s.ops[1];
       && op.kind == GetOf && op.key == k && op.phase == Reading &&
          Replied(cfg.owners(k), cfg.writeQuorum, n, op.replies)
  }

  /** The first `n` copies have been asked; the first `quorum` of them did not answer, the others hold nothing. */
  predicate Replied(owners: seq<Node>, quorum: nat, n: nat, replies: map<Node, Reply>)
    requires n <= |owners|
  {
    && replies.Keys == Elements(owners[..n])
    && forall i :: 0 <= i < n ==> replies[owners[i]] == if i < quorum then NoReply else Answer(None)
  }

  lemma ReplyOne(owners: seq<Node>, quorum: nat, n: nat, replies: map<Node, Reply>)
    requires Distinct(owners) && n < |owners| && Replied(owners, quorum, n, replies)
    ensures owners[n] in owners && owners[n] !in replies
    ensures Replied(owners, quorum, n + 1, replies[owners[n] := if n < quorum then NoReply else Answer(None)])
  {
    NextElement(owners, n);
  }

  lemma GetStarts(cfg: Config, k: Key, s: State)
    requires PutDone(cfg, k, s)
    ensures Enabled(cfg, s, Start(1, "c", k, GetOf)) && ReadingGet(cfg, k, Do(cfg, s, Start(1, "c", k, GetOf)), 0)
  {
  }

  lemma GetReadsOne(cfg: Config, k: Key, s: State, n: nat)
    requires Distinct(cfg.owners(k)) && n < |cfg.owners(k)| && ReadingGet(cfg, k, s, n)
    ensures var step := ReadOthers(cfg, k)(n);
            Enabled(cfg, s, step) && ReadingGet(cfg, k, Do(cfg, s, step), n + 1)
  {
    hide OnlyFirst, Replied, Distinct, Elements;
    ReplyOne(cfg.owners(k), cfg.writeQuorum, n, s.ops[1].replies);
    if n >= cfg.writeQuorum {
      OthersHoldNothing(cfg, k, s.held, n);
    }
  }

  lemma {:induction false} GetReads(cfg: Config, k: Key, before: seq<Step>, n: nat)
    requires Distinct(cfg.owners(k)) && n <= |cfg.owners(k)| && ReadingGet(cfg, k, Run(cfg, before), 0)
    ensures ReadingGet(cfg, k, Run(cfg, before + UpTo(ReadOthers(cfg, k), n)), n)
  {
    hide Do, Enabled, ReadingGet, Run;
    if n == 0 {
      assert before + UpTo(ReadOthers(cfg, k), 0) == before;
    } else {
      GetReads(cfg, k, before, n - 1);
      OneMore(cfg, before, ReadOthers(cfg, k), n - 1);
      GetReadsOne(cfg, k, Run(cfg, before + UpTo(ReadOthers(cfg, k), n - 1)), n - 1);
    }
  }

  lemma GetFindsNothing(cfg: Config, k: Key, s: State)
    requires Distinct(cfg.owners(k)) && ReadingGet(cfg, k, s, |cfg.owners(k)|)
    requires cfg.writeQuorum + cfg.readQuorum <= |cfg.owners(k)|
    ensures Enabled(cfg, s, Select(1, None)) && 1 in Do(cfg, s, Select(1, None)).ops
    ensures Do(cfg, s, Select(1, None)).ops[1].phase == Selected(None)
  {
    var owners, w := cfg.owners(k), cfg.writeQuorum;
    assert owners[..|owners|] == owners;
    DistinctSize(owners[w..]);
    var replies := s.ops[1].replies;
    forall r | r in owners[w..]
      ensures r in replies && replies[r] == Answer(None)
    {
      var j :| 0 <= j < |owners[w..]| && owners[w..][j] == r;
      assert owners[w + j] == r;
    }
    SubsetSize(Elements(owners[w..]), Answered(replies));
    forall r | r in replies
      ensures Found(replies[r]) == None
    {
      var i :| 0 <= i < |owners| && owners[i] == r;
    }
  }

  /** Without overlap a read that starts after an acknowledged write can find nothing at all. */
  lemma StaleRead(cfg: Config, k: Key)
    requires Distinct(cfg.owners(k)) && cfg.writeQuorum + cfg.readQuorum <= |cfg.owners(k)|
    ensures !InOrder(cfg, PutSteps(cfg, k), Start(1, "c", k, GetOf), GetSteps(cfg, k), 0)
  {
    hide Run, Do, Enabled, ReadingGet, UpTo;
    var put, get := PutSteps(cfg, k), Start(1, "c", k, GetOf);
    PutSucceeds(cfg, k);
    GetStarts(cfg, k, Run(cfg, put));
    RunMore(cfg, put, get);
    var n := |cfg.owners(k)|;
    var asked := put + [get] + UpTo(ReadOthers(cfg, k), n);
    GetReads(cfg, k, put + [get], n);
    GetFindsNothing(cfg, k, Run(cfg, asked));
    RunMore(cfg, asked, Select(1, None));
    assert put + [get] + GetSteps(cfg, k) == asked + [Select(1, None)];
  }
}
