/**
 Nodes that restart (`New`, internal/node/node.go), on top of the replicated register.

 A node comes back with its store, which is durable, and with a counter read off that store. Its hints and the
 operations it was coordinating are gone; requests it had sent may still arrive.
 */
module Restarts {
  import opened Versions
  import opened Sequences
  import opened Register

  datatype Event = Act(step: Step) | Restart(node: Node)

  /** The largest of finitely many numbers, zero for none. */
  ghost function Largest(ns: set<nat>): (m: nat)
    ensures forall n :: n in ns ==> n <= m
    ensures ns != {} ==> m in ns
  {
    if ns == {} then 0
    else
      var n :| n in ns;
      var rest := Largest(ns - {n});
      assert ns == ns - {n} + {n};
      if ns == {n} then n else Max(n, rest)
  }

  /** `MaxVersionCounter`: the largest counter in the node's store. */
  ghost function LocalMax(s: State, c: Node): nat {
    Largest(set rk | rk in s.held && rk.0 == c :: s.held[rk].version.counter)
  }

  /** An operation whose coordinator is gone: it sends nothing more, and its client gets no success. */
  function Stop(op: Op): Op {
    match op.phase
    case Reading => op.(phase := Refused)
    case Writing(value, _, _) => op.(phase := Returned(value, false))
    case _ => op
  }

  function Stopped(ops: map<nat, Op>, c: Node): map<nat, Op> {
    map id | id in ops :: if ops[id].coordinator == c then Stop(ops[id]) else ops[id]
  }

  /** Write requests of the node's unfinished rounds that may still arrive. */
  function Sent(cfg: Config, ops: map<nat, Op>, c: Node): set<(Node, Key, Value)> {
    set id, r | id in ops && ops[id].coordinator == c && ops[id].phase.Writing? && r in cfg.owners(ops[id].key)
      :: (r, ops[id].key, ops[id].phase.value)
  }

  /** The state after node `c` has restarted. */
  ghost function Restarted(cfg: Config, s: State, c: Node): State {
    s.(counters := s.counters[c := LocalMax(s, c)],
       hints := (map h | h in s.hints && h.0 != c :: s.hints[h]),
       listed := (set h | h in s.listed && h.0 != c),
       flushed := (set h | h in s.flushed && h.0 != c),
       wire := s.wire + Sent(cfg, s.ops, c),
       ops := Stopped(s.ops, c))
  }

  /**
   What a restart leaves: none of the node's operations under way and no hint of its own, its counter read off its
   store, and everything else as it was, except that its unfinished writes may still arrive.
   */
  lemma RestartedMeans(cfg: Config, s: State, c: Node)
    ensures var t := Restarted(cfg, s, c);
            && t.held == s.held && t.acked == s.acked && t.issued == s.issued && t.ops.Keys == s.ops.Keys
            && (forall id :: id in s.ops && s.ops[id].coordinator == c ==>
                  !t.ops[id].phase.Reading? && !t.ops[id].phase.Writing? &&
                  (t.ops[id].phase.Returned? && t.ops[id].phase.ok ==> t.ops[id] == s.ops[id]))
            && (forall id :: id in s.ops && s.ops[id].coordinator != c ==> t.ops[id] == s.ops[id])
            && (forall h :: h in t.hints <==> h in s.hints && h.0 != c)
            && (forall h :: h in t.hints ==> t.hints[h] == s.hints[h])
            && (forall h :: h in t.listed <==> h in s.listed && h.0 != c)
            && (forall h :: h in t.flushed <==> h in s.flushed && h.0 != c)
            && Counter(t, c) == LocalMax(s, c) && (forall d :: d != c ==> Counter(t, d) == Counter(s, d))
            && s.wire <= t.wire
            && (forall m :: m in t.wire <==> m in s.wire || UnfinishedWrite(cfg, s, c, m))
  {
    hide LocalMax;
  }

  /** A write request of a round that this node is coordinating. */
  ghost predicate UnfinishedWrite(cfg: Config, s: State, c: Node, m: (Node, Key, Value)) {
    exists id :: id in s.ops && s.ops[id].coordinator == c && s.ops[id].phase.Writing? && s.ops[id].key == m.1 &&
                 m.0 in cfg.owners(m.1) && s.ops[id].phase.value == m.2
  }

  ghost function Next(cfg: Config, s: State, e: Event): State {
    match e
    case Act(step) => if Enabled(cfg, s, step) then Do(cfg, s, step) else s
    case Restart(c) => Restarted(cfg, s, c)
  }

  /** The state after these events, starting from `s`. */
  ghost function After(cfg: Config, s: State, events: seq<Event>): State {
    if events == [] then s else Next(cfg, After(cfg, s, events[..|events| - 1]), events[|events| - 1])
  }

  lemma AfterOne(cfg: Config, s: State, events: seq<Event>, e: Event)
    ensures After(cfg, s, events + [e]) == Next(cfg, After(cfg, s, events), e)
  {
    assert (events + [e])[..|events|] == events;
  }

  lemma {:induction false} AfterBoth(cfg: Config, s: State, a: seq<Event>, b: seq<Event>)
    ensures After(cfg, s, a + b) == After(cfg, After(cfg, s, a), b)
  {
    hide Next;
    if b == [] {
      assert a + b == a;
    } else {
      var n := |b| - 1;
      AfterBoth(cfg, s, a, b[..n]);
      assert a + b == a + b[..n] + [b[n]];
      AfterOne(cfg, s, a + b[..n], b[n]);
    }
  }

  // ------------------------------------------------------------------ real-time order survives

  /** A restart keeps the history of every operation, and its value or result once it has one. */
  lemma RestartKeepsOp(cfg: Config, s: State, c: Node, id: nat)
    requires id in s.ops
    ensures id in Restarted(cfg, s, c).ops && OpKept(s.ops[id], Restarted(cfg, s, c).ops[id])
  {
  }

  lemma NextKeepsOp(cfg: Config, s: State, e: Event, id: nat)
    requires id in s.ops
    ensures id in Next(cfg, s, e).ops && OpKept(s.ops[id], Next(cfg, s, e).ops[id])
  {
    hide Do, Enabled, Restarted;
    if e.Restart? {
      RestartKeepsOp(cfg, s, e.node, id);
    } else if Enabled(cfg, s, e.step) {
      StepKeepsOp(cfg, s, e.step, id);
    }
  }

  lemma {:induction false} AfterKeepsOp(cfg: Config, s: State, events: seq<Event>, id: nat)
    requires id in s.ops
    ensures id in After(cfg, s, events).ops && OpKept(s.ops[id], After(cfg, s, events).ops[id])
  {
    if events != [] {
      hide Next, OpKept;
      var n := |events| - 1;
      AfterKeepsOp(cfg, s, events[..n], id);
      var t := After(cfg, s, events[..n]);
      NextKeepsOp(cfg, t, events[n], id);
      OpKeptTransitive(s.ops[id], t.ops[id], Next(cfg, t, events[n]).ops[id]);
    } else {
      assert OpKept(s.ops[id], s.ops[id]);
    }
  }

  lemma StoppedBacked(cfg: Config, s: State, t: State, op: Op)
    requires OpBacked(cfg, s, op) && t.held == s.held
    ensures OpBacked(cfg, t, Stop(op))
  {
    hide Leq;
    assert forall v :: ViewHolders(Stop(op), v) == ViewHolders(op, v);
  }

  /** Rounds of the nodes that stay keep their hints. */
  lemma OthersCovered(cfg: Config, s: State, c: Node, op: Op)
    requires RoundCovered(cfg, s, op) && op.coordinator != c
    ensures RoundCovered(cfg, Restarted(cfg, s, c), op)
  {
    hide Leq, LocalMax, Sent, Stopped;
  }

  lemma StoppedFine(cfg: Config, s: State, t: State, op: Op)
    requires OpFine(cfg, s, op) && t.held == s.held
    ensures OpFine(cfg, t, Stop(op))
  {
    StoppedBacked(cfg, s, t, op);
    hide OpBacked, Leq, Holds, Covered;
  }

  lemma OtherFine(cfg: Config, s: State, c: Node, op: Op)
    requires OpFine(cfg, s, op) && op.coordinator != c
    ensures OpFine(cfg, Restarted(cfg, s, c), op)
  {
    OthersCovered(cfg, s, c, op);
    hide RealTime, RoundCovered, Leq, Sent, Stopped, LocalMax, ViewHolders;
    OpBackedGrows(cfg, s, Restarted(cfg, s, c), op);
  }

  lemma RestartOpFine(cfg: Config, s: State, c: Node, id: nat)
    requires Core(cfg, s) && id in s.ops
    ensures OpFine(cfg, Restarted(cfg, s, c), Restarted(cfg, s, c).ops[id])
  {
    hide AckedHeld, FlushedHeld, ReturnsAcked, Sent, LocalMax, Stop, OpFine;
    assert OpFine(cfg, s, s.ops[id]);
    if s.ops[id].coordinator == c {
      StoppedFine(cfg, s, Restarted(cfg, s, c), s.ops[id]);
    } else {
      OtherFine(cfg, s, c, s.ops[id]);
    }
  }

  lemma RestartCore(cfg: Config, s: State, c: Node)
    requires Core(cfg, s)
    ensures Core(cfg, Restarted(cfg, s, c))
  {
    var t := Restarted(cfg, s, c);
    hide OpFine, Leq, LocalMax, Sent;
    forall id | id in t.ops
      ensures OpFine(cfg, t, t.ops[id])
    {
      RestartOpFine(cfg, s, c, id);
    }
    assert forall k, v :: Holders(cfg, t, k, v) == Holders(cfg, s, k, v);
  }

  /** What real-time order rests on is kept by every step and by every restart. */
  lemma {:induction false} CoreAlways(cfg: Config, events: seq<Event>)
    requires Sound(cfg)
    ensures Core(cfg, After(cfg, INITIAL, events))
  {
    if events != [] {
      hide Core, Sound, Enabled, Do, Restarted;
      var n := |events| - 1;
      CoreAlways(cfg, events[..n]);
      var s := After(cfg, INITIAL, events[..n]);
      if events[n].Restart? {
        RestartCore(cfg, s, events[n].node);
      } else if Enabled(cfg, s, events[n].step) {
        CoreKept(cfg, s, events[n].step);
      }
    }
  }

  /**
   Real-time order with restarts. Nodes may restart at any time and any number of times, and lose counters, hints
   and operations: a write that returned success is still numbered below every later write of the key and is seen
   by every later read.
   */
  lemma RealTimeOrderAcrossRestarts(cfg: Config, before: seq<Event>, b: Step, after: seq<Event>, a: nat)
    requires Sound(cfg) && b.Start? && Enabled(cfg, After(cfg, INITIAL, before), b)
    requires var s := After(cfg, INITIAL, before);
             a in s.ops && s.ops[a].phase.Returned? && s.ops[a].phase.ok && s.ops[a].key == b.key
    ensures var version := After(cfg, INITIAL, before).ops[a].phase.value.version;
            var t := After(cfg, INITIAL, before + [Act(b)] + after);
            && b.id in t.ops
            && (Allocated(t.ops[b.id]) ==> version.counter < t.ops[b.id].phase.value.version.counter)
            && (t.ops[b.id].phase.Selected? ==>
                  t.ops[b.id].phase.latest.Some? && Leq(version, t.ops[b.id].phase.latest.value.version))
  {
    var s := After(cfg, INITIAL, before);
    CoreAlways(cfg, before);
    hide Core, Sound, Do, Enabled, Leq;
    AfterOne(cfg, INITIAL, before, Act(b));
    AckedInFloor(cfg, s, b, a);
    AfterBoth(cfg, INITIAL, before + [Act(b)], after);
    AfterKeepsOp(cfg, Do(cfg, s, b), after, b.id);
    CoreAlways(cfg, before + [Act(b)] + after);
    InRealTime(cfg, After(cfg, INITIAL, before + [Act(b)] + after), b.id);
  }

  /** Hints are kept in memory: after a restart only what is held, or hinted by another node, is still covered. */
  lemma CoveredAfterRestart(cfg: Config, s: State, c: Node, o: Node, r: Node, k: Key, version: Version)
    ensures Covered(Restarted(cfg, s, c), o, r, k, version) <==>
              Holds(s, r, k, version) || (o != c && Covered(s, o, r, k, version))
  {
    hide Leq, LocalMax, Sent, Stopped;
  }

  // ------------------------------------------------------------------ versions

  /** The node's store reaches every counter the node has handed out. */
  ghost predicate Covers(s: State, c: Node) {
    forall v :: v in s.issued && v.nodeId == c ==> v.counter <= LocalMax(s, c)
  }

  /** No two operations have been allocated the same version. */
  ghost predicate Unique(s: State) {
    forall a, b | a in s.ops && b in s.ops && Allocated(s.ops[a]) && Allocated(s.ops[b]) ::
      s.ops[a].phase.value.version == s.ops[b].phase.value.version ==> a == b
  }

  lemma IssuedOnceUnique(s: State)
    requires IssuedOnce(s)
    ensures Unique(s)
  {
  }

  lemma RestartIssuedOnce(cfg: Config, s: State, c: Node)
    requires IssuedOnce(s) && Covers(s, c)
    ensures IssuedOnce(Restarted(cfg, s, c))
  {
    hide LocalMax, Sent;
  }

  /** A value stays genuine: the operation that made it keeps it. */
  lemma RestartStaysGenuine(cfg: Config, s: State, c: Node)
    ensures StayGenuine(s, Restarted(cfg, s, c))
  {
    hide LocalMax, Sent;
  }

  lemma SentGenuine(cfg: Config, s: State, c: Node)
    requires IssuedOnce(s)
    ensures forall r, k, v :: (r, k, v) in Sent(cfg, s.ops, c) ==> Genuine(s, k, v)
  {
    hide Genuine;
    forall id | id in s.ops && s.ops[id].phase.Writing?
      ensures Genuine(s, s.ops[id].key, s.ops[id].phase.value)
    {
      AllocatedGenuine(s, id);
    }
  }

  lemma RestartGenuine(cfg: Config, s: State, c: Node)
    requires IssuedOnce(s) && AllGenuine(s)
    ensures AllGenuine(Restarted(cfg, s, c))
  {
    SentGenuine(cfg, s, c);
    RestartStaysGenuine(cfg, s, c);
    hide Genuine, LocalMax, Sent;
  }

  /** No restart happens before the node's store has caught up with what the node handed out. */
  ghost predicate CoveredRestarts(cfg: Config, s: State, events: seq<Event>) {
    events == [] ||
    var n := |events| - 1;
    && CoveredRestarts(cfg, s, events[..n])
    && (events[n].Restart? ==> Covers(After(cfg, s, events[..n]), events[n].node))
  }

  lemma {:induction false} CoveredKeeps(cfg: Config, s: State, events: seq<Event>)
    requires IssuedOnce(s) && CoveredRestarts(cfg, s, events)
    ensures IssuedOnce(After(cfg, s, events))
    ensures AllGenuine(s) ==> AllGenuine(After(cfg, s, events))
  {
    if events != [] {
      hide IssuedOnce, AllGenuine, Covers, Enabled, Do, Restarted;
      var n := |events| - 1;
      CoveredKeeps(cfg, s, events[..n]);
      var t := After(cfg, s, events[..n]);
      if events[n].Restart? {
        RestartIssuedOnce(cfg, t, events[n].node);
        if AllGenuine(t) {
          RestartGenuine(cfg, t, events[n].node);
        }
      } else if Enabled(cfg, t, events[n].step) {
        IssuedOnceKept(cfg, t, events[n].step);
        if AllGenuine(t) {
          AllGenuineKept(cfg, t, events[n].step);
        }
      }
    }
  }

  lemma InitialFine()
    ensures IssuedOnce(INITIAL) && AllGenuine(INITIAL)
  {
  }

  /** With covered restarts only, versions are never reused and equal versions mean equal values, in every run. */
  lemma CoveredRestartsAreHarmless(cfg: Config, events: seq<Event>, k: Key, v: Value, l: Key, w: Value)
    requires CoveredRestarts(cfg, INITIAL, events)
    ensures var s := After(cfg, INITIAL, events);
            Unique(s) && (CopyOf(s, k, v) && CopyOf(s, l, w) && v.version == w.version ==> k == l && v == w)
  {
    InitialFine();
    CoveredKeeps(cfg, INITIAL, events);
    var s := After(cfg, INITIAL, events);
    IssuedOnceUnique(s);
    hide After, IssuedOnce, AllGenuine, CopyOf;
    if CopyOf(s, k, v) && CopyOf(s, l, w) && v.version == w.version {
      CopiesGenuine(s, k, v);
      CopiesGenuine(s, l, w);
    }
  }

  // ------------------------------------------------------------------ an uncovered restart reuses a version

  /** A key that no replica holds. */
  lemma UnusedKey(s: State) returns (k: Key)
    ensures forall r :: (r, k) !in s.held
  {
    var lengths := set rk | rk in s.held :: |rk.1|;
    k := seq(Largest(lengths) + 1, i => 'k');
    assert forall rk :: rk in s.held ==> |rk.1| in lengths;
    assert forall rk :: rk in s.held ==> rk.1 != k;
    assert forall r: Node :: (r, k).1 == k;
  }

  /** These owners have answered with what they hold. */
  function AnswersOf(s: State, k: Key, owners: seq<Node>): map<Node, Reply> {
    map r | r in owners :: Answer(LookupAt(s, r, k))
  }

  lemma AnswersMore(s: State, k: Key, owners: seq<Node>, n: nat)
    requires n < |owners| && Distinct(owners)
    ensures owners[n] !in AnswersOf(s, k, owners[..n])
    ensures AnswersOf(s, k, owners[..n])[owners[n] := Answer(LookupAt(s, owners[n], k))] ==
              AnswersOf(s, k, owners[..n + 1])
    ensures AnswersOf(s, k, owners[..0]) == map[] && owners[..|owners|] == owners
  {
    assert owners[..n + 1] == owners[..n] + [owners[n]];
  }

  function AskingOp(cfg: Config, s: State, c: Node, k: Key, kind: Kind, n: nat): Op
    requires n <= |cfg.owners(k)|
  {
    Begin(cfg, s, c, k, kind).(replies := AnswersOf(s, k, cfg.owners(k)[..n]))
  }

  /** The operation while it reads: the first `n` owners have answered. */
  function Reads(cfg: Config, s: State, id: nat, c: Node, k: Key, kind: Kind, n: nat): State
    requires n <= |cfg.owners(k)|
  {
    s.(ops := s.ops[id := AskingOp(cfg, s, c, k, kind, n)])
  }

  function Asking(cfg: Config, id: nat, c: Node, k: Key, kind: Kind, n: nat): seq<Event>
    requires n <= |cfg.owners(k)|
  {
    if n == 0 then [Act(Start(id, c, k, kind))]
    else Asking(cfg, id, c, k, kind, n - 1) + [Act(ReadOk(id, cfg.owners(k)[n - 1]))]
  }

  lemma ReplyMore(cfg: Config, s: State, c: Node, k: Key, kind: Kind, n: nat)
    requires n < |cfg.owners(k)| && Distinct(cfg.owners(k))
    ensures var was, r := AskingOp(cfg, s, c, k, kind, n), cfg.owners(k)[n];
            && r !in was.replies && was.kind == kind && was.key == k && was.phase == Reading
            && was.(replies := was.replies[r := Answer(LookupAt(s, r, k))]) == AskingOp(cfg, s, c, k, kind, n + 1)
  {
    AnswersMore(s, k, cfg.owners(k), n);
    hide AnswersOf, Distinct;
  }

  lemma ReplyIn(s: State, id: nat, was: Op, r: Node, reply: Reply, op: Op)
    requires was.(replies := was.replies[r := reply]) == op
    ensures WithReply(s.(ops := s.ops[id := was]), id, r, reply) == s.(ops := s.ops[id := op])
  {
    assert s.ops[id := was][id := op] == s.ops[id := op];
  }

  lemma ReadsMore(cfg: Config, s: State, id: nat, c: Node, k: Key, kind: Kind, n: nat)
    requires n < |cfg.owners(k)| && Distinct(cfg.owners(k))
    ensures var t, r := Reads(cfg, s, id, c, k, kind, n), cfg.owners(k)[n];
            && r !in t.ops[id].replies && t.ops[id].kind == kind && t.ops[id].key == k
            && t.ops[id].phase == Reading
            && WithReply(t, id, r, Answer(LookupAt(s, r, k))) == Reads(cfg, s, id, c, k, kind, n + 1)
  {
    ReplyMore(cfg, s, c, k, kind, n);
    hide AskingOp, Distinct, WithReply, LookupAt;
    var r := cfg.owners(k)[n];
    ReplyIn(s, id, AskingOp(cfg, s, c, k, kind, n), r, Answer(LookupAt(s, r, k)),
            AskingOp(cfg, s, c, k, kind, n + 1));
  }

  lemma AskOne(cfg: Config, s: State, id: nat, c: Node, k: Key, kind: Kind, n: nat)
    requires n < |cfg.owners(k)| && Distinct(cfg.owners(k))
    ensures var t, e := Reads(cfg, s, id, c, k, kind, n), ReadOk(id, cfg.owners(k)[n]);
            Enabled(cfg, t, e) && Do(cfg, t, e) == Reads(cfg, s, id, c, k, kind, n + 1)
  {
    ReadsMore(cfg, s, id, c, k, kind, n);
    var t, r := Reads(cfg, s, id, c, k, kind, n), cfg.owners(k)[n];
    assert t.held == s.held && id in t.ops;
    hide Distinct, Reads, WithReply;
    assert LookupAt(t, r, k) == LookupAt(s, r, k) && r in cfg.owners(k);
  }

  lemma AskFirst(cfg: Config, s: State, id: nat, c: Node, k: Key, kind: Kind)
    requires id !in s.ops
    ensures var e := Start(id, c, k, kind); Enabled(cfg, s, e) && Do(cfg, s, e) == Reads(cfg, s, id, c, k, kind, 0)
  {
    assert AnswersOf(s, k, cfg.owners(k)[..0]) == map[];
  }

  /** All owners can be asked, and answer with what they hold. */
  lemma {:induction false} AsksAll(cfg: Config, s: State, id: nat, c: Node, k: Key, kind: Kind, n: nat)
    requires n <= |cfg.owners(k)| && Distinct(cfg.owners(k)) && id !in s.ops
    ensures After(cfg, s, Asking(cfg, id, c, k, kind, n)) == Reads(cfg, s, id, c, k, kind, n)
  {
    hide Do, Enabled, Reads;
    if n == 0 {
      AskFirst(cfg, s, id, c, k, kind);
      assert [Act(Start(id, c, k, kind))][..0] == [];
    } else {
      AsksAll(cfg, s, id, c, k, kind, n - 1);
      AfterOne(cfg, s, Asking(cfg, id, c, k, kind, n - 1), Act(ReadOk(id, cfg.owners(k)[n - 1])));
      hide After;
      AskOne(cfg, s, id, c, k, kind, n - 1);
    }
  }

  lemma {:induction false} NothingFound(owners: seq<Node>, replies: map<Node, Reply>)
    requires forall r :: r in replies ==> Found(replies[r]) == None
    ensures MaxCounter(owners, replies) == 0
  {
    if owners != [] {
      NothingFound(owners[..|owners| - 1], replies);
    }
  }

  /** The operation has been given this version. */
  function GivenVersion(s: State, id: nat, version: Version): State
    requires id in s.ops
  {
    s.(counters := s.counters[version.nodeId := version.counter], issued := s.issued[version := id],
       ops := s.ops[id := s.ops[id].(phase := Writing(ValueFor(s.ops[id].kind, version), {}, {}))])
  }

  lemma Allocates(cfg: Config, s: State, id: nat, version: Version)
    requires Enabled(cfg, s, Allocate(id))
    requires s.ops[id].coordinator == version.nodeId && NextVersion(cfg, s, s.ops[id]) == version
    ensures Do(cfg, s, Allocate(id)) == GivenVersion(s, id, version)
  {
    hide NextVersion, Enabled;
  }

  /** The state after an operation has read all owners and been given this version. */
  function Counted(cfg: Config, s: State, id: nat, c: Node, k: Key, kind: Kind, counter: nat): State {
    GivenVersion(Reads(cfg, s, id, c, k, kind, |cfg.owners(k)|), id, Version(counter, c))
  }

  lemma CountedIs(cfg: Config, s: State, id: nat, c: Node, k: Key, kind: Kind, counter: nat)
    ensures var t := Reads(cfg, s, id, c, k, kind, |cfg.owners(k)|);
            id in t.ops && Counted(cfg, s, id, c, k, kind, counter) == GivenVersion(t, id, Version(counter, c))
  {
    hide AskingOp, GivenVersion, Counter;
  }

  /** The counter the coordinator hands out next when every owner of the key answers. */
  function NextCounter(cfg: Config, s: State, c: Node, k: Key): nat {
    Max(MaxCounter(cfg.owners(k), AnswersOf(s, k, cfg.owners(k))), Counter(s, c)) + 1
  }

  /** All owners have answered; the version is the coordinator's next. */
  lemma AllocationDue(cfg: Config, s: State, id: nat, c: Node, k: Key, kind: Kind)
    requires Distinct(cfg.owners(k)) && cfg.readQuorum <= |cfg.owners(k)| && !kind.GetOf?
    ensures var t := Reads(cfg, s, id, c, k, kind, |cfg.owners(k)|);
            && t.ops[id].kind == kind && t.ops[id].coordinator == c && t.ops[id].phase == Reading
            && Enabled(cfg, t, Allocate(id))
            && NextVersion(cfg, t, t.ops[id]) == Version(NextCounter(cfg, s, c, k), c)
  {
    var owners := cfg.owners(k);
    AllAnswered(s, k, owners);
    hide MaxCounter, Distinct, Elements, Answered, AnswersOf;
    var t := Reads(cfg, s, id, c, k, kind, |owners|);
    assert t.ops[id].replies == AnswersOf(s, k, owners);
  }

  lemma AllAnswered(s: State, k: Key, owners: seq<Node>)
    requires Distinct(owners)
    ensures |Answered(AnswersOf(s, k, owners))| == |owners| && owners[..|owners|] == owners
    ensures forall r :: r in AnswersOf(s, k, owners) <==> r in owners
  {
    DistinctSize(owners);
    assert Answered(AnswersOf(s, k, owners)) == Elements(owners);
  }

  lemma AllocatesNext(cfg: Config, s: State, id: nat, c: Node, k: Key, kind: Kind)
    requires Distinct(cfg.owners(k)) && cfg.readQuorum <= |cfg.owners(k)| && !kind.GetOf?
    ensures var t := Reads(cfg, s, id, c, k, kind, |cfg.owners(k)|);
            && Enabled(cfg, t, Allocate(id))
            && Do(cfg, t, Allocate(id)) == Counted(cfg, s, id, c, k, kind, NextCounter(cfg, s, c, k))
  {
    hide *;
    AllocationDue(cfg, s, id, c, k, kind);
    CountedIs(cfg, s, id, c, k, kind, NextCounter(cfg, s, c, k));
    Allocates(cfg, Reads(cfg, s, id, c, k, kind, |cfg.owners(k)|), id, Version(NextCounter(cfg, s, c, k), c));
  }

  lemma CountsOn(cfg: Config, s: State, id: nat, c: Node, k: Key, kind: Kind)
    requires Distinct(cfg.owners(k)) && cfg.readQuorum <= |cfg.owners(k)| && id !in s.ops && !kind.GetOf?
    ensures After(cfg, s, Asking(cfg, id, c, k, kind, |cfg.owners(k)|) + [Act(Allocate(id))]) ==
              Counted(cfg, s, id, c, k, kind, NextCounter(cfg, s, c, k))
  {
    hide Do, Enabled, Reads, Counted, After, Asking, NextCounter;
    var n := |cfg.owners(k)|;
    AsksAll(cfg, s, id, c, k, kind, n);
    AfterOne(cfg, s, Asking(cfg, id, c, k, kind, n), Act(Allocate(id)));
    AllocatesNext(cfg, s, id, c, k, kind);
  }

  /** A key nobody holds is counted on from the coordinator's own counter. */
  lemma UnusedCounts(cfg: Config, s: State, c: Node, k: Key)
    requires forall r :: (r, k) !in s.held
    ensures NextCounter(cfg, s, c, k) == Counter(s, c) + 1
  {
    NothingFound(cfg.owners(k), AnswersOf(s, k, cfg.owners(k)));
  }

  ghost predicate NoRestart(events: seq<Event>) {
    forall e :: e in events ==> e.Act?
  }

  lemma {:induction false} AskingActs(cfg: Config, id: nat, c: Node, k: Key, kind: Kind, n: nat)
    requires n <= |cfg.owners(k)|
    ensures NoRestart(Asking(cfg, id, c, k, kind, n))
  {
    if n > 0 {
      AskingActs(cfg, id, c, k, kind, n - 1);
    }
  }

  /** Every key has enough owners for a read quorum. */
  ghost predicate EnoughOwners(cfg: Config) {
    forall k :: Distinct(cfg.owners(k)) && cfg.readQuorum <= |cfg.owners(k)|
  }

  /** Puts of an unused key bring the counter to any number above it, and hand that number out. */
  lemma {:induction false} ReachCounter(cfg: Config, s: State, c: Node, k: Key, goal: nat)
    returns (events: seq<Event>, id: nat)
    requires EnoughOwners(cfg) && Counter(s, c) < goal && forall r :: (r, k) !in s.held
    ensures NoRestart(events) && id !in s.ops
    ensures var t := After(cfg, s, events);
            id in t.ops && Allocated(t.ops[id]) && t.ops[id].phase.value.version == Version(goal, c)
    decreases goal - Counter(s, c)
  {
    hide *;
    OwnersOf(cfg, k);
    id := Largest(s.ops.Keys) + 1;
    var n, kind := |cfg.owners(k)|, PutOf([]);
    var asked, t := Asking(cfg, id, c, k, kind, n), Counted(cfg, s, id, c, k, kind, Counter(s, c) + 1);
    events := asked + [Act(Allocate(id))];
    AskingActs(cfg, id, c, k, kind, n);
    MoreActs(asked, [Act(Allocate(id))]);
    CountsOn(cfg, s, id, c, k, kind);
    UnusedCounts(cfg, s, c, k);
    CountedMeans(cfg, s, id, c, k, kind, Counter(s, c) + 1);
    if Counter(s, c) + 1 < goal {
      var more;
      more, id := ReachCounter(cfg, t, c, k, goal);
      AfterBoth(cfg, s, events, more);
      MoreActs(events, more);
      events := events + more;
    } else {
      IsAllocated(t.ops[id], ValueFor(kind, Version(goal, c)));
      ValueHasVersion(kind, Version(goal, c));
    }
  }

  lemma OwnersOf(cfg: Config, k: Key)
    requires EnoughOwners(cfg)
    ensures Distinct(cfg.owners(k)) && cfg.readQuorum <= |cfg.owners(k)|
  {
  }

  lemma MoreActs(a: seq<Event>, b: seq<Event>)
    ensures (forall e :: e in b ==> e.Act?) ==> NoRestart(b)
    ensures NoRestart(a) && NoRestart(b) ==> NoRestart(a + b)
  {
  }

  lemma IsAllocated(op: Op, v: Value)
    requires op.phase == Writing(v, {}, {})
    ensures Allocated(op)
  {
  }

  lemma ValueHasVersion(kind: Kind, version: Version)
    ensures ValueFor(kind, version).version == version
  {
  }

  /** What an allocation after reading changes: the operation writes, and the counter is the version's. */
  lemma CountedMeans(cfg: Config, s: State, id: nat, c: Node, k: Key, kind: Kind, counter: nat)
    ensures var t, version := Counted(cfg, s, id, c, k, kind, counter), Version(counter, c);
            && t.held == s.held && t.hints == s.hints && t.wire == s.wire && t.ops.Keys == s.ops.Keys + {id}
            && Counter(t, c) == counter
            && t.ops[id].kind == kind && t.ops[id].coordinator == c && t.ops[id].key == k
            && t.ops[id].phase == Writing(ValueFor(kind, version), {}, {})
            && forall i :: i in s.ops && i != id ==> t.ops[i] == s.ops[i]
  {
    hide AnswersOf, ValueFor;
  }

  /** Whatever happens without another restart, no version is handed out twice. */
  ghost predicate StaysUnique(cfg: Config, s: State) {
    forall events :: NoRestart(events) ==> Unique(After(cfg, s, events))
  }

  lemma {:induction false} NoRestartCovered(cfg: Config, s: State, events: seq<Event>)
    requires NoRestart(events)
    ensures CoveredRestarts(cfg, s, events)
  {
    if events != [] {
      var n := |events| - 1;
      assert events[n] in events && forall e :: e in events[..n] ==> e in events;
      NoRestartCovered(cfg, s, events[..n]);
    }
  }

  /**
   A restart is harmless for versions if and only if the node's store reaches every counter it has handed out:
   otherwise a version is handed out again after some puts of an unused key. Nothing is asked of the run before,
   except that no earlier restart was harmful.
   */
  lemma HarmlessIffCovers(cfg: Config, before: seq<Event>, c: Node)
    requires EnoughOwners(cfg) && CoveredRestarts(cfg, INITIAL, before)
    ensures StaysUnique(cfg, After(cfg, INITIAL, before + [Restart(c)])) <==> Covers(After(cfg, INITIAL, before), c)
  {
    var s := After(cfg, INITIAL, before);
    InitialFine();
    CoveredKeeps(cfg, INITIAL, before);
    AfterOne(cfg, INITIAL, before, Restart(c));
    hide After, Restarted, Unique, IssuedOnce, EnoughOwners, LocalMax, CoveredRestarts;
    var t := Restarted(cfg, s, c);
    if Covers(s, c) {
      RestartIssuedOnce(cfg, s, c);
      forall events | NoRestart(events)
        ensures Unique(After(cfg, t, events))
      {
        NoRestartCovered(cfg, t, events);
        CoveredKeeps(cfg, t, events);
        IssuedOnceUnique(After(cfg, t, events));
      }
    } else {
      var v :| v in s.issued && v.nodeId == c && v.counter > LocalMax(s, c);
      var events := HandsOutAgain(cfg, s, c, v);
      assert NoRestart(events) && !Unique(After(cfg, t, events));
    }
  }

  lemma HandsOutAgain(cfg: Config, s: State, c: Node, v: Version) returns (events: seq<Event>)
    requires EnoughOwners(cfg) && IssuedOnce(s) && v in s.issued && v.nodeId == c && v.counter > LocalMax(s, c)
    ensures NoRestart(events) && !Unique(After(cfg, Restarted(cfg, s, c), events))
  {
    hide After, EnoughOwners, LocalMax, Sent;
    var t, a := Restarted(cfg, s, c), s.issued[v];
    var k := UnusedKey(t);
    var b;
    events, b := ReachCounter(cfg, t, c, k, v.counter);
    RestartKeepsOp(cfg, s, c, a);
    AfterKeepsOp(cfg, t, events, a);
    var u := After(cfg, t, events);
    assert u.ops[a].phase.value.version == u.ops[b].phase.value.version && a != b;
  }

  // ------------------------------------------------------------------ owners that differ

  /** Three copies of every key, two for a write and two for a read (internal/node/node.go). */
  const THREE := Config(k => ["a", "b", "c"], 2, 2)

  const ONCE := Version(1, "d")

  const FIRST := Value([], ONCE, false)

  const SECOND := Value([1], ONCE, false)

  /** The first put while it writes. */
  ghost predicate WritingFirst(s: State, held: map<(Node, Key), Value>, acks: set<Node>) {
    && s.held == held && s.hints == map[]
    && s.ops.Keys == {0} && s.ops[0].coordinator == "d" && s.ops[0].key == "k"
    && s.ops[0].phase == Writing(FIRST, acks, {})
  }

  /** Only the copy on `a` was written, and the coordinator counts from zero. */
  ghost predicate OneCopy(s: State) {
    && s.held == map[("a", "k") := FIRST] && Counter(s, "d") == 0 && s.hints == map[]
    && s.ops.Keys == {0} && s.ops[0].phase == Returned(FIRST, false)
  }

  lemma FirstDecided()
    ensures WritingFirst(Counted(THREE, INITIAL, 0, "d", "k", PutOf([]), 1), map[], {})
  {
    hide AnswersOf, Answered;
  }

  lemma FirstWritten(s: State)
    requires WritingFirst(s, map[], {})
    ensures WritingFirst(Next(THREE, s, Act(WriteAcked(0, "a"))), map[("a", "k") := FIRST], {"a"})
  {
    ReportOne(THREE, s, 0, "a", true);
    hide Do, Enabled;
  }

  lemma FirstForgotten(s: State)
    requires WritingFirst(s, map[("a", "k") := FIRST], {"a"})
    ensures OneCopy(Next(THREE, s, Restart("d")))
  {
    NothingLocal(s, "d");
    hide LocalMax, Sent;
  }

  lemma NothingLocal(s: State, c: Node)
    requires forall rk :: rk in s.held ==> rk.0 != c
    ensures LocalMax(s, c) == 0
  {
    assert (set rk | rk in s.held && rk.0 == c :: s.held[rk].version.counter) == {};
  }

  /** One event more. */
  lemma Then(before: seq<Event>, e: Event) returns (events: seq<Event>)
    ensures After(THREE, INITIAL, events) == Next(THREE, After(THREE, INITIAL, before), e)
  {
    AfterOne(THREE, INITIAL, before, e);
    events := before + [e];
  }

  lemma FirstPut() returns (events: seq<Event>)
    ensures OneCopy(After(THREE, INITIAL, events))
  {
    hide After, Next, Counted, WritingFirst, OneCopy;
    events := Asking(THREE, 0, "d", "k", PutOf([]), 3) + [Act(Allocate(0))];
    CountsOn(THREE, INITIAL, 0, "d", "k", PutOf([]));
    UnusedCounts(THREE, INITIAL, "d", "k");
    FirstDecided();
    FirstWritten(After(THREE, INITIAL, events));
    events := Then(events, Act(WriteAcked(0, "a")));
    FirstForgotten(After(THREE, INITIAL, events));
    events := Then(events, Restart("d"));
  }

  /** The second put while it reads. */
  ghost predicate ReadingSecond(s: State, replies: map<Node, Reply>) {
    && s.held == map[("a", "k") := FIRST] && Counter(s, "d") == 0 && s.hints == map[]
    && s.ops.Keys == {0, 1} && s.ops[0].phase == Returned(FIRST, false)
    && var op := s.ops[1];
       op.kind == PutOf([1]) && op.coordinator == "d" && op.key == "k" && op.phase == Reading && op.replies == replies
  }

  /** The second put while it writes; `held` is what the replicas hold. */
  ghost predicate WritingSecond(s: State, held: map<(Node, Key), Value>, acks: set<Node>) {
    && s.held == held && s.hints == map[]
    && s.ops.Keys == {0, 1} && s.ops[0].phase == Returned(FIRST, false)
    && s.ops[1].key == "k" && s.ops[1].phase == Writing(SECOND, acks, {})
  }

  lemma StartsSecond(s: State)
    requires OneCopy(s)
    ensures ReadingSecond(Next(THREE, s, Act(Start(1, "d", "k", PutOf([1])))), map[])
  {
  }

  lemma ReadsSecond(s: State, replies: map<Node, Reply>, r: Node)
    requires ReadingSecond(s, replies) && r !in replies && r in ["a", "b", "c"]
    ensures ReadingSecond(Next(THREE, s, Act(ReadFailed(1, r))), replies[r := NoReply])
    ensures r != "a" ==> ReadingSecond(Next(THREE, s, Act(ReadOk(1, r))), replies[r := Answer(None)])
  {
  }

  lemma DecidesSecond(s: State)
    requires ReadingSecond(s, map["a" := NoReply, "b" := Answer(None), "c" := Answer(None)])
    ensures WritingSecond(Next(THREE, s, Act(Allocate(1))), s.held, {})
  {
    var replies := map["a" := NoReply, "b" := Answer(None), "c" := Answer(None)];
    assert Answered(replies) == {"b", "c"};
    NothingFound(["a", "b", "c"], replies);
    hide MaxCounter, Answered;
    assert NextVersion(THREE, s, s.ops[1]) == ONCE;
    Allocates(THREE, s, 1, ONCE);
    hide Do, Enabled, NextVersion;
  }

  lemma WritesSecond(s: State, held: map<(Node, Key), Value>, acks: set<Node>, r: Node)
    requires WritingSecond(s, held, acks) && r !in acks && r in ["a", "b", "c"]
    ensures WritingSecond(Next(THREE, s, Act(WriteAcked(1, r))), Write(held, r, "k", SECOND), acks + {r})
  {
    ReportOne(THREE, s, 1, r, true);
    hide Write, Do, Enabled;
  }

  /** The owners hold different values under one version, the second of which was acknowledged. */
  ghost predicate Diverged(s: State) {
    && s.held == map[("a", "k") := FIRST, ("b", "k") := SECOND, ("c", "k") := SECOND]
    && Settled(s, "k")
    && 1 in s.ops && s.ops[1].phase == Returned(SECOND, true)
  }

  lemma ReturnsSecond(s: State)
    requires WritingSecond(s, map[("a", "k") := FIRST, ("b", "k") := SECOND, ("c", "k") := SECOND], {"a", "b", "c"})
    ensures Diverged(Next(THREE, s, Act(Return(1))))
  {
  }

  /** The owner that took the first value keeps it: the second is not newer. */
  lemma SecondHeld()
    ensures var one := map[("a", "k") := FIRST]; var two := one[("b", "k") := SECOND];
            && Write(one, "a", "k", SECOND) == one && Write(one, "b", "k", SECOND) == two
            && Write(two, "c", "k", SECOND) == map[("a", "k") := FIRST, ("b", "k") := SECOND, ("c", "k") := SECOND]
    ensures {} + {"a"} == {"a"} && {"a"} + {"b"} == {"a", "b"} && {"a", "b"} + {"c"} == {"a", "b", "c"}
  {
  }

  lemma SecondDecided() returns (events: seq<Event>)
    ensures WritingSecond(After(THREE, INITIAL, events), map[("a", "k") := FIRST], {})
  {
    hide After, OneCopy, Next;
    events := FirstPut();
    StartsSecond(After(THREE, INITIAL, events));
    events := Then(events, Act(Start(1, "d", "k", PutOf([1]))));
    ReadsSecond(After(THREE, INITIAL, events), map[], "a");
    events := Then(events, Act(ReadFailed(1, "a")));
    ReadsSecond(After(THREE, INITIAL, events), map["a" := NoReply], "b");
    events := Then(events, Act(ReadOk(1, "b")));
    ReadsSecond(After(THREE, INITIAL, events), map["a" := NoReply, "b" := Answer(None)], "c");
    events := Then(events, Act(ReadOk(1, "c")));
    DecidesSecond(After(THREE, INITIAL, events));
    events := Then(events, Act(Allocate(1)));
  }

  /**
   What a reused version costs. After one restart and two puts of one key, the second put has returned success, no
   round and no hint is left, and yet one owner keeps the first value under the same version.
   */
  lemma RestartDiverges() returns (events: seq<Event>)
    ensures Sound(THREE) && Diverged(After(THREE, INITIAL, events))
  {
    hide After, Next, WritingSecond, Diverged;
    hide Write;
    SecondHeld();
    var one := map[("a", "k") := FIRST];
    events := SecondDecided();
    WritesSecond(After(THREE, INITIAL, events), one, {}, "a");
    events := Then(events, Act(WriteAcked(1, "a")));
    WritesSecond(After(THREE, INITIAL, events), one, {"a"}, "b");
    events := Then(events, Act(WriteAcked(1, "b")));
    WritesSecond(After(THREE, INITIAL, events), one[("b", "k") := SECOND], {"a", "b"}, "c");
    events := Then(events, Act(WriteAcked(1, "c")));
    ReturnsSecond(After(THREE, INITIAL, events));
    events := Then(events, Act(Return(1)));
  }
}
