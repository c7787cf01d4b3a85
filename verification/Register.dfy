/**
 The replicated register (internal/node/version.go, replication.go, hint.go) as a step system.

 Every request to one replica is a step of its own. A write request either is applied and
 acknowledged, or fails in the coordinator's eyes and may still be applied any time later, any
 number of times, or never. Read repairs and hint hand-offs interleave freely with everything.
 The ring is fixed; restarts of nodes are added in `Restarts`.
 */
module Register {
  import opened Versions
  import opened Sequences

  type Node = string
  type Key = string

  datatype Config = Config(owners: Key -> seq<Node>, writeQuorum: nat, readQuorum: nat)

  /** Replica lists have no repeats, and any read quorum meets any write quorum. */
  ghost predicate Sound(cfg: Config) {
    forall k :: Distinct(cfg.owners(k)) && cfg.writeQuorum + cfg.readQuorum > |cfg.owners(k)|
  }

  datatype Kind = PutOf(data: seq<Byte>) | DeleteOf | GetOf

  datatype Reply = NoReply | Answer(value: Option<Value>)

  datatype Phase =
    | Reading
    | Writing(value: Value, acks: set<Node>, errors: set<Node>)
    | Returned(value: Value, ok: bool)
    | Selected(latest: Option<Value>)
    | Refused

  /**
   An operation in progress or finished. `floor` and `view` are history: the versions of the key
   acknowledged before the operation started, and what each owner held at that moment.
   */
  datatype Op = Op(
    kind: Kind, coordinator: Node, key: Key, phase: Phase, replies: map<Node, Reply>,
    floor: set<Version>, view: map<Node, Version>)

  datatype State = State(
    held: map<(Node, Key), Value>,
    counters: map<Node, nat>,
    hints: map<(Node, Node, Key), Value>,      // coordinator, replica, key
    wire: set<(Node, Key, Value)>,             // writes that may still reach a replica
    listed: set<(Node, Node, Key, Value)>,     // hints a flush has listed
    flushed: set<(Node, Node, Key, Version)>,  // handed-off hints still to be removed
    ops: map<nat, Op>,
    acked: set<(Key, Version)>,                // history: writes that returned success
    issued: map<Version, nat>)                 // history: which operation allocated a version

  const INITIAL := State(map[], map[], map[], {}, {}, {}, map[], {}, map[])

  // ------------------------------------------------------------------ pieces of a step

  /** `Memory.Set`: only a strictly newer version replaces the stored copy. */
  function Write(held: map<(Node, Key), Value>, r: Node, k: Key, v: Value): map<(Node, Key), Value> {
    if (r, k) in held && Leq(v.version, held[(r, k)].version) then held else held[(r, k) := v]
  }

  /** `hintStore.Add`: only a strictly newer version replaces the stored hint. */
  function AddHint(hints: map<(Node, Node, Key), Value>, c: Node, r: Node, k: Key, v: Value)
    : map<(Node, Node, Key), Value>
  {
    if (c, r, k) in hints && Leq(v.version, hints[(c, r, k)].version) then hints else hints[(c, r, k) := v]
  }

  /** `hintStore.RemoveIfMatch`. */
  function RemoveHint(hints: map<(Node, Node, Key), Value>, c: Node, r: Node, k: Key, version: Version)
    : map<(Node, Node, Key), Value>
  {
    if (c, r, k) in hints && hints[(c, r, k)].version == version then hints - {(c, r, k)} else hints
  }

  function Found(reply: Reply): Option<Value> {
    if reply.Answer? then reply.value else None
  }

  /** Largest counter among the copies read, zero when none was found. */
  function MaxCounter(owners: seq<Node>, replies: map<Node, Reply>): nat {
    if owners == [] then 0
    else
      var rest := MaxCounter(owners[..|owners| - 1], replies);
      var r := owners[|owners| - 1];
      if r in replies && Found(replies[r]).Some? && Found(replies[r]).value.version.counter > rest
      then Found(replies[r]).value.version.counter else rest
  }

  function Answered(replies: map<Node, Reply>): set<Node> {
    set r | r in replies && replies[r].Answer?
  }

  /** `latest` is a newest copy among the answers, or none was found. */
  ghost predicate IsNewest(replies: map<Node, Reply>, latest: Option<Value>) {
    && (latest.Some? ==> exists r :: r in replies && Found(replies[r]) == latest)
    && (forall r :: r in replies && Found(replies[r]).Some? ==>
          latest.Some? && Leq(Found(replies[r]).value.version, latest.value.version))
  }

  function Counter(s: State, c: Node): nat {
    if c in s.counters then s.counters[c] else 0
  }

  /** The value a write operation replicates. */
  function ValueFor(kind: Kind, version: Version): Value {
    match kind
    case PutOf(data) => Value(data, version, false)
    case _ => Value([], version, true)
  }

  datatype Step =
    | Start(id: nat, coordinator: Node, key: Key, kind: Kind)
    | ReadOk(id: nat, r: Node)
    | ReadFailed(id: nat, r: Node)
    | Allocate(id: nat)
    | Refuse(id: nat)
    | WriteAcked(id: nat, r: Node)
    | WriteFailed(id: nat, r: Node)
    | Return(id: nat)
    | Select(id: nat, latest: Option<Value>)
    | Arrive(r: Node, k: Key, v: Value)
    | ListHints(c: Node)
    | HandOff(c: Node, r: Node, k: Key, v: Value, acked: bool)
    | DropHint(c: Node, r: Node, k: Key, version: Version)

  /** Whether a step can happen. */
  ghost predicate Enabled(cfg: Config, s: State, step: Step) {
    match step
    case Start(id, c, k, kind) => id !in s.ops
    case ReadOk(id, r) => id in s.ops && s.ops[id].phase.Reading? && r in cfg.owners(s.ops[id].key) &&
      r !in s.ops[id].replies
    case ReadFailed(id, r) => id in s.ops && s.ops[id].phase.Reading? && r in cfg.owners(s.ops[id].key) &&
      r !in s.ops[id].replies
    case Allocate(id) =>
      && id in s.ops && s.ops[id].phase.Reading? && !s.ops[id].kind.GetOf?
      && (forall r :: r in cfg.owners(s.ops[id].key) ==> r in s.ops[id].replies)
      && |Answered(s.ops[id].replies)| >= cfg.readQuorum
    case Refuse(id) =>
      && id in s.ops && s.ops[id].phase.Reading?
      && (forall r :: r in cfg.owners(s.ops[id].key) ==> r in s.ops[id].replies)
      && |Answered(s.ops[id].replies)| < cfg.readQuorum
    case WriteAcked(id, r) => CanReport(cfg, s, id, r)
    case WriteFailed(id, r) => CanReport(cfg, s, id, r)
    case Return(id) =>
      && id in s.ops && s.ops[id].phase.Writing?
      && (forall r :: r in cfg.owners(s.ops[id].key) ==> r in s.ops[id].phase.acks + s.ops[id].phase.errors)
    case Select(id, latest) =>
      && id in s.ops && s.ops[id].phase.Reading? && s.ops[id].kind.GetOf?
      && (forall r :: r in cfg.owners(s.ops[id].key) ==> r in s.ops[id].replies)
      && |Answered(s.ops[id].replies)| >= cfg.readQuorum
      && IsNewest(s.ops[id].replies, latest)
    case Arrive(r, k, v) => (r, k, v) in s.wire
    case ListHints(c) => true
    case HandOff(c, r, k, v, acked) => (c, r, k, v) in s.listed
    case DropHint(c, r, k, version) => (c, r, k, version) in s.flushed
  }

  ghost predicate CanReport(cfg: Config, s: State, id: nat, r: Node) {
    && id in s.ops && s.ops[id].phase.Writing? && r in cfg.owners(s.ops[id].key)
    && r !in s.ops[id].phase.acks && r !in s.ops[id].phase.errors
  }

  function WithPhase(s: State, id: nat, p: Phase): State
    requires id in s.ops
  {
    s.(ops := s.ops[id := s.ops[id].(phase := p)])
  }

  function WithReply(s: State, id: nat, r: Node, reply: Reply): State
    requires id in s.ops
  {
    s.(ops := s.ops[id := s.ops[id].(replies := s.ops[id].replies[r := reply])])
  }

  function LookupAt(s: State, r: Node, k: Key): Option<Value> {
    if (r, k) in s.held then Some(s.held[(r, k)]) else None
  }

  function Begin(cfg: Config, s: State, c: Node, k: Key, kind: Kind): Op {
    Op(kind, c, k, Reading, map[],
       set kv | kv in s.acked && kv.0 == k :: kv.1,
       map r | r in cfg.owners(k) && (r, k) in s.held :: s.held[(r, k)].version)
  }

  /** The version `nextVersion` allocates: above every counter read and every counter allocated here. */
  function NextVersion(cfg: Config, s: State, op: Op): Version {
    Version(Max(MaxCounter(cfg.owners(op.key), op.replies), Counter(s, op.coordinator)) + 1, op.coordinator)
  }

  /** The repairs a read sends: the newest copy, to every replica that answered with less. */
  ghost function Repairs(op: Op, latest: Option<Value>): set<(Node, Key, Value)> {
    if latest.None? then {}
    else set r | r in op.replies && op.replies[r].Answer?
                 && (op.replies[r].value.None? || !Leq(latest.value.version, op.replies[r].value.value.version))
           :: (r, op.key, latest.value)
  }

  /** The state after an enabled step. */
  ghost function Do(cfg: Config, s: State, step: Step): State
    requires Enabled(cfg, s, step)
  {
    match step
    case Start(id, c, k, kind) => s.(ops := s.ops[id := Begin(cfg, s, c, k, kind)])
    case ReadOk(id, r) => WithReply(s, id, r, Answer(LookupAt(s, r, s.ops[id].key)))
    case ReadFailed(id, r) => WithReply(s, id, r, NoReply)
    case Allocate(id) =>
      var op := s.ops[id];
      var version := NextVersion(cfg, s, op);
      WithPhase(s, id, Writing(ValueFor(op.kind, version), {}, {}))
        .(counters := s.counters[op.coordinator := version.counter], issued := s.issued[version := id])
    case Refuse(id) => WithPhase(s, id, Refused)
    case WriteAcked(id, r) =>
      var op := s.ops[id];
      WithPhase(s, id, op.phase.(acks := op.phase.acks + {r}))
        .(held := Write(s.held, r, op.key, op.phase.value))
    case WriteFailed(id, r) =>
      var op := s.ops[id];
      WithPhase(s, id, op.phase.(errors := op.phase.errors + {r}))
        .(hints := AddHint(s.hints, op.coordinator, r, op.key, op.phase.value),
          wire := s.wire + {(r, op.key, op.phase.value)})
    case Return(id) =>
      var op := s.ops[id];
      var ok := |op.phase.acks| >= cfg.writeQuorum;
      WithPhase(s, id, Returned(op.phase.value, ok))
        .(acked := if ok then s.acked + {(op.key, op.phase.value.version)} else s.acked)
    case Select(id, latest) => WithPhase(s, id, Selected(latest)).(wire := s.wire + Repairs(s.ops[id], latest))
    case Arrive(r, k, v) => s.(held := Write(s.held, r, k, v))
    case ListHints(c) => s.(listed := s.listed + set h | h in s.hints && h.0 == c :: (h.0, h.1, h.2, s.hints[h]))
    case HandOff(c, r, k, v, acked) =>
      if acked then s.(held := Write(s.held, r, k, v), flushed := s.flushed + {(c, r, k, v.version)})
      else s.(wire := s.wire + {(r, k, v)})
    case DropHint(c, r, k, version) =>
      s.(hints := RemoveHint(s.hints, c, r, k, version), flushed := s.flushed - {(c, r, k, version)})
  }

  /** `s` is reached by the enabled steps among `steps`, in order. */
  ghost function Run(cfg: Config, steps: seq<Step>): State {
    if steps == [] then INITIAL
    else
      var s := Run(cfg, steps[..|steps| - 1]);
      var step := steps[|steps| - 1];
      if Enabled(cfg, s, step) then Do(cfg, s, step) else s
  }

  // ------------------------------------------------------------------ what every step keeps

  ghost predicate Holds(s: State, r: Node, k: Key, version: Version) {
    (r, k) in s.held && Leq(version, s.held[(r, k)].version)
  }

  /** The replica holds the version, or the coordinator still has a hint at least that new for it. */
  ghost predicate Covered(s: State, c: Node, r: Node, k: Key, version: Version) {
    Holds(s, r, k, version) || ((c, r, k) in s.hints && Leq(version, s.hints[(c, r, k)].version))
  }

  predicate Allocated(op: Op) {
    op.phase.Writing? || op.phase.Returned?
  }

  /** `v` is the very value its version was allocated for, under key `k`. */
  ghost predicate Genuine(s: State, k: Key, v: Value) {
    && v.version in s.issued && s.issued[v.version] in s.ops
    && var op := s.ops[s.issued[v.version]];
       Allocated(op) && op.key == k && op.phase.value == v
  }

  ghost function Holders(cfg: Config, s: State, k: Key, version: Version): set<Node> {
    set r | r in cfg.owners(k) && Holds(s, r, k, version)
  }

  ghost function ViewHolders(op: Op, version: Version): set<Node> {
    set r | r in op.view && Leq(version, op.view[r])
  }

  /** No two allocations share a version, and counters stay ahead of every version issued. */
  ghost predicate IssuedOnce(s: State) {
    && (forall v :: v in s.issued ==> v.counter <= Counter(s, v.nodeId))
    && (forall id :: id in s.ops && Allocated(s.ops[id]) ==>
          s.ops[id].phase.value.version in s.issued && s.issued[s.ops[id].phase.value.version] == id)
    && (forall v :: v in s.issued ==>
         s.issued[v] in s.ops && Allocated(s.ops[s.issued[v]]) && s.ops[s.issued[v]].phase.value.version == v)
  }

  /** Every copy anywhere is genuine. */
  ghost predicate AllGenuine(s: State) {
    && (forall r, k :: (r, k) in s.held ==> Genuine(s, k, s.held[(r, k)]))
    && (forall c, r, k :: (c, r, k) in s.hints ==> Genuine(s, k, s.hints[(c, r, k)]))
    && (forall r, k, v :: (r, k, v) in s.wire ==> Genuine(s, k, v))
    && (forall c, r, k, v :: (c, r, k, v) in s.listed ==> Genuine(s, k, v))
    && (forall id, r :: id in s.ops && r in s.ops[id].replies && Found(s.ops[id].replies[r]).Some? ==>
          Genuine(s, s.ops[id].key, Found(s.ops[id].replies[r]).value))
  }

  /** What returned success is recorded as acknowledged. */
  ghost predicate ReturnsAcked(s: State) {
    forall id :: id in s.ops && s.ops[id].phase.Returned? && s.ops[id].phase.ok ==>
      (s.ops[id].key, s.ops[id].phase.value.version) in s.acked
  }

  /** Every acknowledged version is held by a write quorum of its owners. */
  ghost predicate AckedHeld(cfg: Config, s: State) {
    forall k, v :: (k, v) in s.acked ==> |Holders(cfg, s, k, v)| >= cfg.writeQuorum
  }

  /** What an operation has read and written so far is still backed by the replicas. */
  ghost predicate OpBacked(cfg: Config, s: State, op: Op) {
    && op.view.Keys <= Elements(cfg.owners(op.key))
    && op.replies.Keys <= Elements(cfg.owners(op.key))
    && (forall v :: v in op.floor ==> |ViewHolders(op, v)| >= cfg.writeQuorum)
    && (forall r :: r in op.view ==> Holds(s, r, op.key, op.view[r]))
    && (forall r :: r in op.view && r in op.replies && op.replies[r].Answer? ==>
          op.replies[r].value.Some? && Leq(op.view[r], op.replies[r].value.value.version))
  }

  /** Every replica a round in progress has heard from is covered; the acknowledged ones hold the value. */
  ghost predicate RoundCovered(cfg: Config, s: State, op: Op) {
    op.phase.Writing? ==>
      && op.phase.acks <= Elements(cfg.owners(op.key))
      && (forall r :: r in op.phase.acks ==> Holds(s, r, op.key, op.phase.value.version))
      && (forall r :: r in op.phase.errors ==> Covered(s, op.coordinator, r, op.key, op.phase.value.version))
  }

  /** After a finished round all owners are covered. */
  ghost predicate FinishedCovered(cfg: Config, s: State) {
    forall id :: id in s.ops && s.ops[id].phase.Returned? ==> AllCovered(cfg, s, s.ops[id])
  }

  ghost predicate AllCovered(cfg: Config, s: State, op: Op)
    requires op.phase.Returned?
  {
    forall r :: r in cfg.owners(op.key) ==> Covered(s, op.coordinator, r, op.key, op.phase.value.version)
  }

  /** Later operations see at least what was acknowledged before they started. */
  ghost predicate RealTime(op: Op) {
    && (Allocated(op) ==> forall v :: v in op.floor ==> v.counter < op.phase.value.version.counter)
    && (op.phase.Selected? ==> forall v :: v in op.floor ==>
         op.phase.latest.Some? && Leq(v, op.phase.latest.value.version))
  }

  ghost predicate FlushedHeld(s: State) {
    forall c, r, k, v :: (c, r, k, v) in s.flushed ==> Holds(s, r, k, v)
  }

  /** An operation is backed by the replicas, covered, and in real-time order. */
  ghost predicate OpFine(cfg: Config, s: State, op: Op) {
    OpBacked(cfg, s, op) && RoundCovered(cfg, s, op) && RealTime(op)
  }

  ghost predicate OpsFine(cfg: Config, s: State) {
    forall id :: id in s.ops ==> OpFine(cfg, s, s.ops[id])
  }

  /** What real-time order rests on. It does not depend on counters, and on hints only while a round lasts. */
  ghost predicate Core(cfg: Config, s: State) {
    AckedHeld(cfg, s) && FlushedHeld(s) && OpsFine(cfg, s) && ReturnsAcked(s)
  }

  ghost predicate Inv(cfg: Config, s: State) {
    IssuedOnce(s) && AllGenuine(s) && Core(cfg, s) && FinishedCovered(cfg, s)
  }

  // ------------------------------------------------------------------ monotonicity

  lemma WriteKeeps(s: State, t: State, r: Node, k: Key, v: Value)
    requires t.held == Write(s.held, r, k, v)
    ensures forall q, l, w :: Holds(s, q, l, w) ==> Holds(t, q, l, w)
    ensures Holds(t, r, k, v.version)
  {
    VersionsTotallyOrdered();
    hide Leq;
  }

  /** No step makes a replica forget a version it holds, or uncovers a version a round has covered. */
  lemma StepKeeps(cfg: Config, s: State, step: Step)
    requires Enabled(cfg, s, step) && FlushedHeld(s)
    ensures var t := Do(cfg, s, step);
            && (forall r, k, v :: Holds(s, r, k, v) ==> Holds(t, r, k, v))
            && (forall c, r, k, v :: Covered(s, c, r, k, v) ==> Covered(t, c, r, k, v))
  {
    hide MaxCounter, IsNewest, Leq;
    var t := Do(cfg, s, step);
    match step {
      case WriteAcked(id, r) => WriteKeeps(s, t, r, s.ops[id].key, s.ops[id].phase.value);
      case Arrive(r, k, v) => WriteKeeps(s, t, r, k, v);
      case HandOff(c, r, k, v, acked) => if acked { WriteKeeps(s, t, r, k, v); }
      case WriteFailed(id, r) => VersionsTotallyOrdered();
      case DropHint(c, r, k, version) =>
        VersionsTotallyOrdered();
        assert Holds(s, r, k, version);
      case _ =>
    }
  }

  /** The fixed facts about an operation: its history variables, and its outcome once it has one. */
  predicate OpKept(a: Op, b: Op) {
    && b.kind == a.kind && b.coordinator == a.coordinator && b.key == a.key && b.floor == a.floor
    && (Allocated(a) ==> Allocated(b) && b.phase.value == a.phase.value)
    && (a.phase.Selected? ==> b.phase == a.phase)
  }

  lemma StepKeepsOp(cfg: Config, s: State, step: Step, id: nat)
    requires Enabled(cfg, s, step) && id in s.ops
    ensures id in Do(cfg, s, step).ops && OpKept(s.ops[id], Do(cfg, s, step).ops[id])
  {
    hide MaxCounter, IsNewest, Leq, Write, AddHint, RemoveHint, Repairs, NextVersion;
  }

  lemma SameAllocation(cfg: Config, s: State, step: Step, id: nat)
    requires Enabled(cfg, s, step) && !step.Allocate? && id in Do(cfg, s, step).ops
    ensures var t := Do(cfg, s, step);
            && (id in s.ops ==> Allocated(t.ops[id]) == Allocated(s.ops[id]))
            && (Allocated(t.ops[id]) ==> id in s.ops && t.ops[id].phase.value == s.ops[id].phase.value)
  {
    hide MaxCounter, IsNewest, Leq, Write, AddHint, RemoveHint, Repairs, NextVersion;
  }

  lemma SameHistory(cfg: Config, s: State, step: Step)
    requires Enabled(cfg, s, step) && !step.Allocate?
    ensures var t := Do(cfg, s, step); t.issued == s.issued && t.counters == s.counters && s.ops.Keys <= t.ops.Keys
  {
    hide MaxCounter, IsNewest, Leq, Write, AddHint, RemoveHint, Repairs, NextVersion, Allocated, Begin;
  }

  lemma SameAllocations(cfg: Config, s: State, step: Step)
    requires Enabled(cfg, s, step) && !step.Allocate?
    ensures var t := Do(cfg, s, step);
            && t.issued == s.issued && t.counters == s.counters
            && s.ops.Keys <= t.ops.Keys
            && (forall id :: id in s.ops ==> Allocated(t.ops[id]) == Allocated(s.ops[id]))
            && (forall id :: id in t.ops && Allocated(t.ops[id]) ==>
                 id in s.ops && t.ops[id].phase.value == s.ops[id].phase.value)
  {
    SameHistory(cfg, s, step);
    var t := Do(cfg, s, step);
    hide Do, Enabled;
    forall id | id in t.ops
      ensures id in s.ops ==> Allocated(t.ops[id]) == Allocated(s.ops[id])
      ensures Allocated(t.ops[id]) ==> id in s.ops && t.ops[id].phase.value == s.ops[id].phase.value
    {
      SameAllocation(cfg, s, step, id);
    }
  }

  /** A genuine value stays genuine. */
  lemma StepKeepsGenuine(cfg: Config, s: State, step: Step)
    requires Enabled(cfg, s, step) && IssuedOnce(s)
    ensures forall k, v :: Genuine(s, k, v) ==> Genuine(Do(cfg, s, step), k, v)
  {
    hide MaxCounter;
    var t := Do(cfg, s, step);
    assert forall v :: v in s.issued ==> v in t.issued && t.issued[v] == s.issued[v] by {
      if step.Allocate? {
        assert NextVersion(cfg, s, s.ops[step.id]) !in s.issued;
      } else {
        SameAllocations(cfg, s, step);
      }
    }
    hide Do, NextVersion, Enabled;
    forall k, v | Genuine(s, k, v) ensures Genuine(t, k, v) {
      StepKeepsOp(cfg, s, step, s.issued[v.version]);
    }
  }

  // ------------------------------------------------------------------ preservation

  lemma IssuedOnceSame(s: State, t: State)
    requires IssuedOnce(s) && t.issued == s.issued && t.counters == s.counters && s.ops.Keys <= t.ops.Keys
    requires forall id :: id in s.ops ==> Allocated(t.ops[id]) == Allocated(s.ops[id])
    requires forall id :: id in t.ops && Allocated(t.ops[id]) ==>
               id in s.ops && t.ops[id].phase.value == s.ops[id].phase.value
    ensures IssuedOnce(t)
  {
  }

  lemma IssuedOnceKept(cfg: Config, s: State, step: Step)
    requires Enabled(cfg, s, step) && IssuedOnce(s)
    ensures IssuedOnce(Do(cfg, s, step))
  {
    hide Do, Enabled, IssuedOnce, Allocated;
    if step.Allocate? {
      assert step == Allocate(step.id);
      AllocationIsNew(cfg, s, step.id);
    } else {
      SameAllocations(cfg, s, step);
      IssuedOnceSame(s, Do(cfg, s, step));
    }
  }

  lemma AllocationIsNew(cfg: Config, s: State, id: nat)
    requires Enabled(cfg, s, Allocate(id)) && IssuedOnce(s)
    ensures IssuedOnce(Do(cfg, s, Allocate(id)))
  {
    hide MaxCounter;
    var version, value := NextVersion(cfg, s, s.ops[id]), ValueFor(s.ops[id].kind, NextVersion(cfg, s, s.ops[id]));
    IssueFresh(s, Do(cfg, s, Allocate(id)), id, value);
  }

  lemma IssueFresh(s: State, t: State, id: nat, value: Value)
    requires IssuedOnce(s) && id in s.ops && !Allocated(s.ops[id])
    requires value.version.counter > Counter(s, value.version.nodeId)
    requires t.issued == s.issued[value.version := id]
    requires t.counters == s.counters[value.version.nodeId := value.version.counter]
    requires t.ops == s.ops[id := s.ops[id].(phase := Writing(value, {}, {}))]
    ensures IssuedOnce(t)
  {
  }

  lemma WriteGenuine(s: State, t: State, r: Node, k: Key, v: Value)
    requires t.held == Write(s.held, r, k, v) && Genuine(t, k, v)
    requires forall q, l :: (q, l) in s.held ==> Genuine(t, l, s.held[(q, l)])
    ensures forall q, l :: (q, l) in t.held ==> Genuine(t, l, t.held[(q, l)])
  {
    hide Genuine, Leq;
  }

  lemma AllocatedGenuine(s: State, id: nat)
    requires IssuedOnce(s) && id in s.ops && Allocated(s.ops[id])
    ensures Genuine(s, s.ops[id].key, s.ops[id].phase.value)
  {
  }

  lemma RepairsGenuine(s: State, op: Op, latest: Option<Value>)
    requires IsNewest(op.replies, latest)
    requires forall r :: r in op.replies && Found(op.replies[r]).Some? ==>
               Genuine(s, op.key, Found(op.replies[r]).value)
    ensures forall r, k, v :: (r, k, v) in Repairs(op, latest) ==> Genuine(s, k, v)
  {
    hide Genuine;
  }

  lemma AllGenuineKept(cfg: Config, s: State, step: Step)
    requires Enabled(cfg, s, step) && IssuedOnce(s) && AllGenuine(s)
    ensures AllGenuine(Do(cfg, s, step))
  {
    StepKeepsGenuine(cfg, s, step);
    hide Do, Enabled, AllGenuine, Genuine;
    match step {
      case WriteAcked(_, _) => ReportGenuine(cfg, s, step);
      case WriteFailed(_, _) => ReportGenuine(cfg, s, step);
      case Arrive(_, _, _) => DeliveryGenuine(cfg, s, step);
      case HandOff(_, _, _, _, _) => DeliveryGenuine(cfg, s, step);
      case Select(_, _) => SelectGenuine(cfg, s, step);
      case _ => QuietGenuine(cfg, s, step);
    }
  }

  ghost predicate StayGenuine(s: State, t: State) {
    forall k, v :: Genuine(s, k, v) ==> Genuine(t, k, v)
  }

  lemma ReportGenuine(cfg: Config, s: State, step: Step)
    requires Enabled(cfg, s, step) && IssuedOnce(s) && AllGenuine(s) && StayGenuine(s, Do(cfg, s, step))
    requires step.WriteAcked? || step.WriteFailed?
    ensures AllGenuine(Do(cfg, s, step))
  {
    hide MaxCounter, IsNewest, Leq, Write, Repairs, NextVersion;
    AllocatedGenuine(s, step.id);
    hide Genuine, IssuedOnce;
    if step.WriteAcked? {
      WriteGenuine(s, Do(cfg, s, step), step.r, s.ops[step.id].key, s.ops[step.id].phase.value);
    }
  }

  lemma DeliveryGenuine(cfg: Config, s: State, step: Step)
    requires Enabled(cfg, s, step) && AllGenuine(s) && StayGenuine(s, Do(cfg, s, step))
    requires step.Arrive? || step.HandOff?
    ensures AllGenuine(Do(cfg, s, step))
  {
    hide MaxCounter, IsNewest, Leq, Write, Repairs, NextVersion, Genuine;
    if step.Arrive? || step.acked {
      WriteGenuine(s, Do(cfg, s, step), step.r, step.k, step.v);
    }
  }

  lemma SelectGenuine(cfg: Config, s: State, step: Step)
    requires Enabled(cfg, s, step) && AllGenuine(s) && StayGenuine(s, Do(cfg, s, step)) && step.Select?
    ensures AllGenuine(Do(cfg, s, step))
  {
    hide MaxCounter, Leq, Write, NextVersion, Genuine;
    RepairsGenuine(s, s.ops[step.id], step.latest);
    hide IsNewest, Repairs;
  }

  lemma QuietGenuine(cfg: Config, s: State, step: Step)
    requires Enabled(cfg, s, step) && AllGenuine(s) && StayGenuine(s, Do(cfg, s, step))
    requires !step.WriteAcked? && !step.WriteFailed? && !step.Arrive? && !step.HandOff? && !step.Select?
    ensures AllGenuine(Do(cfg, s, step))
  {
    hide MaxCounter, IsNewest, Leq, Write, AddHint, Repairs, NextVersion, Genuine;
  }

  lemma HoldersGrow(cfg: Config, s: State, t: State, k: Key, v: Version)
    requires forall r :: Holds(s, r, k, v) ==> Holds(t, r, k, v)
    ensures |Holders(cfg, s, k, v)| <= |Holders(cfg, t, k, v)|
  {
    SubsetSize(Holders(cfg, s, k, v), Holders(cfg, t, k, v));
  }

  lemma AckedHeldKept(cfg: Config, s: State, step: Step)
    requires Enabled(cfg, s, step) && AckedHeld(cfg, s) && FlushedHeld(s) && OpsFine(cfg, s)
    ensures AckedHeld(cfg, Do(cfg, s, step))
  {
    hide MaxCounter, IsNewest, Leq, Write, AddHint, RemoveHint, Repairs, Holds, Covered, OpBacked, RealTime,
         FlushedHeld, Holders;
    var t := Do(cfg, s, step);
    StepKeeps(cfg, s, step);
    forall k, v | (k, v) in t.acked ensures |Holders(cfg, t, k, v)| >= cfg.writeQuorum {
      HoldersGrow(cfg, s, t, k, v);
      if (k, v) !in s.acked {
        var op := s.ops[step.id];
        AcksAreHolders(cfg, s, op);
      }
    }
  }

  lemma AcksAreHolders(cfg: Config, s: State, op: Op)
    requires op.phase.Writing? && RoundCovered(cfg, s, op)
    ensures |op.phase.acks| <= |Holders(cfg, s, op.key, op.phase.value.version)|
  {
    hide Holds, Covered;
    SubsetSize(op.phase.acks, Holders(cfg, s, op.key, op.phase.value.version));
  }

  lemma FlushedHeldKept(cfg: Config, s: State, step: Step)
    requires Enabled(cfg, s, step) && FlushedHeld(s)
    ensures FlushedHeld(Do(cfg, s, step))
  {
    hide MaxCounter, IsNewest, Leq, Write, AddHint, RemoveHint, Repairs, Holds;
    var t := Do(cfg, s, step);
    StepKeeps(cfg, s, step);
    if step.HandOff? && step.acked {
      WriteKeeps(s, t, step.r, step.k, step.v);
    }
  }

  /** What backs an operation keeps backing it. */
  lemma OpBackedGrows(cfg: Config, s: State, t: State, op: Op)
    requires OpBacked(cfg, s, op) && forall r, k, v :: Holds(s, r, k, v) ==> Holds(t, r, k, v)
    ensures OpBacked(cfg, t, op)
  {
    hide Holds, Leq, ViewHolders;
  }

  lemma RoundGrows(cfg: Config, s: State, t: State, op: Op)
    requires RoundCovered(cfg, s, op)
    requires forall r, k, v :: Holds(s, r, k, v) ==> Holds(t, r, k, v)
    requires forall c, r, k, v :: Covered(s, c, r, k, v) ==> Covered(t, c, r, k, v)
    ensures RoundCovered(cfg, t, op)
  {
    hide Holds, Covered;
  }

  /** A fresh operation starts backed: its view is exactly what the replicas hold now. */
  lemma BeginBacked(cfg: Config, s: State, c: Node, k: Key, kind: Kind)
    requires AckedHeld(cfg, s)
    ensures OpBacked(cfg, s, Begin(cfg, s, c, k, kind))
  {
    var op := Begin(cfg, s, c, k, kind);
    VersionsTotallyOrdered();
    hide Leq;
    forall v | v in op.floor ensures |ViewHolders(op, v)| >= cfg.writeQuorum {
      assert (k, v) in s.acked;
      assert ViewHolders(op, v) == Holders(cfg, s, k, v);
    }
  }

  /** What a replica answers is at least what it held when the operation started. */
  lemma ReadBacked(cfg: Config, s: State, op: Op, r: Node, reply: Reply)
    requires OpBacked(cfg, s, op) && r in cfg.owners(op.key)
    requires reply == NoReply || reply == Answer(LookupAt(s, r, op.key))
    ensures OpBacked(cfg, s, op.(replies := op.replies[r := reply]))
  {
    var q := op.(replies := op.replies[r := reply]);
    hide Leq;
    assert forall v :: ViewHolders(q, v) == ViewHolders(op, v);
  }

  /** A read quorum contains a replica whose answer is at least any version acknowledged before the start. */
  lemma QuorumSeesFloor(cfg: Config, s: State, op: Op, v: Version) returns (r: Node)
    requires Sound(cfg) && OpBacked(cfg, s, op) && v in op.floor
    requires |Answered(op.replies)| >= cfg.readQuorum
    ensures r in op.replies && Found(op.replies[r]).Some? && Leq(v, Found(op.replies[r]).value.version)
    ensures r in cfg.owners(op.key)
  {
    var owners := Elements(cfg.owners(op.key));
    DistinctSize(cfg.owners(op.key));
    QuorumsMeet(Answered(op.replies), ViewHolders(op, v), owners);
    r :| r in Answered(op.replies) && r in ViewHolders(op, v);
    LeqTransitive(v, op.view[r], op.replies[r].value.value.version);
  }

  lemma {:induction false} MaxCounterBounds(owners: seq<Node>, replies: map<Node, Reply>, r: Node)
    requires r in owners && r in replies && Found(replies[r]).Some?
    ensures Found(replies[r]).value.version.counter <= MaxCounter(owners, replies)
  {
    var n := |owners| - 1;
    if r in owners[..n] {
      MaxCounterBounds(owners[..n], replies, r);
    } else {
      assert owners == owners[..n] + [owners[n]];
    }
  }

  lemma LeqCounter(a: Version, b: Version)
    requires Leq(a, b)
    ensures a.counter <= b.counter
  {
  }

  lemma AllocateRealTime(cfg: Config, s: State, op: Op, v: Version)
    requires Sound(cfg) && OpBacked(cfg, s, op) && v in op.floor
    requires |Answered(op.replies)| >= cfg.readQuorum
    ensures v.counter < NextVersion(cfg, s, op).counter
  {
    hide OpBacked, Leq, Sound;
    var r := QuorumSeesFloor(cfg, s, op, v);
    LeqCounter(v, Found(op.replies[r]).value.version);
    MaxCounterBounds(cfg.owners(op.key), op.replies, r);
  }

  lemma SelectRealTime(cfg: Config, s: State, op: Op, latest: Option<Value>, v: Version)
    requires Sound(cfg) && OpBacked(cfg, s, op) && v in op.floor
    requires |Answered(op.replies)| >= cfg.readQuorum && IsNewest(op.replies, latest)
    ensures latest.Some? && Leq(v, latest.value.version)
  {
    hide OpBacked, Leq, Sound;
    var r := QuorumSeesFloor(cfg, s, op, v);
    LeqTransitive(v, Found(op.replies[r]).value.version, latest.value.version);
  }

  /** An operation that a step leaves alone stays fine. */
  lemma OtherOpFine(cfg: Config, s: State, step: Step, id: nat)
    requires Enabled(cfg, s, step) && Core(cfg, s) && id in s.ops
    ensures OpFine(cfg, Do(cfg, s, step), s.ops[id])
  {
    hide AckedHeld;
    StepKeeps(cfg, s, step);
    hide Do, Enabled, Leq, Holds, Covered, FlushedHeld;
    assert OpFine(cfg, s, s.ops[id]);
    OpBackedGrows(cfg, s, Do(cfg, s, step), s.ops[id]);
    RoundGrows(cfg, s, Do(cfg, s, step), s.ops[id]);
  }

  lemma StartFine(cfg: Config, s: State, step: Step)
    requires Enabled(cfg, s, step) && Core(cfg, s) && step.Start?
    ensures OpFine(cfg, Do(cfg, s, step), Do(cfg, s, step).ops[step.id])
  {
    hide MaxCounter, Leq, Write, AddHint, Repairs, Holds, Covered, AckedHeld, FlushedHeld, OpBacked, OpsFine;
    StepKeeps(cfg, s, step);
    BeginBacked(cfg, s, step.coordinator, step.key, step.kind);
    OpBackedGrows(cfg, s, Do(cfg, s, step), Do(cfg, s, step).ops[step.id]);
  }

  lemma ReadFine(cfg: Config, s: State, step: Step)
    requires Enabled(cfg, s, step) && Core(cfg, s) && (step.ReadOk? || step.ReadFailed?)
    ensures OpFine(cfg, Do(cfg, s, step), Do(cfg, s, step).ops[step.id])
  {
    hide MaxCounter, Leq, Write, AddHint, Repairs, Holds, Covered, AckedHeld, FlushedHeld, OpBacked;
    StepKeeps(cfg, s, step);
    var op := s.ops[step.id];
    ReadBacked(cfg, s, op, step.r, if step.ReadOk? then Answer(LookupAt(s, step.r, op.key)) else NoReply);
    OpBackedGrows(cfg, s, Do(cfg, s, step), Do(cfg, s, step).ops[step.id]);
  }

  lemma DecideFine(cfg: Config, s: State, step: Step)
    requires Sound(cfg) && Enabled(cfg, s, step) && Core(cfg, s) && (step.Allocate? || step.Refuse? || step.Select?)
    ensures OpFine(cfg, Do(cfg, s, step), Do(cfg, s, step).ops[step.id])
  {
    hide MaxCounter, IsNewest, Leq, Repairs, Holds, Covered, AckedHeld, FlushedHeld, Sound, OpBacked, NextVersion;
    OtherOpFine(cfg, s, step, step.id);
    var t, op := Do(cfg, s, step), s.ops[step.id];
    SamePhaseBacked(cfg, t, op, t.ops[step.id].phase);
    if step.Allocate? {
      forall v | v in op.floor ensures v.counter < t.ops[step.id].phase.value.version.counter {
        AllocateRealTime(cfg, s, op, v);
      }
    } else if step.Select? {
      forall v | v in op.floor ensures step.latest.Some? && Leq(v, step.latest.value.version) {
        SelectRealTime(cfg, s, op, step.latest, v);
      }
    }
  }

  lemma RoundFine(cfg: Config, s: State, step: Step)
    requires Enabled(cfg, s, step) && Core(cfg, s) && (step.WriteAcked? || step.WriteFailed? || step.Return?)
    ensures OpFine(cfg, Do(cfg, s, step), Do(cfg, s, step).ops[step.id])
  {
    hide Leq, Write, AddHint, Holds, Covered, AckedHeld, FlushedHeld, OpBacked, OpsFine;
    OtherOpFine(cfg, s, step, step.id);
    var t, op := Do(cfg, s, step), s.ops[step.id];
    SamePhaseBacked(cfg, t, op, t.ops[step.id].phase);
    if step.WriteAcked? {
      WriteKeeps(s, t, step.r, op.key, op.phase.value);
    } else if step.WriteFailed? {
      AddedHintCovers(s, t, op.coordinator, step.r, op.key, op.phase.value);
    }
  }

  lemma UntouchedOps(cfg: Config, s: State, step: Step, id: nat)
    requires Enabled(cfg, s, step) && id in Do(cfg, s, step).ops
    requires step.Arrive? || step.ListHints? || step.HandOff? || step.DropHint? || step.id != id
    ensures id in s.ops && Do(cfg, s, step).ops[id] == s.ops[id]
  {
    hide MaxCounter, IsNewest, Leq, Write, AddHint, RemoveHint, Repairs, NextVersion, Begin;
  }

  /** After every step every operation is fine. */
  lemma StepOpFine(cfg: Config, s: State, step: Step, id: nat)
    requires Sound(cfg) && Enabled(cfg, s, step) && Core(cfg, s)
    requires id in Do(cfg, s, step).ops
    ensures OpFine(cfg, Do(cfg, s, step), Do(cfg, s, step).ops[id])
  {
    hide Do, Enabled, Core, OpFine, Sound;
    if step.Arrive? || step.ListHints? || step.HandOff? || step.DropHint? || step.id != id {
      UntouchedOps(cfg, s, step, id);
      OtherOpFine(cfg, s, step, id);
    } else if step.Start? {
      StartFine(cfg, s, step);
    } else if step.ReadOk? || step.ReadFailed? {
      ReadFine(cfg, s, step);
    } else if step.Allocate? || step.Refuse? || step.Select? {
      DecideFine(cfg, s, step);
    } else {
      RoundFine(cfg, s, step);
    }
  }

  lemma SamePhaseBacked(cfg: Config, s: State, op: Op, p: Phase)
    requires OpBacked(cfg, s, op)
    ensures OpBacked(cfg, s, op.(phase := p))
  {
    hide Holds, Leq;
    assert forall v :: ViewHolders(op.(phase := p), v) == ViewHolders(op, v);
  }

  lemma AddedHintCovers(s: State, t: State, c: Node, r: Node, k: Key, v: Value)
    requires t.hints == AddHint(s.hints, c, r, k, v)
    ensures Covered(t, c, r, k, v.version)
  {
    VersionsTotallyOrdered();
    hide Leq;
  }

  lemma OpsFineKept(cfg: Config, s: State, step: Step)
    requires Sound(cfg) && Enabled(cfg, s, step) && Core(cfg, s)
    ensures OpsFine(cfg, Do(cfg, s, step))
  {
    hide Core, Sound, OpFine, Enabled, Do;
    forall id | id in Do(cfg, s, step).ops
      ensures OpFine(cfg, Do(cfg, s, step), Do(cfg, s, step).ops[id])
    {
      StepOpFine(cfg, s, step, id);
    }
  }

  lemma ReturnsAckedKept(cfg: Config, s: State, step: Step)
    requires Enabled(cfg, s, step) && ReturnsAcked(s)
    ensures ReturnsAcked(Do(cfg, s, step))
  {
    hide Do, Enabled;
    var t := Do(cfg, s, step);
    AckedGrows(cfg, s, step);
    forall id | id in t.ops && t.ops[id].phase.Returned? && t.ops[id].phase.ok
      ensures (t.ops[id].key, t.ops[id].phase.value.version) in t.acked
    {
      if step == Return(id) {
        ReturnAcks(cfg, s, id);
      } else {
        ReturnedBefore(cfg, s, step, id);
      }
    }
  }

  lemma AckedGrows(cfg: Config, s: State, step: Step)
    requires Enabled(cfg, s, step)
    ensures s.acked <= Do(cfg, s, step).acked
  {
    hide Enabled, MaxCounter, IsNewest, Leq, Write, AddHint, RemoveHint, Repairs, NextVersion, Begin, LookupAt,
         ValueFor;
  }

  lemma ReturnAcks(cfg: Config, s: State, id: nat)
    requires Enabled(cfg, s, Return(id))
    ensures var t := Do(cfg, s, Return(id));
            id in t.ops && t.ops[id].phase.Returned? &&
            (t.ops[id].phase.ok ==> (t.ops[id].key, t.ops[id].phase.value.version) in t.acked)
  {
  }

  lemma ReturnedBefore(cfg: Config, s: State, step: Step, id: nat)
    requires Enabled(cfg, s, step) && step != Return(id) && id in Do(cfg, s, step).ops &&
             Do(cfg, s, step).ops[id].phase.Returned?
    ensures id in s.ops && s.ops[id] == Do(cfg, s, step).ops[id]
  {
    hide MaxCounter, IsNewest, Leq, Write, AddHint, RemoveHint, Repairs, NextVersion, Answered, LookupAt, ValueFor;
  }

  lemma FinishedCoveredKept(cfg: Config, s: State, step: Step)
    requires Enabled(cfg, s, step) && Core(cfg, s) && FinishedCovered(cfg, s)
    ensures FinishedCovered(cfg, Do(cfg, s, step))
  {
    hide Do, Enabled, AckedHeld, OpsFine, Covered, Holds;
    var t := Do(cfg, s, step);
    StepKeeps(cfg, s, step);
    forall id | id in t.ops && t.ops[id].phase.Returned?
      ensures AllCovered(cfg, t, t.ops[id])
    {
      if step == Return(id) {
        ReturnCovered(cfg, s, id);
      } else {
        ReturnedBefore(cfg, s, step, id);
      }
    }
  }

  lemma ReturnCovered(cfg: Config, s: State, id: nat)
    requires Enabled(cfg, s, Return(id)) && Core(cfg, s)
    ensures var t := Do(cfg, s, Return(id)); id in t.ops && t.ops[id].phase.Returned? && AllCovered(cfg, t, t.ops[id])
  {
    hide AckedHeld, ReturnsAcked, OpBacked, RealTime, Covered, Holds;
    StepKeeps(cfg, s, Return(id));
    assert OpFine(cfg, s, s.ops[id]);
    AcksCovered(s, s.ops[id]);
  }

  lemma AcksCovered(s: State, op: Op)
    requires op.phase.Writing?
    ensures forall r :: Holds(s, r, op.key, op.phase.value.version) ==>
              Covered(s, op.coordinator, r, op.key, op.phase.value.version)
  {
    hide Holds;
  }

  lemma CoreKept(cfg: Config, s: State, step: Step)
    requires Sound(cfg) && Enabled(cfg, s, step) && Core(cfg, s)
    ensures Core(cfg, Do(cfg, s, step))
  {
    ReturnsAckedKept(cfg, s, step);
    hide AckedHeld, FlushedHeld, OpsFine, ReturnsAcked, Sound, Enabled, Do;
    AckedHeldKept(cfg, s, step);
    FlushedHeldKept(cfg, s, step);
    OpsFineKept(cfg, s, step);
  }

  lemma InvKept(cfg: Config, s: State, step: Step)
    requires Sound(cfg) && Enabled(cfg, s, step) && Inv(cfg, s)
    ensures Inv(cfg, Do(cfg, s, step))
  {
    hide IssuedOnce, AllGenuine, Core, FinishedCovered, Sound, Enabled, Do;
    IssuedOnceKept(cfg, s, step);
    AllGenuineKept(cfg, s, step);
    CoreKept(cfg, s, step);
    FinishedCoveredKept(cfg, s, step);
  }

  /** The invariant holds after every interleaving of steps. */
  lemma {:induction false} InvAlways(cfg: Config, steps: seq<Step>)
    requires Sound(cfg)
    ensures Inv(cfg, Run(cfg, steps))
  {
    if steps != [] {
      var n := |steps| - 1;
      hide Inv, Sound, Enabled, Do;
      InvAlways(cfg, steps[..n]);
      if Enabled(cfg, Run(cfg, steps[..n]), steps[n]) {
        InvKept(cfg, Run(cfg, steps[..n]), steps[n]);
      }
    }
  }

  // ------------------------------------------------------------------ main results

  lemma OpKeptTransitive(a: Op, b: Op, c: Op)
    requires OpKept(a, b) && OpKept(b, c)
    ensures OpKept(a, c)
  {
  }

  /** One report of a round: the operation moves one replica; a success writes there, a failure adds one hint. */
  lemma ReportOne(cfg: Config, s: State, id: nat, r: Node, good: bool)
    requires CanReport(cfg, s, id, r)
    ensures var step := if good then WriteAcked(id, r) else WriteFailed(id, r);
            var op := s.ops[id];
            Enabled(cfg, s, step) &&
            var t := Do(cfg, s, step);
            && t.ops == s.ops[id := op.(phase :=
                 if good then Writing(op.phase.value, op.phase.acks + {r}, op.phase.errors)
                 else Writing(op.phase.value, op.phase.acks, op.phase.errors + {r}))]
            && t.held == (if good then Write(s.held, r, op.key, op.phase.value) else s.held)
            && t.hints == if good then s.hints else AddHint(s.hints, op.coordinator, r, op.key, op.phase.value)
  {
    hide Write, AddHint;
  }

  lemma RunMore(cfg: Config, before: seq<Step>, step: Step)
    ensures var s := Run(cfg, before);
            Run(cfg, before + [step]) == if Enabled(cfg, s, step) then Do(cfg, s, step) else s
  {
    hide Do, Enabled;
    assert (before + [step])[..|before|] == before;
  }

  lemma {:induction false} RunKeepsOp(cfg: Config, before: seq<Step>, after: seq<Step>, id: nat)
    requires id in Run(cfg, before).ops
    ensures id in Run(cfg, before + after).ops && OpKept(Run(cfg, before).ops[id], Run(cfg, before + after).ops[id])
  {
    hide Do, Enabled;
    if after == [] {
      assert before + after == before;
    } else {
      hide Run, OpKept;
      var n := |after| - 1;
      RunKeepsOp(cfg, before, after[..n], id);
      assert before + after == before + after[..n] + [after[n]];
      RunMore(cfg, before + after[..n], after[n]);
      var t := Run(cfg, before + after[..n]);
      if Enabled(cfg, t, after[n]) {
        StepKeepsOp(cfg, t, after[n], id);
        OpKeptTransitive(Run(cfg, before).ops[id], t.ops[id], Do(cfg, t, after[n]).ops[id]);
      }
    }
  }

  /**
   Real-time order. Whatever fails and however steps interleave: if write `a` returned success before
   operation `b` on the same key starts, then `b`, as a write, is allocated a strictly greater counter,
   and as a read selects a copy at least as new.
   */
  lemma RealTimeOrder(cfg: Config, before: seq<Step>, b: Step, after: seq<Step>, a: nat)
    requires Sound(cfg) && b.Start? && Enabled(cfg, Run(cfg, before), b)
    requires var s := Run(cfg, before);
             a in s.ops && s.ops[a].phase.Returned? && s.ops[a].phase.ok && s.ops[a].key == b.key
    ensures var version, t := Run(cfg, before).ops[a].phase.value.version, Run(cfg, before + [b] + after);
            && b.id in t.ops
            && (Allocated(t.ops[b.id]) ==> version.counter < t.ops[b.id].phase.value.version.counter)
            && (t.ops[b.id].phase.Selected? ==>
                  t.ops[b.id].phase.latest.Some? && Leq(version, t.ops[b.id].phase.latest.value.version))
  {
    var s := Run(cfg, before);
    InvAlways(cfg, before);
    assert (before + [b])[..|before|] == before;
    assert Run(cfg, before + [b]) == Do(cfg, s, b);
    AckedInFloor(cfg, s, b, a);
    hide Do, Enabled, Inv, Allocated, Leq, Sound;
    RunKeepsOp(cfg, before + [b], after, b.id);
    InvAlways(cfg, before + [b] + after);
    InRealTime(cfg, Run(cfg, before + [b] + after), b.id);
  }

  lemma AckedInFloor(cfg: Config, s: State, b: Step, a: nat)
    requires Core(cfg, s) && b.Start? && Enabled(cfg, s, b)
    requires a in s.ops && s.ops[a].phase.Returned? && s.ops[a].phase.ok && s.ops[a].key == b.key
    ensures b.id in Do(cfg, s, b).ops && s.ops[a].phase.value.version in Do(cfg, s, b).ops[b.id].floor
  {
    hide AckedHeld, FlushedHeld, OpsFine;
    assert (b.key, s.ops[a].phase.value.version) in s.acked;
  }

  lemma InRealTime(cfg: Config, s: State, id: nat)
    requires Core(cfg, s) && id in s.ops
    ensures RealTime(s.ops[id])
  {
    hide AckedHeld, FlushedHeld, RealTime;
    assert OpFine(cfg, s, s.ops[id]);
  }

  /** A copy of key `k` somewhere: in a store, a hint, a message on its way, or a listed hint. */
  ghost predicate CopyOf(s: State, k: Key, v: Value) {
    || (exists r :: (r, k) in s.held && s.held[(r, k)] == v)
    || (exists c, r :: (c, r, k) in s.hints && s.hints[(c, r, k)] == v)
    || (exists r :: (r, k, v) in s.wire)
    || (exists c, r :: (c, r, k, v) in s.listed)
  }

  /** Equal version means equal value, in every run and wherever the two copies are. */
  lemma EqualVersionEqualValue(cfg: Config, steps: seq<Step>, k: Key, v: Value, l: Key, w: Value)
    requires Sound(cfg)
    requires CopyOf(Run(cfg, steps), k, v) && CopyOf(Run(cfg, steps), l, w) && v.version == w.version
    ensures k == l && v == w
  {
    InvAlways(cfg, steps);
    CopiesGenuine(Run(cfg, steps), k, v);
    CopiesGenuine(Run(cfg, steps), l, w);
  }

  lemma CopiesGenuine(s: State, k: Key, v: Value)
    requires AllGenuine(s) && CopyOf(s, k, v)
    ensures Genuine(s, k, v)
  {
    hide Genuine;
  }

  /** No two write operations are ever allocated the same version. */
  lemma AllocationsUnique(cfg: Config, steps: seq<Step>, a: nat, b: nat)
    requires Sound(cfg)
    requires var s := Run(cfg, steps);
             a in s.ops && b in s.ops && Allocated(s.ops[a]) && Allocated(s.ops[b])
             && s.ops[a].phase.value.version == s.ops[b].phase.value.version
    ensures a == b
  {
    InvAlways(cfg, steps);
    hide AllGenuine, AckedHeld, FlushedHeld, OpsFine;
  }

  /** After a finished round each owner holds the version or is covered by a hint at least that new. */
  lemma FinishedRoundsCovered(cfg: Config, steps: seq<Step>, id: nat, r: Node)
    requires Sound(cfg)
    requires var s := Run(cfg, steps); id in s.ops && s.ops[id].phase.Returned? && r in cfg.owners(s.ops[id].key)
    ensures var s := Run(cfg, steps); Covered(s, s.ops[id].coordinator, r, s.ops[id].key, s.ops[id].phase.value.version)
  {
    InvAlways(cfg, steps);
    hide AllGenuine, AckedHeld, FlushedHeld, IssuedOnce, Covered;
  }

  /**
   Convergence, key by key. Once no write round on the key is in progress and no hint for it is left, all
   its owners hold the identical value, or all hold none; late messages still on the wire cannot matter.
   */
  lemma Converged(cfg: Config, steps: seq<Step>, k: Key, a: Node, b: Node)
    requires Sound(cfg) && a in cfg.owners(k) && b in cfg.owners(k)
    requires Settled(Run(cfg, steps), k)
    ensures LookupAt(Run(cfg, steps), a, k) == LookupAt(Run(cfg, steps), b, k)
  {
    var s := Run(cfg, steps);
    InvAlways(cfg, steps);
    hide Inv, Sound, Run, Settled, Leq;
    if (a, k) in s.held {
      OwnerCatchesUp(cfg, s, k, a, b);
    }
    if (b, k) in s.held {
      OwnerCatchesUp(cfg, s, k, b, a);
      CompareVersionSeparates(s.held[(a, k)].version, s.held[(b, k)].version);
      EqualVersions(s.held[(a, k)].version, s.held[(b, k)].version);
    }
  }

  /** No hint and no unfinished round for the key. */
  ghost predicate Settled(s: State, k: Key) {
    && (forall c, r :: (c, r, k) !in s.hints)
    && forall id :: id in s.ops && s.ops[id].key == k ==> !s.ops[id].phase.Writing?
  }

  lemma EqualVersions(a: Version, b: Version)
    requires Leq(a, b) && Leq(b, a)
    ensures a == b
  {
    CompareVersionSeparates(a, b);
  }

  lemma OwnerCatchesUp(cfg: Config, s: State, k: Key, a: Node, b: Node)
    requires Inv(cfg, s) && b in cfg.owners(k) && (a, k) in s.held && Settled(s, k)
    ensures (b, k) in s.held && Leq(s.held[(a, k)].version, s.held[(b, k)].version)
    ensures s.held[(a, k)].version == s.held[(b, k)].version ==> s.held[(a, k)] == s.held[(b, k)]
  {
    hide OpBacked, AckedHeld, FlushedHeld, Leq;
    var v := s.held[(a, k)];
    assert Genuine(s, k, v);
    var op := s.ops[s.issued[v.version]];
    assert OpFine(cfg, s, op);
    assert Covered(s, op.coordinator, b, k, v.version);
    assert Genuine(s, k, s.held[(b, k)]);
  }
}
