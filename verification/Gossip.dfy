/**
 The gossiping failure detector (internal/node/membership.go, probe.go, gossip.go).

 Times of the last success and failure are left out; they influence no decision.
 */
module Gossip {
  import opened Versions

  type Node = string

  datatype Status = Alive | Suspect | Dead

  function StatusText(s: Status): string {
    match s
    case Alive => "alive"
    case Suspect => "suspect"
    case Dead => "dead"
  }

  /** Unknown texts are taken as suspicion. */
  function ParseStatus(t: string): Status {
    if t == "alive" then Alive else if t == "suspect" then Suspect else if t == "dead" then Dead else Suspect
  }

  lemma StatusRoundTrip(s: Status)
    ensures ParseStatus(StatusText(s)) == s
  {
    assert "alive" != "suspect" by {
      assert |"alive"| != |"suspect"|;
    }
    assert |"dead"| != |"alive"| && |"dead"| != |"suspect"|;
  }

  /** The words on the wire, and that any other word is taken as suspicion. */
  lemma StatusWords(t: string)
    ensures ParseStatus(t) == Alive <==> t == "alive"
    ensures ParseStatus(t) == Dead <==> t == "dead"
    ensures StatusText(Alive) == "alive" && StatusText(Suspect) == "suspect" && StatusText(Dead) == "dead"
  {
    StatusRoundTrip(Alive);
    StatusRoundTrip(Dead);
  }

  datatype Member = Member(status: Status, failures: nat, incarnation: nat, version: nat)

  /** Go's zero value: what a lookup of an untracked node reads. */
  const ZERO := Member(Alive, 0, 0, 0)

  datatype Claim = Claim(node: Node, status: string, incarnation: nat, version: nat)

  type Table = map<Node, Member>

  function Entry(t: Table, n: Node): Member {
    if n in t then t[n] else ZERO
  }

  /** `newerMemberState`: by incarnation, then by version. */
  predicate NewerState(incarnation: nat, version: nat, local: Member) {
    incarnation > local.incarnation || (incarnation == local.incarnation && version > local.version)
  }

  function MarkedSuccess(t: Table, n: Node): Table {
    var m := Entry(t, n);
    t[n := Member(Alive, 0, m.incarnation, m.version + 1)]
  }

  function MarkedFailure(t: Table, n: Node): Table {
    var m := Entry(t, n);
    t[n := Member(if m.failures + 1 >= 3 then Dead else Suspect, m.failures + 1, m.incarnation, m.version + 1)]
  }

  /** One gossiped claim merged into the table of node `self`. */
  function MergeOne(t: Table, self: Node, c: Claim): Table {
    if c.node == self then
      var local := Entry(t, self);
      if ParseStatus(c.status) != Alive && NewerState(c.incarnation, c.version, local) &&
        c.incarnation >= local.incarnation
      then t[self := Member(Alive, 0, c.incarnation + 1, 1)]
      else t
    else if c.node !in t then
      t[c.node := Member(ParseStatus(c.status), 0, c.incarnation, c.version)]
    else if NewerState(c.incarnation, c.version, t[c.node]) then
      t[c.node := Member(ParseStatus(c.status), t[c.node].failures, c.incarnation, c.version)]
    else t
  }

  function Merged(t: Table, self: Node, cs: seq<Claim>): Table {
    if cs == [] then t else MergeOne(Merged(t, self, cs[..|cs| - 1]), self, cs[|cs| - 1])
  }

  // ------------------------------------------------------------------ what probes and claims decide

  /** The table after these probes of `n`, `true` for one that was answered. */
  function Probed(t: Table, n: Node, answers: seq<bool>): Table {
    if answers == [] then t
    else
      var u := Probed(t, n, answers[..|answers| - 1]);
      if answers[|answers| - 1] then MarkedSuccess(u, n) else MarkedFailure(u, n)
  }

  lemma ProbedMore(t: Table, n: Node, answers: seq<bool>, ok: bool)
    ensures var u := Probed(t, n, answers);
            Probed(t, n, answers + [ok]) == if ok then MarkedSuccess(u, n) else MarkedFailure(u, n)
  {
    assert (answers + [ok])[..|answers|] == answers;
  }

  /** `k` probes in a row that fail. */
  function Failing(k: nat): seq<bool> {
    seq(k, i => false)
  }

  /**
   Only the failures since the last answered probe count: none is alive, one or two are suspicion, three are death.
   Every probe raises the version, none the incarnation, and nothing is learned about other nodes.
   */
  lemma {:induction false} ProbesDecide(t: Table, n: Node, before: seq<bool>, k: nat)
    ensures var u := Probed(t, n, before + [true] + Failing(k));
            && n in u && u[n].failures == k
            && u[n].status == (if k == 0 then Alive else if k < 3 then Suspect else Dead)
            && u[n].incarnation == Entry(t, n).incarnation
            && u[n].version == Entry(t, n).version + |before| + 1 + k
            && (forall m :: m != n ==> (m in u <==> m in t) && (m in t ==> u[m] == t[m]))
  {
    hide Probed;
    if k == 0 {
      ProbedCounts(t, n, before);
      ProbedMore(t, n, before, true);
      assert before + [true] + Failing(0) == before + [true];
    } else {
      ProbesDecide(t, n, before, k - 1);
      ProbedMore(t, n, before + [true] + Failing(k - 1), false);
      assert before + [true] + Failing(k) == before + [true] + Failing(k - 1) + [false];
    }
  }

  /** Every probe raises the version by one and leaves the incarnation and all other entries alone. */
  lemma {:induction false} ProbedCounts(t: Table, n: Node, answers: seq<bool>)
    ensures var u := Probed(t, n, answers);
            && Entry(u, n).version == Entry(t, n).version + |answers|
            && Entry(u, n).incarnation == Entry(t, n).incarnation
            && (forall m :: m != n ==> (m in u <==> m in t) && (m in t ==> u[m] == t[m]))
  {
    if answers != [] {
      ProbedCounts(t, n, answers[..|answers| - 1]);
    }
  }

  /** The entry says what this claim says. */
  predicate Says(m: Member, c: Claim) {
    m.status == ParseStatus(c.status) && m.incarnation == c.incarnation && m.version == c.version
  }

  /** The claim is of a later incarnation, or of the same one and a later version. */
  predicate Later(c: Claim, m: Member) {
    c.incarnation > m.incarnation || (c.incarnation == m.incarnation && c.version > m.version)
  }

  /** Some of these claims is about this node. */
  predicate Mentioned(cs: seq<Claim>, n: Node) {
    exists i :: 0 <= i < |cs| && cs[i].node == n
  }

  /**
   Merging keeps the newest: afterwards no claim merged about another node is later than its entry, and the entry is
   the old one or says exactly what some claim said. Nodes neither known nor mentioned stay unknown.
   */
  lemma {:induction false} MergedIsNewest(t: Table, self: Node, cs: seq<Claim>, n: Node)
    requires n != self
    ensures var u := Merged(t, self, cs);
            && (n in u <==> n in t || Mentioned(cs, n))
            && (n in u ==>
                  && (forall i :: 0 <= i < |cs| && cs[i].node == n ==> !Later(cs[i], u[n]))
                  && ((n in t && u[n] == t[n]) ||
                      exists i :: 0 <= i < |cs| && cs[i].node == n && Says(u[n], cs[i])))
  {
    hide ParseStatus;
    if cs != [] {
      var k := |cs| - 1;
      MergedIsNewest(t, self, cs[..k], n);
      assert cs == cs[..k] + [cs[k]];
      assert forall i :: 0 <= i < k ==> cs[..k][i] == cs[i];
      MergeOneNewest(Merged(t, self, cs[..k]), self, cs[k], n);
      hide Merged, MergeOne;
      assert Mentioned(cs, n) <==> Mentioned(cs[..k], n) || cs[k].node == n;
    }
  }

  lemma MergeOneNewest(t: Table, self: Node, c: Claim, n: Node)
    requires n != self
    ensures var u := MergeOne(t, self, c);
            && (n in u <==> n in t || c.node == n)
            && (c.node != n && n in t ==> u[n] == t[n])
            && (c.node == n ==>
                  if n in t && !Later(c, t[n]) then u[n] == t[n] else Says(u[n], c))
            && (n in t ==> forall d: Claim :: Later(d, u[n]) ==> Later(d, t[n]))
  {
    hide ParseStatus;
  }

  /** Claims about the node itself only make it outbid those that doubt it and are later than its own entry. */
  lemma OwnEntryAfter(t: Table, self: Node, c: Claim)
    requires self in t && c.node == self
    ensures var u := MergeOne(t, self, c);
            u == if ParseStatus(c.status) != Alive && Later(c, t[self])
                 then t[self := Member(Alive, 0, c.incarnation + 1, 1)] else t
  {
  }

  class FailureDetector {
    const self: Node
    var members: Table

    /** `clock` is the start time in nanoseconds. */
    constructor (nodes: seq<Node>, self: Node, clock: nat)
      ensures this.self == self && members == StartTable(nodes, self, clock)
      ensures forall n :: n in members <==> n in nodes || n == self
      ensures forall n :: n in members ==>
                members[n] == if n == self then Member(Alive, 0, clock, 1) else Member(Alive, 0, 0, 0)
    {
      this.self := self;
      members := map[];
      new;
      var i := 0;
      while i < |nodes|
        invariant 0 <= i <= |nodes| && members == map n | n in nodes[..i] :: ZERO
      {
        members := members[nodes[i] := ZERO];
        i := i + 1;
      }
      assert nodes[..i] == nodes;
      members := members[self := Entry(members, self).(incarnation := clock, version := 1)];
    }

    method MarkSuccess(node: Node)
      modifies this
      ensures members == MarkedSuccess(old(members), node)
    {
      var state := Entry(members, node);
      state := state.(status := Alive, failures := 0);
      state := state.(version := state.version + 1);
      members := members[node := state];
    }

    method MarkFailure(node: Node)
      modifies this
      ensures members == MarkedFailure(old(members), node)
    {
      var state := Entry(members, node);
      state := state.(failures := state.failures + 1, version := state.version + 1);
      if state.failures >= 3 {
        state := state.(status := Dead);
      } else {
        state := state.(status := Suspect);
      }
      members := members[node := state];
    }

    method Merge(claims: seq<Claim>)
      modifies this
      ensures members == Merged(old(members), self, claims)
    {
      var i := 0;
      while i < |claims|
        invariant 0 <= i <= |claims| && members == Merged(old(members), self, claims[..i])
      {
        var remote := claims[i];
        assert claims[..i + 1][..i] == claims[..i];
        if remote.node == self {
          if ParseStatus(remote.status) != Alive &&
            NewerState(remote.incarnation, remote.version, Entry(members, self)) {
            RefuteSelf(remote);
          }
        } else if remote.node !in members {
          members := members[remote.node := Member(ParseStatus(remote.status), 0, remote.incarnation, remote.version)];
        } else if NewerState(remote.incarnation, remote.version, members[remote.node]) {
          var local := members[remote.node];
          members := members[remote.node :=
            local.(status := ParseStatus(remote.status), incarnation := remote.incarnation, version := remote.version)];
        }
        i := i + 1;
      }
      assert claims[..i] == claims;
    }

    method RefuteSelf(remote: Claim)
      modifies this
      ensures members == if remote.incarnation < Entry(old(members), self).incarnation then old(members)
                         else old(members)[self := Member(Alive, 0, remote.incarnation + 1, 1)]
    {
      var local := Entry(members, self);
      if remote.incarnation < local.incarnation {
        return;
      }
      members := members[self := Member(Alive, 0, remote.incarnation + 1, 1)];
    }

    /** A node already followed keeps its entry. */
    method TrackMember(node: Node)
      modifies this
      ensures members == if node in old(members) then old(members) else old(members)[node := ZERO]
    {
      if node in members {
        return;
      }
      members := members[node := ZERO];
    }

    method UntrackMember(member: Node)
      modifies this
      ensures members == old(members) - {member}
    {
      members := members - {member};
    }
  }

  function StartTable(nodes: seq<Node>, self: Node, clock: nat): Table {
    (map n | n in nodes :: ZERO)[self := Member(Alive, 0, clock, 1)]
  }

  // ------------------------------------------------------------------ the protocol

  /** All tables, and every gossip message ever sent and possibly still on its way. */
  datatype State = State(tables: map<Node, Table>, wire: set<seq<Claim>>)

  datatype Step =
    | ProbeOk(i: Node, target: Node)
    | ProbeFailed(i: Node, target: Node)
    | Send(i: Node, claims: seq<Claim>)
    | Receive(i: Node, sent: seq<Claim>, kept: seq<Claim>)
    | Track(i: Node, n: Node)
    | Untrack(i: Node, n: Node)

  function ClaimOf(n: Node, m: Member): Claim {
    Claim(n, StatusText(m.status), m.incarnation, m.version)
  }

  /** `GossipSnapshot`: one claim per table entry, in any order. */
  ghost predicate IsSnapshot(t: Table, claims: seq<Claim>) {
    && (forall c :: c in claims ==> c.node in t && c == ClaimOf(c.node, t[c.node]))
    && (forall n :: n in t ==> ClaimOf(n, t[n]) in claims)
  }

  ghost predicate Enabled(s: State, step: Step) {
    match step
    case ProbeOk(i, target) => i in s.tables && target != i
    case ProbeFailed(i, target) => i in s.tables && target != i
    case Send(i, claims) => i in s.tables && IsSnapshot(s.tables[i], claims)
    case Receive(i, sent, kept) => i in s.tables && sent in s.wire && forall c :: c in kept ==> c in sent
    case Track(i, n) => i in s.tables
    case Untrack(i, n) => i in s.tables && n != i
  }

  ghost function Do(s: State, step: Step): State
    requires Enabled(s, step)
  {
    match step
    case ProbeOk(i, target) => s.(tables := s.tables[i := MarkedSuccess(s.tables[i], target)])
    case ProbeFailed(i, target) => s.(tables := s.tables[i := MarkedFailure(s.tables[i], target)])
    case Send(_, claims) => s.(wire := s.wire + {claims})
    case Receive(i, _, kept) => s.(tables := s.tables[i := Merged(s.tables[i], i, kept)])
    case Track(i, n) => if n in s.tables[i] then s else s.(tables := s.tables[i := s.tables[i][n := ZERO]])
    case Untrack(i, n) => s.(tables := s.tables[i := s.tables[i] - {n}])
  }

  ghost function Run(s: State, steps: seq<Step>): State {
    if steps == [] then s
    else
      var t := Run(s, steps[..|steps| - 1]);
      if Enabled(t, steps[|steps| - 1]) then Do(t, steps[|steps| - 1]) else t
  }

  /** Every node started with a positive clock. */
  ghost predicate Initial(s: State) {
    && s.wire == {}
    && forall i :: i in s.tables ==> exists nodes, clock :: clock >= 1 && s.tables[i] == StartTable(nodes, i, clock)
  }

  /** What node `i`'s own entry makes of a claim about it. */
  predicate Bounded(own: Member, status: Status, incarnation: nat, version: nat) {
    && incarnation <= own.incarnation
    && (incarnation == own.incarnation ==> version >= 1)
    && (status != Alive && incarnation == own.incarnation ==> version > own.version)
  }

  /** Own entries are alive and in their first version; every claim anywhere is bounded by its subject's own entry. */
  ghost predicate Inv(s: State) {
    && OwnAlive(s)
    && (forall i, n :: i in s.tables && n in s.tables[i] && n in s.tables && n != i ==>
         BoundedEntry(s, n, s.tables[i][n]))
    && (forall claims, c :: claims in s.wire && c in claims && c.node in s.tables ==> BoundedClaim(s, c))
  }

  ghost predicate OwnAlive(s: State) {
    forall i :: i in s.tables ==>
      i in s.tables[i] && s.tables[i][i].status == Alive && s.tables[i][i].version == 1 &&
      s.tables[i][i].incarnation >= 1
  }

  ghost predicate BoundedEntry(s: State, n: Node, m: Member)
    requires n in s.tables
  {
    n in s.tables[n] && Bounded(s.tables[n][n], m.status, m.incarnation, m.version)
  }

  ghost predicate BoundedClaim(s: State, c: Claim)
    requires c.node in s.tables
  {
    c.node in s.tables[c.node] && Bounded(s.tables[c.node][c.node], ParseStatus(c.status), c.incarnation, c.version)
  }

  /** The part of the invariant that concerns one table and one batch of claims, against fixed own entries. */
  ghost predicate TableBounded(own: map<Node, Member>, self: Node, t: Table) {
    forall n :: n in t && n in own && n != self ==> Bounded(own[n], t[n].status, t[n].incarnation, t[n].version)
  }

  lemma BoundedRaised(was: Member, own: Member, status: Status, incarnation: nat, version: nat)
    requires Bounded(was, status, incarnation, version)
    requires own == was || own.incarnation > was.incarnation
    ensures Bounded(own, status, incarnation, version)
  {
  }

  ghost predicate ClaimsBounded(own: map<Node, Member>, claims: seq<Claim>) {
    forall c :: c in claims && c.node in own ==> Bounded(own[c.node], ParseStatus(c.status), c.incarnation, c.version)
  }

  /** Merging bounded claims keeps the table bounded, and only ever raises the own entry to a fresh alive one. */
  lemma {:induction false} MergeBounded(own: map<Node, Member>, self: Node, t: Table, claims: seq<Claim>)
    requires self in own && self in t && t[self] == own[self] && own[self].status == Alive && own[self].version == 1
    requires TableBounded(own, self, t) && ClaimsBounded(own, claims)
    ensures var u := Merged(t, self, claims);
            && self in u && TableBounded(own, self, u)
            && (u[self] == own[self] ||
               (u[self].status == Alive && u[self].version == 1 && u[self].incarnation == own[self].incarnation + 1))
  {
    if claims != [] {
      var k := |claims| - 1;
      assert forall c :: c in claims[..k] ==> c in claims;
      MergeBounded(own, self, t, claims[..k]);
      assert claims[k] in claims;
      hide Merged;
      MergeOneBounded(own, self, Merged(t, self, claims[..k]), claims[k]);
    }
  }

  lemma MergeOneBounded(own: map<Node, Member>, self: Node, t: Table, c: Claim)
    requires self in own && self in t && own[self].status == Alive && own[self].version == 1 &&
             TableBounded(own, self, t)
    requires t[self] == own[self] ||
             (t[self].status == Alive && t[self].version == 1 && t[self].incarnation == own[self].incarnation + 1)
    requires c.node in own ==> Bounded(own[c.node], ParseStatus(c.status), c.incarnation, c.version)
    ensures var u := MergeOne(t, self, c);
            && self in u && TableBounded(own, self, u)
            && (u[self] == own[self] ||
               (u[self].status == Alive && u[self].version == 1 && u[self].incarnation == own[self].incarnation + 1))
  {
  }

  ghost function Owns(s: State): map<Node, Member>
    requires OwnAlive(s)
  {
    map i | i in s.tables :: s.tables[i][i]
  }

  lemma SnapshotBounded(s: State, i: Node, claims: seq<Claim>)
    requires Inv(s) && i in s.tables && IsSnapshot(s.tables[i], claims)
    ensures ClaimsBounded(Owns(s), claims)
  {
    var own := Owns(s);
    forall c | c in claims && c.node in own
      ensures Bounded(own[c.node], ParseStatus(c.status), c.incarnation, c.version)
    {
      StatusRoundTrip(s.tables[i][c.node].status);
      if c.node != i {
        assert BoundedEntry(s, c.node, s.tables[i][c.node]);
      }
    }
  }

  /** Putting a bounded table in place, with an own entry that is unchanged or raised, keeps the invariant. */
  lemma ReplaceTable(s: State, i: Node, u: Table, wire: set<seq<Claim>>)
    requires Inv(s) && i in s.tables && i in u && TableBounded(Owns(s), i, u)
    requires u[i] == s.tables[i][i]
             || (u[i].status == Alive && u[i].version == 1 && u[i].incarnation > s.tables[i][i].incarnation)
    requires forall claims :: claims in wire ==> claims in s.wire || ClaimsBounded(Owns(s), claims)
    ensures Inv(State(s.tables[i := u], wire))
  {
    var x := State(s.tables[i := u], wire);
    var own := Owns(s);
    assert OwnAlive(x);
    forall j, n | j in x.tables && n in x.tables[j] && n in x.tables && n != j
      ensures BoundedEntry(x, n, x.tables[j][n])
    {
      var m := x.tables[j][n];
      assert Bounded(own[n], m.status, m.incarnation, m.version) by {
        if j != i {
          assert BoundedEntry(s, n, s.tables[j][n]);
        }
      }
      BoundedRaised(own[n], x.tables[n][n], m.status, m.incarnation, m.version);
    }
    forall claims, c | claims in x.wire && c in claims && c.node in x.tables ensures BoundedClaim(x, c) {
      assert Bounded(own[c.node], ParseStatus(c.status), c.incarnation, c.version) by {
        if claims in s.wire {
          assert BoundedClaim(s, c);
        }
      }
      BoundedRaised(own[c.node], x.tables[c.node][c.node], ParseStatus(c.status), c.incarnation, c.version);
    }
  }

  lemma TableIsBounded(s: State, i: Node)
    requires Inv(s) && i in s.tables
    ensures TableBounded(Owns(s), i, s.tables[i])
  {
    forall n | n in s.tables[i] && n in Owns(s) && n != i
      ensures Bounded(Owns(s)[n], s.tables[i][n].status, s.tables[i][n].incarnation, s.tables[i][n].version)
    {
      assert BoundedEntry(s, n, s.tables[i][n]);
    }
  }

  lemma InvKept(s: State, step: Step)
    requires Inv(s) && Enabled(s, step)
    ensures Inv(Do(s, step))
  {
    hide Inv, ParseStatus, StatusText, IsSnapshot, Merged;
    assert OwnAlive(s) by {
      InvOwnAlive(s);
    }
    TableIsBounded(s, step.i);
    match step {
      case ProbeOk(i, target) => ReplaceTable(s, i, MarkedSuccess(s.tables[i], target), s.wire);
      case ProbeFailed(i, target) => ReplaceTable(s, i, MarkedFailure(s.tables[i], target), s.wire);
      case Send(i, claims) =>
        SnapshotBounded(s, i, claims);
        assert s.tables[i := s.tables[i]] == s.tables;
        ReplaceTable(s, i, s.tables[i], s.wire + {claims});
      case Receive(i, sent, kept) =>
        SentBounded(s, sent, kept);
        MergeBounded(Owns(s), i, s.tables[i], kept);
        ReplaceTable(s, i, Merged(s.tables[i], i, kept), s.wire);
      case Track(i, n) =>
        if n !in s.tables[i] {
          ReplaceTable(s, i, s.tables[i][n := ZERO], s.wire);
        }
      case Untrack(i, n) => ReplaceTable(s, i, s.tables[i] - {n}, s.wire);
    }
  }

  lemma InvOwnAlive(s: State)
    requires Inv(s)
    ensures OwnAlive(s)
  {
  }

  lemma SentBounded(s: State, sent: seq<Claim>, kept: seq<Claim>)
    requires Inv(s) && sent in s.wire && forall c :: c in kept ==> c in sent
    ensures ClaimsBounded(Owns(s), kept)
  {
    forall c | c in kept && c.node in Owns(s)
      ensures Bounded(Owns(s)[c.node], ParseStatus(c.status), c.incarnation, c.version)
    {
      assert BoundedClaim(s, c);
    }
  }

  lemma InitialInv(s: State)
    requires Initial(s)
    ensures Inv(s)
  {
    forall i | i in s.tables
      ensures i in s.tables[i] && s.tables[i][i].status == Alive && s.tables[i][i].version == 1 &&
              s.tables[i][i].incarnation >= 1
      ensures forall n :: n in s.tables[i] && n != i ==> s.tables[i][n] == ZERO
    {
      var nodes, clock :| clock >= 1 && s.tables[i] == StartTable(nodes, i, clock);
    }
  }

  /** The invariant holds after every run. */
  lemma {:induction false} InvAlways(init: State, steps: seq<Step>)
    requires Initial(init)
    ensures Inv(Run(init, steps))
  {
    if steps != [] {
      var n := |steps| - 1;
      hide Inv, Do, Enabled, Initial;
      InvAlways(init, steps[..n]);
      if Enabled(Run(init, steps[..n]), steps[n]) {
        InvKept(Run(init, steps[..n]), steps[n]);
      }
    } else {
      InitialInv(init);
    }
  }

  // ------------------------------------------------------------------ main results

  /**
   No stuck suspicion, stated on claims: in every run no entry about `j` has a higher incarnation than
   `j`'s own, `j`'s own entry is alive, and an entry that calls `j` not alive is either of a lower
   incarnation, so that `j`'s own entry replaces it, or of the same one and a higher version, so that
   `j` refutes it on hearing it.
   */
  lemma SuspicionsAreRefutable(init: State, steps: seq<Step>, i: Node, j: Node)
    requires Initial(init)
    requires var s := Run(init, steps); i in s.tables && j in s.tables && j != i && j in s.tables[i]
    ensures var s := Run(init, steps);
            && j in s.tables[j] && s.tables[j][j].status == Alive
            && s.tables[i][j].incarnation <= s.tables[j][j].incarnation
            && (s.tables[i][j].status != Alive ==>
                  var own, m := s.tables[j][j], s.tables[i][j];
                  (m.incarnation < own.incarnation && NewerState(own.incarnation, own.version, m))
                  || (m.incarnation == own.incarnation && NewerState(m.incarnation, m.version, own)))
  {
    InvAlways(init, steps);
    assert BoundedEntry(Run(init, steps), j, Run(init, steps).tables[i][j]);
  }

  /** The same for claims still on their way. */
  lemma MessagesAreRefutable(init: State, steps: seq<Step>, claims: seq<Claim>, c: Claim)
    requires Initial(init)
    requires var s := Run(init, steps); claims in s.wire && c in claims && c.node in s.tables
    ensures var s := Run(init, steps);
            && c.node in s.tables[c.node]
            && c.incarnation <= s.tables[c.node][c.node].incarnation
            && (ParseStatus(c.status) != Alive ==>
                  var own := s.tables[c.node][c.node];
                  c.incarnation < own.incarnation || NewerState(c.incarnation, c.version, own))
  {
    InvAlways(init, steps);
    assert BoundedClaim(Run(init, steps), c);
  }

  /**
   One exchange clears any suspicion: after any run, if `i` calls `j` not alive, then once `j` merges `i`'s
   claim about it and `i` merges `j`'s own claim, `i` holds exactly `j`'s entry and calls `j` alive.
   */
  lemma ExchangeClearsSuspicion(init: State, steps: seq<Step>, i: Node, j: Node)
    requires Initial(init)
    requires var s := Run(init, steps);
             i in s.tables && j in s.tables && j != i && j in s.tables[i] && s.tables[i][j].status != Alive
    ensures var s := Run(init, steps);
            var heard := MergeOne(s.tables[j], j, ClaimOf(j, s.tables[i][j]));
            && j in heard
            && var answered := MergeOne(s.tables[i], i, ClaimOf(j, heard[j]));
               j in answered && answered[j].status == Alive
               && answered[j].incarnation == heard[j].incarnation && answered[j].version == heard[j].version
  {
    var s := Run(init, steps);
    SuspicionsAreRefutable(init, steps, i, j);
    InvAlways(init, steps);
    var heard := MergeOne(s.tables[j], j, ClaimOf(j, s.tables[i][j]));
    StatusRoundTrip(s.tables[i][j].status);
    StatusRoundTrip(heard[j].status);
  }

  /** Nothing stops a node from probing another, from telling all it knows, or from hearing what was told. */
  lemma AlwaysPossible(s: State, i: Node, n: Node, claims: seq<Claim>)
    requires i in s.tables
    ensures Enabled(s, ProbeOk(i, n)) <==> n != i
    ensures Enabled(s, ProbeFailed(i, n)) <==> n != i
    ensures Enabled(s, Receive(i, claims, claims)) <==> claims in s.wire
    ensures Enabled(s, Track(i, n)) && (Enabled(s, Untrack(i, n)) <==> n != i)
    ensures Enabled(s, Send(i, claims)) <==>
              forall c :: c in claims <==>
                c.node in s.tables[i] && var m := s.tables[i][c.node];
                                         c == Claim(c.node, StatusText(m.status), m.incarnation, m.version)
  {
    assert Enabled(s, Receive(i, claims, claims)) <==> claims in s.wire by {
      hide ParseStatus, StatusText;
    }
    var t := s.tables[i];
    if IsSnapshot(t, claims) {
      forall c: Claim | c.node in t && c == ClaimOf(c.node, t[c.node])
        ensures c in claims
      {
      }
    }
    if forall c :: c in claims <==> c.node in t && c == ClaimOf(c.node, t[c.node]) {
      forall n | n in t
        ensures ClaimOf(n, t[n]) in claims
      {
        assert ClaimOf(n, t[n]).node == n;
      }
    }
  }

  /** The messages sent never get lost for good: each may be heard by anyone, at any time later. */
  lemma {:induction false} SentStays(s: State, steps: seq<Step>)
    ensures s.wire <= Run(s, steps).wire && Run(s, steps).tables.Keys == s.tables.Keys
  {
    if steps != [] {
      SentStays(s, steps[..|steps| - 1]);
      hide Run, Enabled, Merged, MarkedSuccess, MarkedFailure;
    }
  }

  lemma {:induction false} RunTwice(s: State, a: seq<Step>, b: seq<Step>)
    ensures Run(s, a + b) == Run(Run(s, a), b)
  {
    if b == [] {
      assert a + b == a;
    } else {
      var n := |b| - 1;
      hide Enabled, Do;
      assert (a + b)[..|a + b| - 1] == a + b[..n];
      RunTwice(s, a, b[..n]);
    }
  }

  lemma RunOne(s: State, step: Step)
    requires Enabled(s, step)
    ensures Run(s, [step]) == Do(s, step)
  {
    assert [step][..0] == [];
  }

  lemma RunTwoMore(s: State, a: Step, b: Step)
    requires Enabled(s, a) && Enabled(Do(s, a), b)
    ensures Run(s, [a, b]) == Do(Do(s, a), b)
  {
    hide *;
    assert [a, b] == [a] + [b];
    RunTwice(s, [a], [b]);
    RunOne(s, a);
    RunOne(Do(s, a), b);
  }

  function Probe(i: Node, n: Node, answered: bool): Step {
    if answered then ProbeOk(i, n) else ProbeFailed(i, n)
  }

  /** The steps in which `i` probes `n` with these outcomes. */
  function Probes(i: Node, n: Node, answers: seq<bool>): seq<Step> {
    seq(|answers|, k requires 0 <= k < |answers| => Probe(i, n, answers[k]))
  }

  /** Probing changes nothing but the entry of the probed node in the table of the probing one. */
  lemma {:induction false} ProbesAreRun(s: State, i: Node, n: Node, answers: seq<bool>)
    requires i in s.tables && n != i
    ensures Run(s, Probes(i, n, answers)) == s.(tables := s.tables[i := Probed(s.tables[i], n, answers)])
  {
    hide *;
    if answers == [] {
      NoProbes(s, i, n);
    } else {
      var first, ok := answers[..|answers| - 1], answers[|answers| - 1];
      assert answers == first + [ok];
      ProbesAreRun(s, i, n, first);
      ProbesMore(i, n, first, ok);
      RunTwice(s, Probes(i, n, first), [Probe(i, n, ok)]);
      OneProbe(Run(s, Probes(i, n, first)), i, n, ok);
      ProbedMore(s.tables[i], n, first, ok);
    }
  }

  lemma NoProbes(s: State, i: Node, n: Node)
    requires i in s.tables
    ensures Run(s, Probes(i, n, [])) == s.(tables := s.tables[i := Probed(s.tables[i], n, [])])
  {
    assert s.tables[i := s.tables[i]] == s.tables;
  }

  lemma ProbesMore(i: Node, n: Node, answers: seq<bool>, ok: bool)
    ensures Probes(i, n, answers + [ok]) == Probes(i, n, answers) + [Probe(i, n, ok)]
  {
  }

  lemma OneProbe(s: State, i: Node, n: Node, ok: bool)
    requires i in s.tables && n != i
    ensures Run(s, [Probe(i, n, ok)]) ==
              s.(tables := s.tables[i := if ok then MarkedSuccess(s.tables[i], n) else MarkedFailure(s.tables[i], n)])
  {
    RunOne(s, Probe(i, n, ok));
  }

  /** One node tells another all it knows, and that one hears all of it. */
  lemma TellAndHear(s: State, i: Node, j: Node, told: seq<Claim>)
    requires i in s.tables && j in s.tables && IsSnapshot(s.tables[i], told)
    ensures var t := Run(s, [Send(i, told), Receive(j, told, told)]);
            t == State(s.tables[j := Merged(s.tables[j], j, told)], s.wire + {told})
  {
    hide IsSnapshot, Merged;
    RunTwoMore(s, Send(i, told), Receive(j, told, told));
  }

  /** No doubt a node has heard about itself is later than its own entry. */
  lemma {:induction false} OwnOutbids(t: Table, self: Node, cs: seq<Claim>)
    requires self in t
    ensures var u := Merged(t, self, cs);
            && self in u
            && forall c :: c in cs && c.node == self && ParseStatus(c.status) != Alive ==> !Later(c, u[self])
  {
    hide ParseStatus;
    if cs != [] {
      var k := |cs| - 1;
      OwnOutbids(t, self, cs[..k]);
      assert forall c :: c in cs ==> c in cs[..k] || c == cs[k];
      hide Merged;
      OwnOutbidsOne(Merged(t, self, cs[..k]), self, cs[k]);
    }
  }

  lemma OwnOutbidsOne(t: Table, self: Node, c: Claim)
    requires self in t
    ensures var u := MergeOne(t, self, c);
            && self in u
            && (c.node == self && ParseStatus(c.status) != Alive ==> !Later(c, u[self]))
            && (forall d: Claim :: Later(d, u[self]) ==> Later(d, t[self]))
  {
    hide ParseStatus;
  }

  /**
   The same exchange as a run, with whole messages: whatever `i` thought of `j`, once `i` has told `j` all it
   knows and `j` has answered with all it knows, `i` calls `j` alive.
   */
  lemma ExchangeIsRun(s: State, i: Node, j: Node, told: seq<Claim>, answer: seq<Claim>)
    requires Inv(s) && i in s.tables && j in s.tables && i != j && j in s.tables[i]
    requires IsSnapshot(s.tables[i], told) && IsSnapshot(Merged(s.tables[j], j, told), answer)
    ensures var t := Run(s, [Send(i, told), Receive(j, told, told)] + [Send(j, answer), Receive(i, answer, answer)]);
            i in t.tables && j in t.tables[i] && t.tables[i][j].status == Alive
  {
    hide *;
    hide ParseStatus, StatusText;
    var heard := Run(s, [Send(i, told), Receive(j, told, told)]);
    TellAndHear(s, i, j, told);
    RunTwice(s, [Send(i, told), Receive(j, told, told)], [Send(j, answer), Receive(i, answer, answer)]);
    TellAndHear(heard, j, i, answer);
    RunKeepsInv(s, [Send(i, told), Receive(j, told, told)]);
    AnswerClears(s, heard, i, j, told, answer);
  }

  lemma {:induction false} RunKeepsInv(s: State, steps: seq<Step>)
    requires Inv(s)
    ensures Inv(Run(s, steps))
  {
    if steps != [] {
      var n := |steps| - 1;
      hide Inv, Do, Enabled;
      RunKeepsInv(s, steps[..n]);
      if Enabled(Run(s, steps[..n]), steps[n]) {
        InvKept(Run(s, steps[..n]), steps[n]);
      }
    }
  }

  lemma AnswerClears(s: State, heard: State, i: Node, j: Node, told: seq<Claim>, answer: seq<Claim>)
    requires Inv(s) && i in s.tables && j in s.tables && i != j && j in s.tables[i]
    requires IsSnapshot(s.tables[i], told)
    requires Inv(heard) && heard.tables == s.tables[j := Merged(s.tables[j], j, told)]
    requires IsSnapshot(heard.tables[j], answer)
    ensures var u := Merged(s.tables[i], i, answer); j in u && u[j].status == Alive
  {
    hide Inv, IsSnapshot, Merged, MergeOne, ParseStatus, StatusText;
    var was := s.tables[i][j];
    MergedIsNewest(s.tables[i], i, answer, j);
    InvOwnAlive(heard);
    InvOwnAlive(s);
    OwnOutbids(s.tables[j], j, told);
    var own := heard.tables[j][j];
    OnlyOneClaim(heard.tables[j], answer, j);
    OnlyOneClaim(s.tables[i], told, j);
    StatusRoundTrip(was.status);
    StatusRoundTrip(own.status);
    if was.status != Alive {
      assert Bounded(own, was.status, was.incarnation, was.version) by {
        EntryIsBounded(heard, i, j);
      }
      assert !Later(ClaimOf(j, was), own);
      assert Later(ClaimOf(j, own), was);
    }
  }

  lemma EntryIsBounded(s: State, i: Node, j: Node)
    requires Inv(s) && i in s.tables && j in s.tables && i != j && j in s.tables[i]
    ensures var m := s.tables[i][j];
            j in s.tables[j] && Bounded(s.tables[j][j], m.status, m.incarnation, m.version)
  {
    assert BoundedEntry(s, j, s.tables[i][j]);
  }

  /** What a node tells about another is one thing. */
  lemma OnlyOneClaim(t: Table, claims: seq<Claim>, n: Node)
    requires IsSnapshot(t, claims) && n in t
    ensures ClaimOf(n, t[n]) in claims
    ensures forall k :: 0 <= k < |claims| && claims[k].node == n ==> claims[k] == ClaimOf(n, t[n])
    ensures Mentioned(claims, n)
  {
    hide StatusText;
    var k :| 0 <= k < |claims| && claims[k] == ClaimOf(n, t[n]);
  }

  // ------------------------------------------------------------------ following and forgetting nodes

  /** Following a node leaves what is known of it, and everything else, as it was. */
  lemma FollowingKeeps(s: State, i: Node, n: Node)
    requires i in s.tables
    ensures var t, was := Run(s, [Track(i, n)]), s.tables[i];
            t == s.(tables := s.tables[i := if n in was then was else was[n := Member(Alive, 0, 0, 0)]])
  {
    RunOne(s, Track(i, n));
    assert s.tables[i := s.tables[i]] == s.tables;
  }

  /** Forgetting another node removes its entry and no other. */
  lemma ForgettingRemoves(s: State, i: Node, n: Node)
    requires i in s.tables && n != i
    ensures var t := Run(s, [Untrack(i, n)]); t == s.(tables := s.tables[i := s.tables[i] - {n}])
  {
    RunOne(s, Untrack(i, n));
  }

  /**
   A node followed before anything was heard of it takes the first claim about it exactly as an unknown
   node does, except that a suspicion of the zero incarnation and version is not believed.
   */
  lemma TrackedLikeUnknown(t: Table, self: Node, c: Claim)
    requires c.node != self && c.node !in t
    ensures MergeOne(t[c.node := ZERO], self, c) == MergeOne(t, self, c) <==>
              c.incarnation > 0 || c.version > 0 || ParseStatus(c.status) == Alive
  {
    assert t[c.node := ZERO][c.node := Member(ParseStatus(c.status), 0, c.incarnation, c.version)] ==
           t[c.node := Member(ParseStatus(c.status), 0, c.incarnation, c.version)];
  }

  /**
   A removed node comes back with any claim still on its way, even one that its entry had already
   superseded, and then stands as that claim says.
   */
  lemma UntrackedComesBack(t: Table, self: Node, c: Claim)
    requires c.node != self && c.node in t && !NewerState(c.incarnation, c.version, t[c.node])
    ensures MergeOne(t, self, c) == t
    ensures MergeOne(t - {c.node}, self, c) == t[c.node := Member(ParseStatus(c.status), 0, c.incarnation, c.version)]
  {
    assert (t - {c.node})[c.node := Member(ParseStatus(c.status), 0, c.incarnation, c.version)] ==
           t[c.node := Member(ParseStatus(c.status), 0, c.incarnation, c.version)];
  }
}
