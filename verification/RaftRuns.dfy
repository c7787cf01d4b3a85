/**
 Raft nodes running together: elections, votes, log changes and one applier per node, interleaved in
 any order. Vote requests are arbitrary, whether any node sent them or not, as long as they name a
 candidate. The applier takes a message under the lock, sends it without the lock, and takes the lock
 again to count it.
 */
module RaftRuns {
  import opened Raft
  import opened Sequences

  datatype Applier = Resting | Taken(msg: ApplyMsg) | Sent(index: nat)

  datatype Member = Member(node: Node, applier: Applier, delivered: seq<ApplyMsg>)

  /** A vote given: what the candidate's log was said to end with, and what the voter's ended with. */
  datatype Grant = Grant(voter: string, term: nat, candidate: string, asked: Position, held: Position)

  datatype State = State(members: map<string, Member>, grants: set<Grant>)

  datatype Action =
    | Stand
    | Vote(req: VoteRequest)
    | StepDown(term: nat)
    | Append(entry: LogEntry)
    | Truncate(from: nat)
    | Commit(index: nat)
    | Take
    | Send
    | Mark

  datatype Step = Step(at: string, action: Action)

  predicate Enabled(s: State, step: Step) {
    step.at in s.members && |s.members[step.at].node.log| > 0 &&
    var m := s.members[step.at];
    match step.action
    case Vote(req) => req.candidate != ""
    case Take => m.applier.Resting? && m.node.applied < m.node.commit < |m.node.log|
    case Send => m.applier.Taken?
    case Mark => m.applier.Sent?
    case _ => true
  }

  function Acted(m: Member, a: Action): Member
    requires |m.node.log| > 0
    requires a.Take? ==> m.node.applied + 1 < |m.node.log|
    requires a.Send? ==> m.applier.Taken?
    requires a.Mark? ==> m.applier.Sent?
  {
    match a
    case Stand => m.(node := Standing(m.node))
    case Vote(req) => m.(node := Voted(m.node, req))
    case StepDown(term) => m.(node := FollowerAt(m.node, term))
    case Append(entry) => m.(node := m.node.(log := m.node.log + [entry]))
    case Truncate(from) => m.(node := Truncated(m.node, from))
    case Commit(index) => m.(node := Committed(m.node, index))
    case Take => m.(applier := Taken(Message(m.node.log, m.node.applied + 1)))
    case Send => m.(applier := Sent(m.applier.msg.index), delivered := m.delivered + [m.applier.msg])
    case Mark => m.(applier := Resting, node := m.node.(applied := m.applier.index))
  }

  /** The vote an action gives; standing for election is a vote for oneself. */
  function Given(n: Node, a: Action): set<Grant>
    requires |n.log| > 0
  {
    match a
    case Stand => {Grant(n.id, n.term + 1, n.id, n.Last(), n.Last())}
    case Vote(req) => if Grants(n, req) then {Grant(n.id, req.term, req.candidate, req.last, n.Last())} else {}
    case _ => {}
  }

  function Do(s: State, step: Step): State
    requires Enabled(s, step)
  {
    var m := s.members[step.at];
    State(s.members[step.at := Acted(m, step.action)], s.grants + Given(m.node, step.action))
  }

  predicate Initial(s: State) {
    && (forall n :: n in s.members ==>
          n != "" && s.members[n] == Member(Node(n, Follower, 0, "", [LogEntry(0, [])], 0, 0), Resting, []))
    && s.grants == {}
  }

  /** Steps that are not enabled do nothing. */
  function Run(init: State, steps: seq<Step>): State {
    if steps == [] then init
    else
      var s := Run(init, steps[..|steps| - 1]);
      if Enabled(s, steps[|steps| - 1]) then Do(s, steps[|steps| - 1]) else s
  }

  // ------------------------------------------------------------------ invariant

  /** Where the applier stands: everything delivered is committed, and nothing is skipped or repeated. */
  predicate ApplierOk(m: Member) {
    m.node.Valid() &&
    match m.applier
    case Resting => m.delivered == Messages(m.node.log, m.node.applied)
    case Taken(msg) =>
      && m.node.applied < m.node.commit && msg == Message(m.node.log, m.node.applied + 1)
      && m.delivered == Messages(m.node.log, m.node.applied)
    case Sent(index) =>
      && index == m.node.applied + 1 <= m.node.commit
      && m.delivered == Messages(m.node.log, index)
  }

  predicate MemberOk(name: string, m: Member) {
    && m.node.id == name && name != ""
    && (m.node.role.Candidate? ==> m.node.votedFor == name)
    && !m.node.role.Leader?
    && ApplierOk(m)
  }

  /** A vote of the voter's current term is the one it remembers. */
  predicate Remembered(s: State, g: Grant) {
    && g.voter in s.members && g.candidate != ""
    && (g.asked.term > g.held.term || (g.asked.term == g.held.term && g.asked.index >= g.held.index))
    && var n := s.members[g.voter].node;
       g.term <= n.term && (g.term == n.term ==> n.votedFor == g.candidate)
  }

  predicate SameChoice(g: Grant, h: Grant) {
    g.voter == h.voter && g.term == h.term ==> g.candidate == h.candidate
  }

  ghost predicate OneVoteEach(s: State) {
    forall g, h :: g in s.grants && h in s.grants ==> SameChoice(g, h)
  }

  ghost predicate Inv(s: State) {
    && (forall n :: n in s.members ==> MemberOk(n, s.members[n]))
    && (forall g :: g in s.grants ==> Remembered(s, g))
    && OneVoteEach(s)
  }

  /** What every action keeps of a node: its name, its committed entries, and a term that never falls. */
  predicate Later(m: Member, t: Member) {
    && t.node.id == m.node.id
    && t.node.term >= m.node.term
    && (t.node.term == m.node.term && m.node.votedFor != "" ==> t.node.votedFor == m.node.votedFor)
    && m.node.commit <= t.node.commit && m.node.applied <= t.node.applied
    && m.node.commit < |m.node.log| && t.node.commit < |t.node.log|
    && t.node.log[..m.node.commit + 1] == m.node.log[..m.node.commit + 1]
    && m.delivered <= t.delivered
  }

  predicate CanAct(m: Member, a: Action) {
    && (a.Vote? ==> a.req.candidate != "")
    && (a.Take? ==> m.applier.Resting? && m.node.applied < m.node.commit)
    && (a.Send? ==> m.applier.Taken?)
    && (a.Mark? ==> m.applier.Sent?)
  }

  lemma ActedLater(name: string, m: Member, a: Action)
    requires MemberOk(name, m) && CanAct(m, a)
    ensures Later(m, Acted(m, a))
  {
    hide Messages;
  }

  /** Changes past the committed entries leave the applier where it stands. */
  lemma ApplierUnmoved(m: Member, t: Member)
    requires ApplierOk(m) && t.node.Valid() && t.applier == m.applier && t.delivered == m.delivered
    requires t.node.applied == m.node.applied && m.node.commit <= t.node.commit
    requires t.node.log[..m.node.commit + 1] == m.node.log[..m.node.commit + 1]
    ensures ApplierOk(t)
  {
    var count := |m.delivered|;
    assert count <= m.node.commit;
    forall i | 0 <= i <= m.node.commit
      ensures t.node.log[i] == m.node.log[i]
    {
      assert t.node.log[i] == t.node.log[..m.node.commit + 1][i];
    }
    MessagesStable(m.node.log, t.node.log, count);
  }

  lemma ActedOk(name: string, m: Member, a: Action)
    requires MemberOk(name, m) && CanAct(m, a)
    ensures MemberOk(name, Acted(m, a))
  {
    var t := Acted(m, a);
    if a.Take? || a.Mark? {
    } else if a.Send? {
      MessagesGrow(m.node.log, m.node.applied);
    } else {
      assert ApplierOk(t) by {
        ActedLater(name, m, a);
        ApplierUnmoved(m, t);
      }
    }
  }

  /** A vote given now is the one remembered, and agrees with any earlier one of its term. */
  lemma GivenRemembered(s: State, step: Step, g: Grant)
    requires Inv(s) && Enabled(s, step) && g in Given(s.members[step.at].node, step.action)
    ensures Remembered(Do(s, step), g)
    ensures forall h :: h in s.grants ==> SameChoice(g, h)
  {
    hide ApplierOk;
    var n := s.members[step.at].node;
    forall h | h in s.grants
      ensures SameChoice(g, h)
    {
      assert Remembered(s, h);
    }
  }

  lemma StaysRemembered(s: State, step: Step, g: Grant)
    requires Inv(s) && Enabled(s, step) && g in s.grants
    ensures Remembered(Do(s, step), g)
  {
    hide ApplierOk, OneVoteEach;
    var m := s.members[step.at];
    assert MemberOk(step.at, m) && Remembered(s, g);
    ActedLater(step.at, m, step.action);
    hide Acted;
  }

  lemma InvKept(s: State, step: Step)
    requires Inv(s) && Enabled(s, step)
    ensures Inv(Do(s, step))
  {
    var t := Do(s, step);
    var m := s.members[step.at];
    assert MemberOk(step.at, m);
    ActedOk(step.at, m, step.action);
    forall g | g in t.grants
      ensures Remembered(t, g)
    {
      if g in s.grants {
        StaysRemembered(s, step, g);
      } else {
        GivenRemembered(s, step, g);
      }
    }
    forall g, h | g in t.grants && h in t.grants
      ensures SameChoice(g, h)
    {
      if g !in s.grants {
        GivenRemembered(s, step, g);
      }
      if h !in s.grants {
        GivenRemembered(s, step, h);
      }
    }
  }

  lemma {:induction false} InvAlways(init: State, steps: seq<Step>)
    requires Initial(init)
    ensures Inv(Run(init, steps)) && Run(init, steps).members.Keys == init.members.Keys
  {
    if steps == [] {
      forall n | n in init.members
        ensures MemberOk(n, init.members[n])
      {
      }
    } else {
      var k := |steps| - 1;
      InvAlways(init, steps[..k]);
      var s := Run(init, steps[..k]);
      if Enabled(s, steps[k]) {
        InvKept(s, steps[k]);
      }
    }
  }

  // ------------------------------------------------------------------ votes

  /** In every run a node votes for at most one candidate in a term, itself included. */
  lemma OneVotePerTerm(init: State, steps: seq<Step>, g: Grant, h: Grant)
    requires Initial(init) && g in Run(init, steps).grants && h in Run(init, steps).grants
    requires g.voter == h.voter && g.term == h.term
    ensures g.candidate == h.candidate
  {
    InvAlways(init, steps);
    assert SameChoice(g, h);
  }

  /** A recorded vote was cast in one step of the run, on the log its voter had just then. */
  ghost predicate CastAt(s: State, step: Step, g: Grant) {
    Enabled(s, step) && step.at == g.voter &&
    var n := s.members[step.at].node;
    && g.held == Position(|n.log| - 1, n.log[|n.log| - 1].term)
    && match step.action
       case Vote(req) => req.term == g.term >= n.term && req.candidate == g.candidate && req.last == g.asked
       case Stand => g.term == n.term + 1 && g.candidate == g.voter && g.asked == g.held
       case _ => false
  }

  lemma {:induction false} VotesWereCast(init: State, steps: seq<Step>, g: Grant)
    requires Initial(init) && g in Run(init, steps).grants
    ensures exists k :: 0 <= k < |steps| && CastAt(Run(init, steps[..k]), steps[k], g)
  {
    hide CastAt, Inv;
    if steps != [] {
      var k := |steps| - 1;
      var s := Run(init, steps[..k]);
      InvAlways(init, steps[..k]);
      if g in s.grants {
        VotesWereCast(init, steps[..k], g);
        var j :| 0 <= j < k && CastAt(Run(init, steps[..k][..j]), steps[..k][j], g);
        assert steps[..k][..j] == steps[..j];
      } else {
        NewVoteIsCast(s, steps[k], g);
      }
    }
  }

  lemma NewVoteIsCast(s: State, step: Step, g: Grant)
    requires Inv(s) && Enabled(s, step) && g in Do(s, step).grants && g !in s.grants
    ensures CastAt(s, step, g)
  {
    hide ApplierOk, OneVoteEach;
    assert MemberOk(step.at, s.members[step.at]);
  }

  /** Every vote given is recorded, with the log end it was given on. */
  lemma VotesAreRecorded(s: State, at: string, req: VoteRequest)
    requires Inv(s) && Enabled(s, Step(at, Vote(req)))
    requires var n := s.members[at].node;
             && (req.term > n.term || (req.term == n.term && (n.votedFor == "" || n.votedFor == req.candidate)))
             && (req.last.term > n.log[|n.log| - 1].term ||
                 (req.last.term == n.log[|n.log| - 1].term && req.last.index >= |n.log| - 1))
    ensures var log := s.members[at].node.log;
            Grant(at, req.term, req.candidate, req.last, Position(|log| - 1, log[|log| - 1].term))
              in Do(s, Step(at, Vote(req))).grants
  {
    hide ApplierOk, OneVoteEach;
    assert MemberOk(at, s.members[at]);
    GrantsIff(s.members[at].node, req);
  }

  function Voters(s: State, term: nat, candidate: string): set<string> {
    set g | g in s.grants && g.term == term && g.candidate == candidate :: g.voter
  }

  predicate Majority(s: State, who: set<string>) {
    2 * |who| > |s.members.Keys|
  }

  lemma VotersAreMembers(s: State, term: nat, candidate: string)
    requires Inv(s)
    ensures Voters(s, term, candidate) <= s.members.Keys
  {
    forall v | v in Voters(s, term, candidate)
      ensures v in s.members
    {
      var g :| g in s.grants && g.term == term && g.candidate == candidate && g.voter == v;
      assert Remembered(s, g);
    }
  }

  /** In every run at most one candidate of a term has the votes of a majority. */
  lemma OneWinner(init: State, steps: seq<Step>, term: nat, a: string, b: string)
    requires Initial(init)
    requires var s := Run(init, steps); Majority(s, Voters(s, term, a)) && Majority(s, Voters(s, term, b))
    ensures a == b
  {
    InvAlways(init, steps);
    var s := Run(init, steps);
    VotersAreMembers(s, term, a);
    VotersAreMembers(s, term, b);
    QuorumsMeet(Voters(s, term, a), Voters(s, term, b), s.members.Keys);
    var v :| v in Voters(s, term, a) && v in Voters(s, term, b);
    var g :| g in s.grants && g.term == term && g.candidate == a && g.voter == v;
    var h :| h in s.grants && h.term == term && h.candidate == b && h.voter == v;
    OneVotePerTerm(init, steps, g, h);
  }

  /**
   The election restriction: whatever majority of nodes one looks at, a winner got a vote from one of
   them, asking with a log at least as up to date as the one that voter had.
   */
  lemma WinnerIsUpToDate(init: State, steps: seq<Step>, term: nat, c: string, others: set<string>)
    requires Initial(init)
    requires var s := Run(init, steps);
             Majority(s, Voters(s, term, c)) && Majority(s, others) && others <= s.members.Keys
    ensures exists g :: g in Run(init, steps).grants && g.voter in others && g.term == term && g.candidate == c
                        && g.asked.term >= g.held.term
                        && (g.asked.term == g.held.term ==> g.asked.index >= g.held.index)
  {
    InvAlways(init, steps);
    var s := Run(init, steps);
    VotersAreMembers(s, term, c);
    QuorumsMeet(Voters(s, term, c), others, s.members.Keys);
    var v :| v in Voters(s, term, c) && v in others;
    var g :| g in s.grants && g.term == term && g.candidate == c && g.voter == v;
    assert Remembered(s, g);
  }

  /** A node that is a candidate has voted for nobody but itself in its term. */
  lemma CandidatesVoteForThemselves(init: State, steps: seq<Step>, n: string, g: Grant)
    requires Initial(init) && n in Run(init, steps).members && g in Run(init, steps).grants
    requires var m := Run(init, steps).members[n].node; m.role.Candidate? && g.voter == n && g.term == m.term
    ensures g.candidate == n
  {
    InvAlways(init, steps);
    var s := Run(init, steps);
    assert Remembered(s, g) && MemberOk(n, s.members[n]);
  }

  // ------------------------------------------------------------------ whole runs

  lemma LaterReflexive(s: State, n: string)
    requires Inv(s) && n in s.members
    ensures Later(s.members[n], s.members[n])
  {
    assert MemberOk(n, s.members[n]);
  }

  lemma LaterTransitive(a: Member, b: Member, c: Member)
    requires Later(a, b) && Later(b, c)
    ensures Later(a, c)
  {
    var k := a.node.commit + 1;
    assert b.node.log[..k] == b.node.log[..b.node.commit + 1][..k];
    assert c.node.log[..k] == c.node.log[..b.node.commit + 1][..k];
  }

  lemma StepLater(s: State, step: Step, n: string)
    requires Inv(s) && n in s.members
    ensures n in (if Enabled(s, step) then Do(s, step) else s).members
    ensures Later(s.members[n], (if Enabled(s, step) then Do(s, step) else s).members[n])
  {
    assert MemberOk(n, s.members[n]);
    if Enabled(s, step) && step.at == n {
      ActedLater(n, s.members[n], step.action);
    }
  }

  /**
   As a run goes on, no node's term, commit index or count of applied entries falls, its committed
   entries never change, and what it has delivered is only added to.
   */
  lemma {:induction false} NothingTakenBack(init: State, steps: seq<Step>, more: seq<Step>, n: string)
    requires Initial(init) && n in init.members
    ensures n in Run(init, steps).members && n in Run(init, steps + more).members
    ensures Later(Run(init, steps).members[n], Run(init, steps + more).members[n])
  {
    hide Later, Inv, Do, Enabled, MemberOk;
    InvAlways(init, steps);
    if more == [] {
      assert steps + more == steps;
      LaterReflexive(Run(init, steps), n);
    } else {
      var k := |more| - 1;
      var all := steps + more;
      assert all[..|all| - 1] == steps + more[..k];
      NothingTakenBack(init, steps, more[..k], n);
      InvAlways(init, steps + more[..k]);
      var s := Run(init, steps + more[..k]);
      StepLater(s, more[k], n);
      LaterTransitive(Run(init, steps).members[n], s.members[n], Run(init, all).members[n]);
    }
  }

  /**
   In every run the messages delivered by a node are its log entries one, two, three and so on, all
   of them committed; at most the last of them is not yet counted as applied.
   */
  lemma DeliveredInOrder(init: State, steps: seq<Step>, n: string)
    requires Initial(init) && n in init.members
    ensures n in Run(init, steps).members
    ensures var m := Run(init, steps).members[n];
            && m.node.applied <= |m.delivered| <= m.node.commit < |m.node.log|
            && (forall i :: 0 <= i < |m.delivered| ==>
                  m.delivered[i] == ApplyMsg(i + 1, m.node.log[i + 1].term, m.node.log[i + 1].command))
            && |m.delivered| == if m.applier.Sent? then m.node.applied + 1 else m.node.applied
  {
    InvAlways(init, steps);
    assert MemberOk(n, Run(init, steps).members[n]);
    hide *;
    DeliveredAre(n, Run(init, steps).members[n]);
  }

  lemma DeliveredAre(n: string, m: Member)
    requires MemberOk(n, m)
    ensures m.node.applied <= |m.delivered| <= m.node.commit < |m.node.log|
    ensures forall i :: 0 <= i < |m.delivered| ==>
              m.delivered[i] == ApplyMsg(i + 1, m.node.log[i + 1].term, m.node.log[i + 1].command)
    ensures |m.delivered| == if m.applier.Sent? then m.node.applied + 1 else m.node.applied
  {
    var count := |m.delivered|;
    assert m.delivered == Messages(m.node.log, count);
  }

  /** Nobody delivers an entry that later changes: two snapshots of a run agree on every delivered index. */
  lemma DeliveredForGood(init: State, steps: seq<Step>, more: seq<Step>, n: string, i: nat)
    requires Initial(init) && n in init.members
    requires n in Run(init, steps).members && i < |Run(init, steps).members[n].delivered|
    ensures n in Run(init, steps + more).members
    ensures var m := Run(init, steps + more).members[n];
            i + 1 < |m.node.log| &&
            Run(init, steps).members[n].delivered[i] ==
              ApplyMsg(i + 1, m.node.log[i + 1].term, m.node.log[i + 1].command)
  {
    NothingTakenBack(init, steps, more, n);
    DeliveredInOrder(init, steps + more, n);
  }

  // ------------------------------------------------------------------ what can happen

  /** An action of one node: the node and its applier change as they would alone, nobody else does. */
  lemma ActsAlone(s: State, step: Step)
    requires Enabled(s, step)
    ensures var t := Do(s, step);
            && t.members.Keys == s.members.Keys && t.members[step.at] == Acted(s.members[step.at], step.action)
            && forall n :: n in s.members && n != step.at ==> t.members[n] == s.members[n]
  {
  }

  /** A node that hears of a term steps down into it, and forgets its vote if the term is new. */
  lemma StepsDown(s: State, n: string, term: nat)
    requires Enabled(s, Step(n, StepDown(term)))
    ensures var was, now := s.members[n].node, Do(s, Step(n, StepDown(term))).members[n].node;
            && now.term == (if term > was.term then term else was.term)
            && now.votedFor == (if term > was.term then "" else was.votedFor)
            && now.role == (if term >= was.term then Follower else was.role)
            && now.log == was.log && now.commit == was.commit && now.applied == was.applied
  {
  }

  /** Uncommitted entries can be cut off, committed ones cannot. */
  lemma Truncates(s: State, n: string, from: nat)
    requires Enabled(s, Step(n, Truncate(from)))
    ensures var was, now := s.members[n].node, Do(s, Step(n, Truncate(from))).members[n].node;
            now == if was.commit < from < |was.log| then was.(log := was.log[..from]) else was
  {
  }

  /** The four steps that bring a new entry to a node's state machine. */
  function Delivery(n: string, entry: LogEntry, index: nat): seq<Step> {
    [Step(n, Append(entry)), Step(n, Commit(index)), Step(n, Take), Step(n, Send), Step(n, Mark)]
  }

  /**
   A node that has applied all it has can take a new entry all the way: appended, committed, taken, sent and counted,
   it is the next and last message delivered.
   */
  lemma EntryIsDelivered(s: State, n: string, entry: LogEntry)
    requires n in s.members && MemberOk(n, s.members[n]) && s.members[n].applier.Resting?
    requires var node := s.members[n].node; node.applied == node.commit == |node.log| - 1
    ensures var m := s.members[n]; var index := |m.node.log|;
            var t := Run(s, Delivery(n, entry, index));
            && n in t.members && t.members[n].applier.Resting?
            && t.members[n].node.log == m.node.log + [entry]
            && t.members[n].node.commit == index && t.members[n].node.applied == index
            && t.members[n].delivered == m.delivered + [ApplyMsg(index, entry.term, entry.command)]
  {
    hide *;
    var m, index := s.members[n], |s.members[n].node.log|;
    HasLog(n, m);
    Appends(s, n, entry);
    var s1 := AfterStep(s, Step(n, Append(entry)));
    Commits(s1, n, index);
    var s2 := AfterStep(s1, Step(n, Commit(index)));
    DeliversNext(s2, n);
    FiveSteps(s, Step(n, Append(entry)), Step(n, Commit(index)), Step(n, Take), Step(n, Send), Step(n, Mark));
    DeliveryIs(n, entry, index);
  }

  lemma HasLog(n: string, m: Member)
    requires MemberOk(n, m)
    ensures m.node.log != []
  {
  }

  lemma DeliveryIs(n: string, entry: LogEntry, index: nat)
    ensures Delivery(n, entry, index) ==
              [Step(n, Append(entry)), Step(n, Commit(index)), Step(n, Take), Step(n, Send), Step(n, Mark)]
  {
  }

  function AfterStep(s: State, step: Step): State {
    if Enabled(s, step) then Do(s, step) else s
  }

  lemma FiveSteps(s: State, a: Step, b: Step, c: Step, d: Step, e: Step)
    ensures Run(s, [a, b, c, d, e]) == AfterStep(AfterStep(AfterStep(AfterStep(AfterStep(s, a), b), c), d), e)
  {
    hide Run, AfterStep;
    NoSteps(s);
    RunMore(s, [], a);
    RunMore(s, [a], b);
    RunMore(s, [a, b], c);
    RunMore(s, [a, b, c], d);
    RunMore(s, [a, b, c, d], e);
    assert [] + [a] == [a] && [a] + [b] == [a, b] && [a, b] + [c] == [a, b, c];
    assert [a, b, c] + [d] == [a, b, c, d] && [a, b, c, d] + [e] == [a, b, c, d, e];
  }

  lemma NoSteps(s: State)
    ensures Run(s, []) == s
  {
  }

  lemma RunMore(init: State, steps: seq<Step>, step: Step)
    ensures Run(init, steps + [step]) == AfterStep(Run(init, steps), step)
  {
    assert (steps + [step])[..|steps|] == steps;
  }

  lemma Appends(s: State, n: string, entry: LogEntry)
    requires n in s.members && s.members[n].node.log != []
    ensures var m, t := s.members[n], AfterStep(s, Step(n, Append(entry)));
            n in t.members && t.members[n] == m.(node := m.node.(log := m.node.log + [entry]))
  {
  }

  lemma Commits(s: State, n: string, index: nat)
    requires n in s.members && s.members[n].node.commit < index < |s.members[n].node.log|
    ensures var m, t := s.members[n], AfterStep(s, Step(n, Commit(index)));
            n in t.members && t.members[n] == m.(node := m.node.(commit := index))
  {
  }

  /** A committed entry that was not applied yet can be taken, sent and counted. */
  lemma DeliversNext(s: State, n: string)
    requires n in s.members && s.members[n].applier.Resting?
    requires var node := s.members[n].node; node.applied < node.commit < |node.log|
    ensures var m := s.members[n];
            var next := m.node.applied + 1;
            var e := m.node.log[next];
            var t := AfterStep(AfterStep(AfterStep(s, Step(n, Take)), Step(n, Send)), Step(n, Mark));
            && n in t.members
            && t.members[n] == Member(m.node.(applied := next), Resting,
                                      m.delivered + [ApplyMsg(next, e.term, e.command)])
  {
  }

  /** More than half of the members, in whole numbers. */
  lemma MajorityIff(s: State, who: set<string>)
    ensures Majority(s, who) <==> |who| > |s.members.Keys| / 2
  {
  }
}
