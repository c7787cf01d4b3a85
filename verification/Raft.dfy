/**
 One Raft node (internal/raft/raft.go, internal/raft/vote.go, internal/raft/election.go).

 `log[0]` is a dummy entry, so the first real entry has index one. An empty `votedFor` means that
 no vote was cast in the current term.
 */
module Raft {
  import opened Versions

  datatype Role = Follower | Candidate | Leader

  datatype LogEntry = LogEntry(term: nat, command: seq<Byte>)

  datatype ApplyMsg = ApplyMsg(index: nat, term: nat, command: seq<Byte>)

  /** The end of a log, as vote requests describe it. */
  datatype Position = Position(index: nat, term: nat)

  datatype VoteRequest = VoteRequest(term: nat, candidate: string, last: Position)

  datatype VoteResponse = VoteResponse(term: nat, granted: bool)

  datatype Outcome = Done | DummyEntry | OutOfRange | AlreadyCommitted

  datatype Node = Node(
    id: string, role: Role, term: nat, votedFor: string, log: seq<LogEntry>, commit: nat, applied: nat)
  {
    predicate Valid() {
      applied <= commit < |log|
    }

    function Last(): Position
      requires |log| > 0
    {
      Position(|log| - 1, log[|log| - 1].term)
    }
  }

  /** `candidateLogUpToDate`: by the term of the last entry, then by length. */
  predicate UpToDate(candidate: Position, local: Position) {
    if candidate.term != local.term then candidate.term > local.term else candidate.index >= local.index
  }

  lemma UpToDateIsTotalOrder(a: Position, b: Position, c: Position)
    ensures UpToDate(a, b) || UpToDate(b, a)
    ensures UpToDate(a, b) && UpToDate(b, a) ==> a == b
    ensures UpToDate(a, b) && UpToDate(b, c) ==> UpToDate(a, c)
  {
  }

  function FollowerAt(n: Node, term: nat): Node {
    if term < n.term then n
    else if term > n.term then n.(term := term, votedFor := "", role := Follower)
    else n.(role := Follower)
  }

  function Standing(n: Node): Node {
    n.(term := n.term + 1, role := Candidate, votedFor := n.id)
  }

  /** The node in the term the request brings, before it decides. */
  function Caught(n: Node, req: VoteRequest): Node {
    if req.term > n.term then FollowerAt(n, req.term) else n
  }

  predicate Grants(n: Node, req: VoteRequest)
    requires |n.log| > 0
  {
    && req.term >= n.term
    && (Caught(n, req).votedFor == "" || Caught(n, req).votedFor == req.candidate)
    && UpToDate(req.last, n.Last())
  }

  /**
   Who gets a vote: a candidate of a current or newer term, unless this term's vote went to somebody else, whose log
   ends in a later term, or in the same term and no earlier.
   */
  lemma GrantsIff(n: Node, req: VoteRequest)
    requires |n.log| > 0
    ensures Grants(n, req) <==>
              && (req.term > n.term || (req.term == n.term && (n.votedFor == "" || n.votedFor == req.candidate)))
              && (req.last.term > n.log[|n.log| - 1].term ||
                  (req.last.term == n.log[|n.log| - 1].term && req.last.index >= |n.log| - 1))
  {
  }

  function Voted(n: Node, req: VoteRequest): Node
    requires |n.log| > 0
  {
    if Grants(n, req) then Caught(n, req).(votedFor := req.candidate) else Caught(n, req)
  }

  predicate MayTruncate(n: Node, index: nat) {
    n.commit < index < |n.log|
  }

  function Truncated(n: Node, index: nat): Node {
    if MayTruncate(n, index) then n.(log := n.log[..index]) else n
  }

  function Committed(n: Node, index: nat): Node {
    if n.commit < index < |n.log| then n.(commit := index) else n
  }

  function Message(log: seq<LogEntry>, index: nat): ApplyMsg
    requires index < |log|
  {
    ApplyMsg(index, log[index].term, log[index].command)
  }

  /** What a state machine that has received the first `count` entries was sent. */
  function Messages(log: seq<LogEntry>, count: nat): (r: seq<ApplyMsg>)
    requires count < |log|
    ensures |r| == count
  {
    seq(count, i requires 0 <= i < count => Message(log, i + 1))
  }

  lemma MessagesGrow(log: seq<LogEntry>, count: nat)
    requires count + 1 < |log|
    ensures Messages(log, count + 1) == Messages(log, count) + [Message(log, count + 1)]
  {
  }

  /** Messages depend on nothing after the entries they carry. */
  lemma MessagesStable(a: seq<LogEntry>, b: seq<LogEntry>, count: nat)
    requires count < |a| && count < |b| && a[..count + 1] == b[..count + 1]
    ensures Messages(a, count) == Messages(b, count)
  {
    forall i | 0 <= i < count
      ensures Messages(a, count)[i] == Messages(b, count)[i]
    {
      assert a[i + 1] == a[..count + 1][i + 1] == b[..count + 1][i + 1] == b[i + 1];
    }
  }

  /**
   A node that has just voted gives a second vote to another candidate of the same term exactly if
   the first vote went to the empty name, which reads as no vote at all.
   */
  lemma SecondVote(n: Node, first: VoteRequest, second: VoteRequest)
    requires |n.log| > 0 && Grants(n, first)
    requires second.term == first.term && second.candidate != first.candidate && UpToDate(second.last, n.Last())
    ensures Grants(Voted(n, first), second) <==> first.candidate == ""
  {
    assert Voted(n, first).Last() == n.Last();
  }

  class Server {
    const id: string
    var role: Role
    var currentTerm: nat
    var votedFor: string
    var log: seq<LogEntry>
    var commitIndex: nat
    var lastApplied: nat
    /** What went into the apply channel. */
    var sent: seq<ApplyMsg>

    ghost function State(): Node
      reads this
    {
      Node(id, role, currentTerm, votedFor, log, commitIndex, lastApplied)
    }

    constructor (id: string)
      ensures State() == Node(id, Follower, 0, "", [LogEntry(0, [])], 0, 0) && State().Valid() && sent == []
    {
      this.id := id;
      role := Follower;
      currentTerm := 0;
      votedFor := "";
      log := [LogEntry(0, [])];
      commitIndex := 0;
      lastApplied := 0;
      sent := [];
    }

    method BecomeFollower(term: nat)
      modifies `role, `currentTerm, `votedFor
      ensures State() == FollowerAt(old(State()), term)
      ensures currentTerm == if term > old(currentTerm) then term else old(currentTerm)
      ensures votedFor == if term > old(currentTerm) then "" else old(votedFor)
      ensures role == if term >= old(currentTerm) then Follower else old(role)
    {
      if term < currentTerm {
        return;
      }
      if term > currentTerm {
        currentTerm := term;
        votedFor := "";
      }
      role := Follower;
    }

    method RequestVote(req: VoteRequest) returns (response: VoteResponse)
      requires |log| > 0
      modifies `role, `currentTerm, `votedFor
      ensures State() == Voted(old(State()), req)
      ensures response == VoteResponse(currentTerm, Grants(old(State()), req))
      ensures currentTerm == if req.term > old(currentTerm) then req.term else old(currentTerm)
      ensures response.granted <==>
                && (req.term > old(currentTerm) ||
                    (req.term == old(currentTerm) && (old(votedFor) == "" || old(votedFor) == req.candidate)))
                && (req.last.term > log[|log| - 1].term ||
                    (req.last.term == log[|log| - 1].term && req.last.index >= |log| - 1))
      ensures votedFor == if response.granted then req.candidate
                          else if req.term > old(currentTerm) then "" else old(votedFor)
      ensures role == if req.term > old(currentTerm) then Follower else old(role)
    {
      if req.term < currentTerm {
        return VoteResponse(currentTerm, false);
      }
      if req.term > currentTerm {
        BecomeFollower(req.term);
      }
      if votedFor != "" && votedFor != req.candidate {
        return VoteResponse(currentTerm, false);
      }
      var lastIndex := |log| - 1;
      var lastTerm := log[lastIndex].term;
      if !UpToDate(req.last, Position(lastIndex, lastTerm)) {
        return VoteResponse(currentTerm, false);
      }
      votedFor := req.candidate;
      return VoteResponse(currentTerm, true);
    }

    /** The request asks for a vote in the new term, for this node and its own log. */
    method StartElection() returns (req: VoteRequest)
      requires |log| > 0
      modifies `role, `currentTerm, `votedFor
      ensures State() == Standing(old(State()))
      ensures currentTerm == old(currentTerm) + 1 && role == Candidate && votedFor == id
      ensures req.last == Position(|log| - 1, log[|log| - 1].term)
      ensures req == VoteRequest(old(currentTerm) + 1, id, State().Last())
      ensures Grants(State(), req) && Voted(State(), req) == State()
    {
      currentTerm := currentTerm + 1;
      role := Candidate;
      votedFor := id;
      var lastIndex := |log| - 1;
      req := VoteRequest(currentTerm, id, Position(lastIndex, log[lastIndex].term));
    }

    method AppendEntry(term: nat, command: seq<Byte>) returns (index: nat)
      modifies `log
      ensures log == old(log) + [LogEntry(term, command)]
      ensures index < |log| && log[index] == LogEntry(term, command) && index == old(|log|)
    {
      log := log + [LogEntry(term, command)];
      index := |log| - 1;
    }

    method TruncateFrom(index: nat) returns (outcome: Outcome)
      requires State().Valid()
      modifies `log
      ensures State() == Truncated(old(State()), index) && State().Valid()
      ensures log == if commitIndex < index < old(|log|) then old(log)[..index] else old(log)
      ensures outcome.Done? <==> commitIndex < index < old(|log|)
      ensures outcome.DummyEntry? <==> index == 0
      ensures outcome.OutOfRange? <==> index >= old(|log|)
      ensures outcome.AlreadyCommitted? <==> 1 <= index <= commitIndex
    {
      if index == 0 {
        return DummyEntry;
      }
      if index >= |log| {
        return OutOfRange;
      }
      if index <= commitIndex {
        return AlreadyCommitted;
      }
      log := log[..index];
      return Done;
    }

    method AdvanceCommit(index: nat) returns (outcome: Outcome)
      requires State().Valid()
      modifies `commitIndex
      ensures State() == Committed(old(State()), index) && State().Valid()
      ensures outcome == if index < |log| then Done else OutOfRange
      ensures commitIndex == if index >= |log| || index <= old(commitIndex) then old(commitIndex) else index
    {
      var lastIndex := |log| - 1;
      if index > lastIndex {
        return OutOfRange;
      }
      if index <= commitIndex {
        return Done;
      }
      commitIndex := index;
      return Done;
    }

    /** Left alone, the applier sends exactly the committed entries not sent before, in order. */
    method ApplyCommitted()
      requires State().Valid() && sent == Messages(log, lastApplied)
      modifies `lastApplied, `sent
      ensures State() == old(State()).(applied := commitIndex)
      ensures sent == Messages(log, commitIndex) && old(sent) <= sent
      ensures |sent| == commitIndex
      ensures forall i :: 0 <= i < commitIndex ==> sent[i] == ApplyMsg(i + 1, log[i + 1].term, log[i + 1].command)
    {
      while true
        invariant old(lastApplied) <= lastApplied <= commitIndex < |log|
        invariant sent == Messages(log, lastApplied) && old(sent) <= sent
        decreases commitIndex - lastApplied
      {
        if lastApplied >= commitIndex {
          return;
        }
        var index := lastApplied + 1;
        var entry := log[index];
        MessagesGrow(log, lastApplied);
        sent := sent + [ApplyMsg(index, entry.term, entry.command)];
        lastApplied := index;
      }
    }
  }
}
