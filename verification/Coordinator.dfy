/**
 The loops a coordinator runs (internal/node/hint.go, replication.go, version.go), each proved to
 compute what the corresponding step of `Register` does, whatever order the results arrive in.
 */
module Coordinator {
  import opened Versions
  import opened Sequences
  import opened Register

  // ------------------------------------------------------------------ the hint store

  datatype Hint = Hint(replica: Node, key: Key, value: Value)

  function HintKey(replica: Node, key: Key): string {
    replica + "|" + key
  }

  /** Two hint keys start with both replica names and separators, so one of those is a prefix of the other. */
  lemma HintKeyPrefixes(r: Node, k: Key, q: Node, l: Key)
    requires HintKey(r, k) == HintKey(q, l)
    ensures if |r| <= |q| then r + "|" <= q + "|" else q + "|" <= r + "|"
    ensures r == q ==> k == l
  {
    var s := HintKey(r, k);
    assert r + "|" == s[..|r| + 1] && q + "|" == s[..|q| + 1];
    assert k == s[|r| + 1..] && l == s[|q| + 1..];
    if |r| <= |q| {
      assert s[..|q| + 1][..|r| + 1] == s[..|r| + 1];
    } else {
      assert s[..|r| + 1][..|q| + 1] == s[..|q| + 1];
    }
  }

  /** A longer name that starts with `r` and a separator takes `r`'s slot for the right keys. */
  lemma HintKeyClash(r: Node, q: Node)
    requires r + "|" <= q
    ensures HintKey(r, q[|r| + 1..] + "|") == HintKey(q, "")
  {
    assert q == r + "|" + q[|r| + 1..];
  }

  /**
   Hints for two different replicas can share a slot if and only if one name, followed by the separator,
   starts the other; that a name contains the separator is not enough.
   */
  lemma HintKeysMeetIff(r: Node, q: Node)
    requires r != q
    ensures (exists k, l :: HintKey(r, k) == HintKey(q, l)) <==> r + "|" <= q || q + "|" <= r
  {
    if r + "|" <= q {
      HintKeyClash(r, q);
    } else if q + "|" <= r {
      HintKeyClash(q, r);
    }
    if k, l :| HintKey(r, k) == HintKey(q, l) {
      HintKeyPrefixes(r, k, q, l);
      NamesDiffer(r, q);
    }
  }

  lemma NamesDiffer(r: Node, q: Node)
    requires r != q && (if |r| <= |q| then r + "|" <= q + "|" else q + "|" <= r + "|")
    ensures r + "|" <= q || q + "|" <= r
  {
    assert r == (r + "|")[..|r|] && q == (q + "|")[..|q|];
    if |r| < |q| {
      assert (q + "|")[..|r| + 1] == q[..|r| + 1];
    } else if |q| < |r| {
      assert (r + "|")[..|q| + 1] == r[..|q| + 1];
    }
  }

  /** No name, followed by the separator, starts another. */
  ghost predicate Separable(names: set<Node>) {
    forall r, q :: r in names && q in names && r != q ==> !(r + "|" <= q)
  }

  lemma HintKeyInjective(names: set<Node>, r: Node, k: Key, q: Node, l: Key)
    requires Separable(names) && r in names && q in names && HintKey(r, k) == HintKey(q, l)
    ensures r == q && k == l
  {
    HintKeyPrefixes(r, k, q, l);
    if r != q {
      NamesDiffer(r, q);
      assert false;
    }
  }

  /** The hint kept for a replica and key. */
  function Kept(hints: map<string, Hint>, r: Node, k: Key): Option<Value> {
    if HintKey(r, k) in hints then Some(hints[HintKey(r, k)].value) else None
  }

  /** Among the replicas in `names`, which stay apart, the slots hold exactly this coordinator's part of `all`. */
  ghost predicate Shown(names: set<Node>, self: Node, hints: map<string, Hint>, all: map<(Node, Node, Key), Value>) {
    && Separable(names)
    && (forall s :: s in hints ==> s == HintKey(hints[s].replica, hints[s].key) && hints[s].replica in names)
    && forall r, k :: r in names ==> Kept(hints, r, k) == if (self, r, k) in all then Some(all[(self, r, k)]) else None
  }

  function Added(hints: map<string, Hint>, replica: Node, key: Key, value: Value): map<string, Hint> {
    var k := HintKey(replica, key);
    if k in hints && !Newer(value, hints[k].value) then hints else hints[k := Hint(replica, key, value)]
  }

  function RemovedIfMatch(hints: map<string, Hint>, replica: Node, key: Key, version: Version): map<string, Hint> {
    var k := HintKey(replica, key);
    if k in hints && hints[k].value.version == version then hints - {k} else hints
  }

  /** Changing the slot of one hint changes no other replica's or key's hint. */
  lemma OthersUnmoved(names: set<Node>, was: map<string, Hint>, hints: map<string, Hint>, replica: Node, key: Key,
                      r: Node, l: Key)
    requires Separable(names) && replica in names && r in names && (r, l) != (replica, key)
    requires forall s :: s != HintKey(replica, key) ==> (s in was <==> s in hints) && (s in was ==> was[s] == hints[s])
    ensures Kept(hints, r, l) == Kept(was, r, l)
  {
    if HintKey(r, l) == HintKey(replica, key) {
      HintKeyInjective(names, r, l, replica, key);
    }
  }

  lemma AddShows(names: set<Node>, self: Node, hints: map<string, Hint>, all: map<(Node, Node, Key), Value>,
                 replica: Node, key: Key, value: Value)
    requires Shown(names, self, hints, all) && replica in names
    ensures Shown(names, self, Added(hints, replica, key, value), AddHint(all, self, replica, key, value))
  {
    var after, left := Added(hints, replica, key, value), AddHint(all, self, replica, key, value);
    assert Kept(hints, replica, key) == if (self, replica, key) in all then Some(all[(self, replica, key)]) else None;
    if HintKey(replica, key) in hints {
      CompareVersionSeparates(value.version, hints[HintKey(replica, key)].value.version);
    }
    hide Separable, Leq, HintKey;
    forall r, k | r in names && (r, k) != (replica, key)
      ensures Kept(after, r, k) == if (self, r, k) in left then Some(left[(self, r, k)]) else None
    {
      OthersUnmoved(names, hints, after, replica, key, r, k);
    }
  }

  lemma RemoveShows(names: set<Node>, self: Node, hints: map<string, Hint>, all: map<(Node, Node, Key), Value>,
                    replica: Node, key: Key, version: Version)
    requires Shown(names, self, hints, all) && replica in names
    ensures Shown(names, self, RemovedIfMatch(hints, replica, key, version),
                  RemoveHint(all, self, replica, key, version))
  {
    var after, left := RemovedIfMatch(hints, replica, key, version), RemoveHint(all, self, replica, key, version);
    assert Kept(hints, replica, key) == if (self, replica, key) in all then Some(all[(self, replica, key)]) else None;
    hide Separable, HintKey;
    forall r, k | r in names && (r, k) != (replica, key)
      ensures Kept(after, r, k) == if (self, r, k) in left then Some(left[(self, r, k)]) else None
    {
      OthersUnmoved(names, hints, after, replica, key, r, k);
    }
  }

  class HintStore {
    const self: Node
    ghost const names: set<Node>  // replicas whose hints this store keeps apart
    var hints: map<string, Hint>

    function Lookup(r: Node, k: Key): Option<Value>
      reads this
    {
      Kept(hints, r, k)
    }

    ghost predicate Shows(all: map<(Node, Node, Key), Value>)
      reads this
    {
      Shown(names, self, hints, all)
    }

    constructor (self: Node, ghost names: set<Node>)
      ensures this.self == self && this.names == names && hints == map[]
      ensures Separable(names) ==> Shows(map[])
    {
      this.self, this.names := self, names;
      hints := map[];
    }

    /** Any name may be given; a store whose names stay apart keeps showing the hints there should be. */
    method Add(replica: Node, key: Key, value: Value, ghost all: map<(Node, Node, Key), Value>)
      modifies this
      ensures hints == Added(old(hints), replica, key, value)
      ensures old(Shows(all)) && replica in names ==> Shows(AddHint(all, self, replica, key, value))
    {
      if Shows(all) && replica in names {
        AddShows(names, self, hints, all, replica, key, value);
      }
      hide Shown, AddHint;
      var k := HintKey(replica, key);
      if k in hints {
        if !Newer(value, hints[k].value) {
          return;
        }
      }
      hints := hints[k := Hint(replica, key, value)];
    }

    method RemoveIfMatch(replica: Node, key: Key, version: Version, ghost all: map<(Node, Node, Key), Value>)
      modifies this
      ensures hints == RemovedIfMatch(old(hints), replica, key, version)
      ensures old(Shows(all)) && replica in names ==> Shows(RemoveHint(all, self, replica, key, version))
    {
      if Shows(all) && replica in names {
        RemoveShows(names, self, hints, all, replica, key, version);
      }
      hide Shown, RemoveHint;
      var k := HintKey(replica, key);
      if k !in hints {
        return;
      }
      CompareVersionSeparates(hints[k].value.version, version);
      if CompareVersion(hints[k].value.version, version) != 0 {
        return;
      }
      hints := hints - {k};
    }
  }

  // ------------------------------------------------------------------ a replication round

  datatype WriteResult = WriteResult(replica: Node, ok: bool)

  function Acks(results: seq<WriteResult>): set<Node> {
    set r | r in results && r.ok :: r.replica
  }

  predicate OneResultEach(results: seq<WriteResult>) {
    forall i, j :: 0 <= i < j < |results| ==> results[i].replica != results[j].replica
  }

  /** The hints after the failures among `results`, taken in order. */
  function HintsAfter(hints: map<(Node, Node, Key), Value>, c: Node, k: Key, v: Value, results: seq<WriteResult>)
    : map<(Node, Node, Key), Value>
  {
    if results == [] then hints
    else
      var rest := HintsAfter(hints, c, k, v, results[..|results| - 1]);
      var last := results[|results| - 1];
      if last.ok then rest else AddHint(rest, c, last.replica, k, v)
  }

  lemma AcksGrow(results: seq<WriteResult>, i: nat)
    requires i < |results| && OneResultEach(results)
    ensures Acks(results[..i + 1]) == if results[i].ok then Acks(results[..i]) + {results[i].replica}
            else Acks(results[..i])
    ensures results[i].replica !in Acks(results[..i])
  {
    assert results[..i + 1] == results[..i] + [results[i]];
  }

  /** `replicateValue`: hints for failed replicas, success once a write quorum acknowledged. */
  method ReplicateValue(hints: HintStore, key: Key, value: Value, results: seq<WriteResult>, writeQuorum: nat,
                        ghost all: map<(Node, Node, Key), Value>)
    returns (ok: bool)
    requires hints.Shows(all) && OneResultEach(results)
    requires forall i :: 0 <= i < |results| ==> results[i].replica in hints.names
    modifies hints
    ensures ok == (|Acks(results)| >= writeQuorum)
    ensures hints.Shows(HintsAfter(all, hints.self, key, value, results))
  {
    hide AddHint, HintStore.Shows, HintsAfter;
    var success := 0;
    var i := 0;
    NoResults(all, hints.self, key, value);
    assert results[..0] == [];
    while i < |results|
      invariant 0 <= i <= |results|
      invariant success == |Acks(results[..i])|
      invariant hints.Shows(HintsAfter(all, hints.self, key, value, results[..i]))
    {
      AcksGrow(results, i);
      NextHints(all, hints.self, key, value, results, i);
      if results[i].ok {
        success := success + 1;
      } else {
        hints.Add(results[i].replica, key, value, HintsAfter(all, hints.self, key, value, results[..i]));
      }
      i := i + 1;
    }
    assert results[..i] == results;
    return success >= writeQuorum;
  }

  lemma NoResults(all: map<(Node, Node, Key), Value>, c: Node, k: Key, v: Value)
    ensures HintsAfter(all, c, k, v, []) == all && Acks([]) == {}
  {
  }

  lemma NextHints(all: map<(Node, Node, Key), Value>, c: Node, k: Key, v: Value, results: seq<WriteResult>, i: nat)
    requires i < |results|
    ensures var before := HintsAfter(all, c, k, v, results[..i]);
            HintsAfter(all, c, k, v, results[..i + 1]) == if results[i].ok then before
            else AddHint(before, c, results[i].replica, k, v)
  {
    assert results[..i + 1][..i] == results[..i];
  }

  /** The steps of `Register` that a round with these results takes. */
  function RoundSteps(id: nat, results: seq<WriteResult>): seq<Step> {
    if results == [] then []
    else RoundSteps(id, results[..|results| - 1]) + [ReportStep(id, results[|results| - 1])]
  }

  function ReportStep(id: nat, result: WriteResult): Step {
    if result.ok then WriteAcked(id, result.replica) else WriteFailed(id, result.replica)
  }

  function Failures(results: seq<WriteResult>): set<Node> {
    set r | r in results && !r.ok :: r.replica
  }

  lemma {:induction false} RoundEnds(cfg: Config, before: seq<Step>, id: nat, results: seq<WriteResult>)
    requires OneResultEach(results)
    requires id in Run(cfg, before).ops && Run(cfg, before).ops[id].phase.Writing?
    requires var op := Run(cfg, before).ops[id]; op.phase.acks == {} && op.phase.errors == {}
    requires forall i :: 0 <= i < |results| ==> results[i].replica in cfg.owners(Run(cfg, before).ops[id].key)
    ensures var s, t := Run(cfg, before), Run(cfg, before + RoundSteps(id, results));
            var op := s.ops[id];
            && t.hints == HintsAfter(s.hints, op.coordinator, op.key, op.phase.value, results)
            && t.ops == s.ops[id := op.(phase := Writing(op.phase.value, Acks(results), Failures(results)))]
  {
    hide Do, Enabled, AddHint, Run, Acks, Failures, OneResultEach;
    var s := Run(cfg, before);
    var op := s.ops[id];
    if results == [] {
      assert before + [] == before;
      NoneReported();
      assert op.(phase := Writing(op.phase.value, {}, {})) == op;
    } else {
      var n := |results| - 1;
      var sofar := before + RoundSteps(id, results[..n]);
      FewerResults(results);
      RoundEnds(cfg, before, id, results[..n]);
      assert before + RoundSteps(id, results) == sofar + [ReportStep(id, results[n])];
      var t := Run(cfg, sofar);
      ResultsGrow(results);
      assert CanReport(cfg, t, id, results[n].replica);
      ReportOne(cfg, t, id, results[n].replica, results[n].ok);
      RunMore(cfg, sofar, ReportStep(id, results[n]));
    }
  }

  lemma NoneReported()
    ensures Acks([]) == {} && Failures([]) == {}
  {
  }

  lemma FewerResults(results: seq<WriteResult>)
    requires results != [] && OneResultEach(results)
    ensures OneResultEach(results[..|results| - 1])
  {
  }

  lemma ResultsGrow(results: seq<WriteResult>)
    requires results != [] && OneResultEach(results)
    ensures var n := |results| - 1;
            var last := results[n];
            && last.replica !in Acks(results[..n]) && last.replica !in Failures(results[..n])
            && Acks(results) == (if last.ok then Acks(results[..n]) + {last.replica} else Acks(results[..n]))
            && Failures(results) ==
                 (if last.ok then Failures(results[..n]) else Failures(results[..n]) + {last.replica})
  {
    var n := |results| - 1;
    assert results == results[..n] + [results[n]];
  }

  /**
   The loop is a run of the step system: reporting the results one by one leads to exactly the hints
   the loop stores, and the following `Return` gives exactly the loop's verdict.
   */
  lemma {:induction false} RoundRefines(cfg: Config, before: seq<Step>, id: nat, results: seq<WriteResult>)
    requires OneResultEach(results)
    requires id in Run(cfg, before).ops && Run(cfg, before).ops[id].phase.Writing?
    requires var op := Run(cfg, before).ops[id]; op.phase.acks == {} && op.phase.errors == {}
    requires forall r :: r in cfg.owners(Run(cfg, before).ops[id].key) <==>
               exists i :: 0 <= i < |results| && results[i].replica == r
    ensures var s, t := Run(cfg, before), Run(cfg, before + RoundSteps(id, results) + [Return(id)]);
            var op := s.ops[id];
            && t.hints == HintsAfter(s.hints, op.coordinator, op.key, op.phase.value, results)
            && id in t.ops && t.ops[id].phase == Returned(op.phase.value, |Acks(results)| >= cfg.writeQuorum)
  {
    var s := Run(cfg, before);
    var op := s.ops[id];
    RoundEnds(cfg, before, id, results);
    var steps := before + RoundSteps(id, results);
    var t := Run(cfg, steps);
    assert (steps + [Return(id)])[..|steps|] == steps;
    forall r | r in cfg.owners(op.key) ensures r in Acks(results) + Failures(results) {
      var i :| 0 <= i < |results| && results[i].replica == r;
      assert results[i] in results;
    }
    hide HintsAfter, RoundSteps;
    assert Enabled(cfg, t, Return(id));
  }

  // ------------------------------------------------------------------ reading

  datatype ReadResult = ReadResult(replica: Node, reply: Reply)

  predicate OneReplyEach(results: seq<ReadResult>) {
    forall i, j :: 0 <= i < j < |results| ==> results[i].replica != results[j].replica
  }

  function RepliesOf(results: seq<ReadResult>): map<Node, Reply> {
    if results == [] then map[]
    else RepliesOf(results[..|results| - 1])[results[|results| - 1].replica := results[|results| - 1].reply]
  }

  lemma {:induction false} RepliesOfMember(results: seq<ReadResult>, r: Node)
    ensures r in RepliesOf(results) <==> exists i :: 0 <= i < |results| && results[i].replica == r
  {
    if results != [] {
      var n := |results| - 1;
      RepliesOfMember(results[..n], r);
      if i :| 0 <= i < |results| && results[i].replica == r && i < n {
        assert results[..n][i].replica == r;
      }
      if r in RepliesOf(results[..n]) {
        var i :| 0 <= i < n && results[..n][i].replica == r;
        assert results[i].replica == r;
      } else if r in RepliesOf(results) {
        assert results[n].replica == r;
      }
    }
  }

  lemma NextReply(results: seq<ReadResult>, i: nat)
    requires i < |results| && OneReplyEach(results)
    ensures results[i].replica !in RepliesOf(results[..i])
    ensures RepliesOf(results[..i + 1]) == RepliesOf(results[..i])[results[i].replica := results[i].reply]
  {
    assert results[..i + 1][..i] == results[..i];
    RepliesOfMember(results[..i], results[i].replica);
  }

  lemma AnsweredGrows(replies: map<Node, Reply>, r: Node, reply: Reply)
    requires r !in replies
    ensures |Answered(replies[r := reply])| == |Answered(replies)| + if reply.Answer? then 1 else 0
  {
    assert Answered(replies[r := reply]) == if reply.Answer? then Answered(replies) + {r} else Answered(replies);
  }

  lemma NewestGrows(replies: map<Node, Reply>, latest: Option<Value>, r: Node, reply: Reply)
    requires r !in replies && IsNewest(replies, latest)
    ensures var v := Found(reply);
            IsNewest(replies[r := reply], if v.Some? && (latest.None? || Newer(v.value, latest.value)) then v
            else latest)
  {
    var v := Found(reply);
    var next := replies[r := reply];
    var newest := if v.Some? && (latest.None? || Newer(v.value, latest.value)) then v else latest;
    if latest.Some? {
      var q :| q in replies && Found(replies[q]) == latest;
      assert q in next && Found(next[q]) == latest;
      if v.Some? {
        CompareVersionSeparates(v.value.version, latest.value.version);
      }
    }
    assert r in next && next[r] == reply;
    forall q | q in next && Found(next[q]).Some?
      ensures newest.Some? && Leq(Found(next[q]).value.version, newest.value.version)
    {
      if q == r {
        CompareVersionSeparates(v.value.version, v.value.version);
      } else if newest != latest {
        LeqTransitive(Found(next[q]).value.version, latest.value.version, newest.value.version);
      }
    }
  }

  /** The collecting loop of `Get`: how many replicas answered, and a newest copy among the answers. */
  method SelectLatest(results: seq<ReadResult>) returns (success: nat, latest: Option<Value>)
    requires OneReplyEach(results)
    ensures success == |Answered(RepliesOf(results))|
    ensures IsNewest(RepliesOf(results), latest)
  {
    hide IsNewest, Answered, RepliesOf, Newer;
    success, latest := 0, None;
    var i := 0;
    assert Answered(RepliesOf(results[..0])) == {} && IsNewest(RepliesOf(results[..0]), None) by {
      NoReplies();
    }
    while i < |results|
      invariant 0 <= i <= |results|
      invariant success == |Answered(RepliesOf(results[..i]))|
      invariant IsNewest(RepliesOf(results[..i]), latest)
    {
      var replies := RepliesOf(results[..i]);
      NextReply(results, i);
      AnsweredGrows(replies, results[i].replica, results[i].reply);
      NewestGrows(replies, latest, results[i].replica, results[i].reply);
      if results[i].reply.Answer? {
        success := success + 1;
        if results[i].reply.value.Some? {
          if latest.None? || Newer(results[i].reply.value.value, latest.value) {
            latest := results[i].reply.value;
          }
        }
      }
      i := i + 1;
    }
    assert results[..i] == results;
  }

  lemma NoReplies()
    ensures Answered(RepliesOf([])) == {} && IsNewest(RepliesOf([]), None)
  {
  }

  /** The second loop of `Get`: which replicas are sent the newest copy. */
  method RepairTargets(ghost op: Op, results: seq<ReadResult>, latest: Value) returns (targets: set<Node>)
    requires OneReplyEach(results) && op.replies == RepliesOf(results)
    ensures (set r | r in targets :: (r, op.key, latest)) == Repairs(op, Some(latest))
    ensures forall r :: r in targets <==> r in RepliesOf(results) && NeedsRepair(RepliesOf(results)[r], latest)
  {
    targets := {};
    var i := 0;
    while i < |results|
      invariant 0 <= i <= |results|
      invariant forall r :: r in targets <==>
                  exists j :: 0 <= j < i && results[j].replica == r && NeedsRepair(results[j].reply, latest)
    {
      if NeedsRepair(results[i].reply, latest) {
        targets := targets + {results[i].replica};
      }
      i := i + 1;
    }
    forall r
      ensures r in targets <==> r in RepliesOf(results) && NeedsRepair(RepliesOf(results)[r], latest)
    {
      RepliesOfMember(results, r);
      if j :| 0 <= j < |results| && results[j].replica == r {
        ReplyOf(results, j);
      }
    }
    forall r | r in op.replies ensures NeedsRepair(op.replies[r], latest) ==
        (op.replies[r].Answer? &&
        (op.replies[r].value.None? || !Leq(latest.version, op.replies[r].value.value.version)))
    {
      if op.replies[r].Answer? && op.replies[r].value.Some? {
        CompareVersionSeparates(latest.version, op.replies[r].value.value.version);
      }
    }
  }

  predicate NeedsRepair(reply: Reply, latest: Value) {
    reply.Answer? && (reply.value.None? || Newer(latest, reply.value.value))
  }

  lemma {:induction false} ReplyOf(results: seq<ReadResult>, j: nat)
    requires OneReplyEach(results) && j < |results|
    ensures results[j].replica in RepliesOf(results) && RepliesOf(results)[results[j].replica] == results[j].reply
  {
    var n := |results| - 1;
    if j < n {
      ReplyOf(results[..n], j);
    }
  }

  /** The collecting loop of `nextVersion`: how many replicas answered, and the largest counter read. */
  method LargestCounter(owners: seq<Node>, results: seq<ReadResult>) returns (success: nat, largest: nat)
    requires OneReplyEach(results) && forall i :: 0 <= i < |results| ==> results[i].replica in owners
    ensures success == |Answered(RepliesOf(results))|
    ensures largest == MaxCounter(owners, RepliesOf(results))
  {
    hide Answered, RepliesOf;
    success, largest := 0, 0;
    var i := 0;
    NoReplies();
    assert results[..0] == [];
    while i < |results|
      invariant 0 <= i <= |results|
      invariant success == |Answered(RepliesOf(results[..i]))|
      invariant IsLargest(RepliesOf(results[..i]), largest)
    {
      NextReply(results, i);
      AnsweredGrows(RepliesOf(results[..i]), results[i].replica, results[i].reply);
      LargestGrows(RepliesOf(results[..i]), largest, results[i].replica, results[i].reply);
      if results[i].reply.Answer? {
        success := success + 1;
        if results[i].reply.value.Some? && results[i].reply.value.value.version.counter > largest {
          largest := results[i].reply.value.value.version.counter;
        }
      }
      i := i + 1;
    }
    assert results[..i] == results;
    forall r | r in RepliesOf(results) ensures r in owners {
      RepliesOfMember(results, r);
    }
    LargestIsMax(owners, RepliesOf(results), largest);
  }

  ghost predicate IsLargest(replies: map<Node, Reply>, m: nat) {
    && (forall r :: r in replies && Found(replies[r]).Some? ==> Found(replies[r]).value.version.counter <= m)
    && (m == 0 || exists r :: r in replies && Found(replies[r]).Some? && Found(replies[r]).value.version.counter == m)
  }

  lemma LargestGrows(replies: map<Node, Reply>, m: nat, r: Node, reply: Reply)
    requires r !in replies && IsLargest(replies, m)
    ensures var v := Found(reply);
            IsLargest(replies[r := reply], if v.Some? && v.value.version.counter > m then v.value.version.counter
            else m)
  {
    var next := replies[r := reply];
    assert r in next && next[r] == reply;
    if q :| q in replies && Found(replies[q]).Some? && Found(replies[q]).value.version.counter == m {
      assert q in next && next[q] == replies[q];
    }
  }

  /** The largest counter does not depend on the order of the replica list. */
  lemma LargestIsMax(owners: seq<Node>, replies: map<Node, Reply>, m: nat)
    requires IsLargest(replies, m) && forall r :: r in replies ==> r in owners
    ensures m == MaxCounter(owners, replies)
  {
    MaxCounterReached(owners, replies);
    if m != 0 {
      var r :| r in replies && Found(replies[r]).Some? && Found(replies[r]).value.version.counter == m;
      MaxCounterBounds(owners, replies, r);
    }
  }

  lemma {:induction false} MaxCounterReached(owners: seq<Node>, replies: map<Node, Reply>)
    ensures var m := MaxCounter(owners, replies);
            m == 0 ||
            exists r :: r in replies && Found(replies[r]).Some? && Found(replies[r]).value.version.counter == m
  {
    if owners != [] {
      MaxCounterReached(owners[..|owners| - 1], replies);
    }
  }

  // ------------------------------------------------------------------ allocating a counter

  class VersionCell {
    var counter: nat
  }

  /** Each counter is above the one it replaces. */
  predicate Rising(start: nat, rivals: seq<nat>) {
    forall i :: 0 <= i < |rivals| ==> rivals[i] > if i == 0 then start else rivals[i - 1]
  }

  /**
   The compare-and-swap loop of `nextVersion`. `rivals` are the counters other requests install between
   a load and the swap that follows it; each is above the one it replaces. The loop ends, and the counter
   it hands out is above everything read and everything installed before it.
   */
  method AllocateCounter(cell: VersionCell, largest: nat, rivals: seq<nat>) returns (next: nat)
    requires Rising(cell.counter, rivals)
    modifies cell
    ensures next > largest && next > old(cell.counter) && cell.counter == next
    ensures forall i :: 0 <= i < |rivals| ==> next > rivals[i]
    ensures next == Max(largest, if rivals == [] then old(cell.counter) else rivals[|rivals| - 1]) + 1
  {
    var i := 0;
    while true
      invariant 0 <= i <= |rivals|
      invariant cell.counter == if i == 0 then old(cell.counter) else rivals[i - 1]
      invariant cell.counter >= old(cell.counter)
      invariant forall j :: 0 <= j < i ==> rivals[j] <= cell.counter
      decreases |rivals| - i
    {
      var current := cell.counter;
      var base := largest;
      if current > base {
        base := current;
      }
      next := base + 1;
      if i < |rivals| {
        assert rivals[i] > current;
        cell.counter := rivals[i];
        i := i + 1;
      }
      if cell.counter == current {
        assert i == |rivals|;
        cell.counter := next;
        return;
      }
    }
  }
}
