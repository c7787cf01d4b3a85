/**
 Calls during which nothing fails (internal/node/replication.go, version.go): whatever state the cluster is in, a put
 or delete that reaches all owners of its key succeeds, and a read after it answers exactly what was asked.
 */
module QuietCalls {
  import opened Versions
  import opened Sequences
  import opened Register
  import opened ReadWrite
  import opened Restarts

  /** The first `n` owners have taken the value. */
  function Taken(held: map<(Node, Key), Value>, owners: seq<Node>, k: Key, v: Value, n: nat): map<(Node, Key), Value>
    requires n <= |owners|
  {
    if n == 0 then held else Write(Taken(held, owners, k, v, n - 1), owners[n - 1], k, v)
  }

  /** Everything the owners hold of the key is older than `v`. */
  ghost predicate Newest(held: map<(Node, Key), Value>, owners: seq<Node>, k: Key, v: Version) {
    forall r :: r in owners && (r, k) in held ==> !Leq(v, held[(r, k)].version)
  }

  lemma {:induction false} TakenBy(held: map<(Node, Key), Value>, owners: seq<Node>, k: Key, v: Value, n: nat)
    requires n <= |owners| && Distinct(owners) && Newest(held, owners, k, v.version)
    ensures var after := Taken(held, owners, k, v, n);
            && (forall i :: 0 <= i < n ==> (owners[i], k) in after && after[(owners[i], k)] == v)
            && (forall i :: n <= i < |owners| && (owners[i], k) in after ==>
                  (owners[i], k) in held && after[(owners[i], k)] == held[(owners[i], k)])
  {
    hide Leq;
    if n > 0 {
      TakenBy(held, owners, k, v, n - 1);
      assert owners[n - 1] in owners;
    }
  }

  function Acking(id: nat, owners: seq<Node>, n: nat): seq<Event>
    requires n <= |owners|
  {
    if n == 0 then [] else Acking(id, owners, n - 1) + [Act(WriteAcked(id, owners[n - 1]))]
  }

  /** A round in progress: so many owners have acknowledged, nobody has failed. */
  ghost predicate InRound(cfg: Config, s: State, t: State, id: nat, v: Value, n: nat)
    requires id in s.ops && n <= |cfg.owners(s.ops[id].key)|
  {
    var op, owners := s.ops[id], cfg.owners(s.ops[id].key);
    && t.held == Taken(s.held, owners, op.key, v, n)
    && t.ops == s.ops[id := op.(phase := Writing(v, Elements(owners[..n]), {}))]
  }

  lemma OneMore(owners: seq<Node>, n: nat)
    requires n < |owners| && Distinct(owners)
    ensures Elements(owners[..n + 1]) == Elements(owners[..n]) + {owners[n]}
    ensures owners[n] !in Elements(owners[..n]) && owners[n] in owners
  {
    assert owners[..n + 1] == owners[..n] + [owners[n]];
  }

  lemma AckOne(cfg: Config, s: State, t: State, id: nat, v: Value, n: nat)
    requires id in s.ops && n < |cfg.owners(s.ops[id].key)| && Distinct(cfg.owners(s.ops[id].key))
    requires InRound(cfg, s, t, id, v, n)
    ensures var e := WriteAcked(id, cfg.owners(s.ops[id].key)[n]);
            Enabled(cfg, t, e) && InRound(cfg, s, Do(cfg, t, e), id, v, n + 1)
  {
    hide Write, Distinct, Elements, Do, Enabled;
    var owners, was := cfg.owners(s.ops[id].key), t.ops[id];
    OneMore(owners, n);
    ReportOne(cfg, t, id, owners[n], true);
    var now := was.(phase := Writing(v, Elements(owners[..n + 1]), {}));
    assert Do(cfg, t, WriteAcked(id, owners[n])).ops == t.ops[id := now];
    assert s.ops[id := was][id := now] == s.ops[id := now];
  }

  lemma {:induction false} AcksAll(cfg: Config, s: State, id: nat, v: Value, n: nat)
    requires id in s.ops && s.ops[id].phase == Writing(v, {}, {})
    requires n <= |cfg.owners(s.ops[id].key)| && Distinct(cfg.owners(s.ops[id].key))
    ensures InRound(cfg, s, After(cfg, s, Acking(id, cfg.owners(s.ops[id].key), n)), id, v, n)
  {
    hide *;
    var owners := cfg.owners(s.ops[id].key);
    if n == 0 {
      AcksNone(cfg, s, id, v);
    } else {
      AcksAll(cfg, s, id, v, n - 1);
      AckOne(cfg, s, After(cfg, s, Acking(id, owners, n - 1)), id, v, n - 1);
      AckingMore(cfg, s, id, owners, n);
    }
  }

  lemma AcksNone(cfg: Config, s: State, id: nat, v: Value)
    requires id in s.ops && s.ops[id].phase == Writing(v, {}, {})
    ensures InRound(cfg, s, After(cfg, s, Acking(id, cfg.owners(s.ops[id].key), 0)), id, v, 0)
  {
    assert Elements(cfg.owners(s.ops[id].key)[..0]) == {};
    assert s.ops[id].(phase := Writing(v, {}, {})) == s.ops[id] && s.ops[id := s.ops[id]] == s.ops;
  }

  lemma AckingMore(cfg: Config, s: State, id: nat, owners: seq<Node>, n: nat)
    requires 0 < n <= |owners|
    requires Enabled(cfg, After(cfg, s, Acking(id, owners, n - 1)), WriteAcked(id, owners[n - 1]))
    ensures After(cfg, s, Acking(id, owners, n)) ==
              Do(cfg, After(cfg, s, Acking(id, owners, n - 1)), WriteAcked(id, owners[n - 1]))
  {
    hide After, Do, Enabled;
    AfterOne(cfg, s, Acking(id, owners, n - 1), Act(WriteAcked(id, owners[n - 1])));
  }

  /** With all owners acknowledging, the round returns success. */
  lemma ReturnsOk(cfg: Config, s: State, t: State, id: nat, v: Value)
    requires id in s.ops && Distinct(cfg.owners(s.ops[id].key))
    requires cfg.writeQuorum <= |cfg.owners(s.ops[id].key)|
    requires InRound(cfg, s, t, id, v, |cfg.owners(s.ops[id].key)|)
    ensures Enabled(cfg, t, Return(id))
    ensures var u := Do(cfg, t, Return(id));
            u.held == t.held && u.ops == s.ops[id := s.ops[id].(phase := Returned(v, true))]
  {
    var owners := cfg.owners(s.ops[id].key);
    assert owners[..|owners|] == owners;
    DistinctSize(owners);
    hide Taken;
  }

  /** Reading from owners that all hold the same copy selects it. */
  lemma SelectsCopy(cfg: Config, s: State, id: nat, c: Node, k: Key, v: Value)
    requires Distinct(cfg.owners(k)) && cfg.readQuorum <= |cfg.owners(k)| && cfg.owners(k) != []
    requires forall r :: r in cfg.owners(k) ==> LookupAt(s, r, k) == Some(v)
    ensures var t := Reads(cfg, s, id, c, k, GetOf, |cfg.owners(k)|);
            Enabled(cfg, t, Select(id, Some(v))) && id in Do(cfg, t, Select(id, Some(v))).ops
            && Do(cfg, t, Select(id, Some(v))).ops == t.ops[id := t.ops[id].(phase := Selected(Some(v)))]
  {
    var owners := cfg.owners(k);
    AllAnswered(s, k, owners);
    VersionsTotallyOrdered();
    var t := Reads(cfg, s, id, c, k, GetOf, |owners|);
    assert t.ops[id].replies == AnswersOf(s, k, owners);
    assert IsNewest(AnswersOf(s, k, owners), Some(v)) by {
      assert owners[0] in AnswersOf(s, k, owners);
    }
    hide IsNewest, Leq, AnswersOf, LookupAt, Repairs;
  }

  // ------------------------------------------------------------------ a write and a read

  /** A version above every counter the owners hold is newer than all their copies. */
  lemma CountedIsNewest(cfg: Config, s: State, c: Node, k: Key)
    ensures Newest(s.held, cfg.owners(k), k, Version(NextCounter(cfg, s, c, k), c))
  {
    var owners := cfg.owners(k);
    forall r | r in owners && (r, k) in s.held
      ensures !Leq(Version(NextCounter(cfg, s, c, k), c), s.held[(r, k)].version)
    {
      MaxCounterBounds(owners, AnswersOf(s, k, owners), r);
    }
  }

  /** A put or delete that reaches all owners: it returns success, and they all hold exactly its value. */
  lemma WriteWorks(cfg: Config, s: State, id: nat, c: Node, k: Key, kind: Kind)
    returns (events: seq<Event>, v: Value)
    requires Distinct(cfg.owners(k)) && cfg.readQuorum <= |cfg.owners(k)| && cfg.writeQuorum <= |cfg.owners(k)|
    requires id !in s.ops && !kind.GetOf?
    ensures v == if kind.PutOf? then Value(kind.data, v.version, false) else Value([], v.version, true)
    ensures v.version == Version(NextCounter(cfg, s, c, k), c)
    ensures var t := After(cfg, s, events);
            && t.ops.Keys == s.ops.Keys + {id}
            && t.ops[id].kind == kind && t.ops[id].key == k && t.ops[id].phase == Returned(v, true)
            && forall r :: r in cfg.owners(k) ==> LookupAt(t, r, k) == Some(v)
  {
    hide *;
    var owners, n := cfg.owners(k), NextCounter(cfg, s, c, k);
    v := ValueFor(kind, Version(n, c));
    ValueIs(kind, Version(n, c));
    var asking := Asking(cfg, id, c, k, kind, |owners|) + [Act(Allocate(id))];
    var u := Counted(cfg, s, id, c, k, kind, n);
    CountsOn(cfg, s, id, c, k, kind);
    CountedMeans(cfg, s, id, c, k, kind, n);
    CountedIsNewest(cfg, s, c, k);
    AcksAll(cfg, u, id, v, |owners|);
    var acked := Acking(id, owners, |owners|);
    AfterBoth(cfg, s, asking, acked);
    var t := After(cfg, u, acked);
    ReturnsOk(cfg, u, t, id, v);
    events := asking + acked + [Act(Return(id))];
    AfterOne(cfg, s, asking + acked, Act(Return(id)));
    NextIsDo(cfg, t, Return(id));
    RoundHeld(cfg, u, t, id, v);
    AllTaken(After(cfg, s, events), s.held, owners, k, v);
  }

  lemma ValueIs(kind: Kind, version: Version)
    requires !kind.GetOf?
    ensures ValueFor(kind, version) ==
              if kind.PutOf? then Value(kind.data, version, false) else Value([], version, true)
  {
  }

  lemma NextIsDo(cfg: Config, s: State, step: Step)
    requires Enabled(cfg, s, step)
    ensures Next(cfg, s, Act(step)) == Do(cfg, s, step)
  {
  }

  lemma RoundHeld(cfg: Config, s: State, t: State, id: nat, v: Value)
    requires id in s.ops && InRound(cfg, s, t, id, v, |cfg.owners(s.ops[id].key)|)
    ensures var owners := cfg.owners(s.ops[id].key); t.held == Taken(s.held, owners, s.ops[id].key, v, |owners|)
  {
  }

  lemma AllTaken(t: State, held: map<(Node, Key), Value>, owners: seq<Node>, k: Key, v: Value)
    requires Distinct(owners) && Newest(held, owners, k, v.version) && t.held == Taken(held, owners, k, v, |owners|)
    ensures forall r :: r in owners ==> LookupAt(t, r, k) == Some(v)
  {
    TakenBy(held, owners, k, v, |owners|);
    hide Newest, Taken;
  }

  /**
   From any state whatever: a put or delete of a key all of whose owners answer and acknowledge returns success, and
   a get that then reads all owners answers with exactly the data put, or that there is none after a delete.
   */
  lemma WriteThenRead(cfg: Config, s: State, w: nat, g: nat, c: Node, d: Node, k: Key, kind: Kind)
    returns (events: seq<Event>)
    requires Distinct(cfg.owners(k)) && cfg.owners(k) != []
    requires cfg.readQuorum <= |cfg.owners(k)| && cfg.writeQuorum <= |cfg.owners(k)|
    requires w !in s.ops && g !in s.ops && w != g && !kind.GetOf?
    ensures var t := After(cfg, s, events);
            && w in t.ops && g in t.ops
            && t.ops[w].kind == kind && t.ops[w].phase.Returned? && t.ops[w].phase.ok
            && t.ops[g].kind == GetOf && t.ops[g].coordinator == d && t.ops[g].phase.Selected?
            && Respond(t.ops[g].phase.latest) == if kind.PutOf? then Present(kind.data) else Absent
  {
    hide *;
    var n := |cfg.owners(k)|;
    var v;
    events, v := WriteWorks(cfg, s, w, c, k, kind);
    var t := After(cfg, s, events);
    AsksAll(cfg, t, g, d, k, GetOf, n);
    AfterBoth(cfg, s, events, Asking(cfg, g, d, k, GetOf, n));
    SelectsCopy(cfg, t, g, d, k, v);
    ReadsOps(cfg, t, g, d, k, GetOf, n);
    var asked := events + Asking(cfg, g, d, k, GetOf, n);
    AfterOne(cfg, s, asked, Act(Select(g, Some(v))));
    NextIsDo(cfg, Reads(cfg, t, g, d, k, GetOf, n), Select(g, Some(v)));
    RespondIs(v);
    events := asked + [Act(Select(g, Some(v)))];
  }

  lemma ReadsOps(cfg: Config, s: State, id: nat, c: Node, k: Key, kind: Kind, n: nat)
    requires n <= |cfg.owners(k)|
    ensures var t := Reads(cfg, s, id, c, k, kind, n);
            && t.ops.Keys == s.ops.Keys + {id} && t.ops[id].kind == kind && t.ops[id].coordinator == c
            && forall i :: i in s.ops && i != id ==> t.ops[i] == s.ops[i]
  {
    hide AnswersOf;
  }

  lemma RespondIs(v: Value)
    ensures Respond(Some(v)) == if v.deleted then Absent else Present(v.data)
  {
  }
}
