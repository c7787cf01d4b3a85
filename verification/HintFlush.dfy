/**
 The hand-off loop of the hint store (`flushHints`, internal/node/hint.go): every listed hint is sent to
 its replica, and dropped once the replica acknowledged it.
 */
module HintFlush {
  import opened Versions
  import opened Requests
  import opened Register
  import opened Coordinator

  type Held = map<(Node, Key), Value>
  type Hints = map<(Node, Node, Key), Value>

  datatype Sent = Sent(hint: Hint, outcome: Outcome)

  /** What the replicas hold after the requests in `sent`. */
  function HeldAfter(held: Held, sent: seq<Sent>): Held {
    if sent == [] then held
    else
      var rest := HeldAfter(held, sent[..|sent| - 1]);
      var s := sent[|sent| - 1];
      if s.outcome.NotApplied? then rest else Write(rest, s.hint.replica, s.hint.key, s.hint.value)
  }

  /** The hints left after the acknowledged ones in `sent` were dropped. */
  function HintsLeft(hints: Hints, c: Node, sent: seq<Sent>): Hints {
    if sent == [] then hints
    else
      var rest := HintsLeft(hints, c, sent[..|sent| - 1]);
      var s := sent[|sent| - 1];
      if s.outcome.Applied? then RemoveHint(rest, c, s.hint.replica, s.hint.key, s.hint.value.version) else rest
  }

  ghost predicate HoldsAtLeast(held: Held, r: Node, k: Key, version: Version) {
    (r, k) in held && Leq(version, held[(r, k)].version)
  }

  lemma WriteAtLeast(held: Held, r: Node, k: Key, v: Value)
    ensures HoldsAtLeast(Write(held, r, k, v), r, k, v.version)
    ensures forall q, l, u :: HoldsAtLeast(held, q, l, u) ==> HoldsAtLeast(Write(held, r, k, v), q, l, u)
  {
    VersionsTotallyOrdered();
    hide Leq;
  }

  /** A hint leaves only after its replica holds at least its version, and no replica goes back. */
  lemma {:induction false} NoHintLost(held: Held, hints: Hints, c: Node, sent: seq<Sent>, r: Node, k: Key,
                                      version: Version)
    ensures HoldsAtLeast(held, r, k, version) ==> HoldsAtLeast(HeldAfter(held, sent), r, k, version)
    ensures (c, r, k) in hints ==>
              || ((c, r, k) in HintsLeft(hints, c, sent) && HintsLeft(hints, c, sent)[(c, r, k)] == hints[(c, r, k)])
              || HoldsAtLeast(HeldAfter(held, sent), r, k, hints[(c, r, k)].version)
    ensures (c, r, k) !in hints ==> (c, r, k) !in HintsLeft(hints, c, sent)
  {
    if sent != [] {
      var n := |sent| - 1;
      NoHintLost(held, hints, c, sent[..n], r, k, version);
      var h := sent[n].hint;
      WriteAtLeast(HeldAfter(held, sent[..n]), h.replica, h.key, h.value);
      hide Write, Leq;
    }
  }

  /** A hint whose hand-off was acknowledged is gone, if it was not replaced meanwhile. */
  lemma {:induction false} AcknowledgedDropped(hints: Hints, c: Node, sent: seq<Sent>, i: nat)
    requires i < |sent| && sent[i].outcome.Applied?
    requires var h := sent[i].hint; (c, h.replica, h.key) in hints ==> hints[(c, h.replica, h.key)] == h.value
    ensures (c, sent[i].hint.replica, sent[i].hint.key) !in HintsLeft(hints, c, sent)
  {
    var n := |sent| - 1;
    var h := sent[i].hint;
    if i < n {
      AcknowledgedDropped(hints, c, sent[..n], i);
    } else {
      StaysOrGoes(hints, c, sent[..n], h.replica, h.key);
    }
  }

  lemma {:induction false} StaysOrGoes(hints: Hints, c: Node, sent: seq<Sent>, r: Node, k: Key)
    ensures (c, r, k) in HintsLeft(hints, c, sent) ==>
              (c, r, k) in hints && HintsLeft(hints, c, sent)[(c, r, k)] == hints[(c, r, k)]
  {
    if sent != [] {
      StaysOrGoes(hints, c, sent[..|sent| - 1], r, k);
    }
  }

  /** `sent` pairs every hint of the store, once, with what becomes of its request. */
  ghost predicate Lists(store: HintStore, sent: seq<Sent>)
    reads store
  {
    && (forall i :: 0 <= i < |sent| ==> IsStored(store, sent[i].hint))
    && (forall s :: s in store.hints ==> exists i :: 0 <= i < |sent| && sent[i].hint == store.hints[s])
  }

  ghost predicate IsStored(store: HintStore, h: Hint)
    reads store
  {
    HintKey(h.replica, h.key) in store.hints && store.hints[HintKey(h.replica, h.key)] == h
  }

  /** `flushHints`: a failed hand-off is skipped and its hint kept. */
  method FlushHints(store: HintStore, sent: seq<Sent>, held: Held, ghost all: Hints) returns (after: Held)
    requires store.Shows(all) && Lists(store, sent)
    modifies store
    ensures after == HeldAfter(held, sent)
    ensures store.Shows(HintsLeft(all, store.self, sent))
    ensures forall r, k :: r in store.names && old(store.Lookup(r, k)).Some? ==>
              store.Lookup(r, k) == old(store.Lookup(r, k)) ||
              HoldsAtLeast(after, r, k, old(store.Lookup(r, k)).value.version)
    ensures (forall i :: 0 <= i < |sent| ==> sent[i].outcome.Applied?) ==> store.hints == map[]
  {
    hide *;
    ghost var stored := store.hints;
    ghost var self := store.self;
    LookupIsKept(store);
    ListedAreValid(store, all, sent);
    NothingSent(held, all, self);
    after := held;
    var i := 0;
    assert sent[..0] == [];
    while i < |sent|
      invariant 0 <= i <= |sent|
      invariant after == HeldAfter(held, sent[..i])
      invariant store.Shows(HintsLeft(all, self, sent[..i]))
    {
      assert sent[..i + 1][..i] == sent[..i];
      SentMore(held, all, self, sent[..i + 1]);
      var h := sent[i].hint;
      var left := sent[i].outcome;
      if !left.NotApplied? {
        after := Write(after, h.replica, h.key, h.value);
      }
      if left.Applied? {
        store.RemoveIfMatch(h.replica, h.key, h.value.version, HintsLeft(all, self, sent[..i]));
      }
      i := i + 1;
    }
    assert sent[..i] == sent;
    LookupIsKept(store);
    FlushMeans(store, stored, held, all, sent);
  }

  lemma LookupIsKept(store: HintStore)
    ensures forall r, k :: store.Lookup(r, k) == Kept(store.hints, r, k)
  {
  }

  lemma NothingSent(held: Held, all: Hints, c: Node)
    ensures HeldAfter(held, []) == held && HintsLeft(all, c, []) == all
  {
  }

  lemma ListedAreValid(store: HintStore, all: Hints, sent: seq<Sent>)
    requires store.Shows(all) && Lists(store, sent)
    ensures forall i :: 0 <= i < |sent| ==> sent[i].hint.replica in store.names
    ensures Shown(store.names, store.self, store.hints, all) && ListsAll(store.hints, all, store.self, sent)
  {
    forall i | 0 <= i < |sent|
      ensures sent[i].hint.replica in store.names && AsStored(all, store.self, sent[i].hint)
    {
      var h := sent[i].hint;
      assert IsStored(store, h);
      assert Kept(store.hints, h.replica, h.key) == Some(h.value);
    }
  }

  ghost predicate AsStored(all: Hints, self: Node, h: Hint) {
    (self, h.replica, h.key) in all && all[(self, h.replica, h.key)] == h.value
  }

  ghost predicate ListsAll(hints: map<string, Hint>, all: Hints, self: Node, sent: seq<Sent>) {
    && (forall i :: 0 <= i < |sent| ==> AsStored(all, self, sent[i].hint))
    && (forall s :: s in hints ==> exists i :: 0 <= i < |sent| && sent[i].hint == hints[s])
  }

  lemma FlushMeans(store: HintStore, stored: map<string, Hint>, held: Held, all: Hints, sent: seq<Sent>)
    requires store.Shows(HintsLeft(all, store.self, sent))
    requires Shown(store.names, store.self, stored, all) && ListsAll(stored, all, store.self, sent)
    ensures forall r, k :: r in store.names && Kept(stored, r, k).Some? ==>
              store.Lookup(r, k) == Kept(stored, r, k) ||
              HoldsAtLeast(HeldAfter(held, sent), r, k, Kept(stored, r, k).value.version)
    ensures (forall i :: 0 <= i < |sent| ==> sent[i].outcome.Applied?) ==> store.hints == map[]
  {
    var self := store.self;
    forall r, k | r in store.names && Kept(stored, r, k).Some?
      ensures store.Lookup(r, k) == Kept(stored, r, k) ||
              HoldsAtLeast(HeldAfter(held, sent), r, k, Kept(stored, r, k).value.version)
    {
      NoHintLost(held, all, self, sent, r, k, Kept(stored, r, k).value.version);
    }
    if forall i :: 0 <= i < |sent| ==> sent[i].outcome.Applied? {
      forall s | s in store.hints
        ensures false
      {
        AllDropped(store, stored, all, sent, s);
      }
    }
  }

  lemma AllDropped(store: HintStore, stored: map<string, Hint>, all: Hints, sent: seq<Sent>, s: string)
    requires store.Shows(HintsLeft(all, store.self, sent))
    requires Shown(store.names, store.self, stored, all) && ListsAll(stored, all, store.self, sent)
    requires forall i :: 0 <= i < |sent| ==> sent[i].outcome.Applied?
    ensures s !in store.hints
  {
    if s in store.hints {
      var r, k := store.hints[s].replica, store.hints[s].key;
      assert Kept(store.hints, r, k).Some?;
      StaysOrGoes(all, store.self, sent, r, k);
      assert Kept(stored, r, k).Some?;
      var i :| 0 <= i < |sent| && sent[i].hint == stored[s];
      HintKeyInjective(store.names, stored[s].replica, stored[s].key, r, k);
      AcknowledgedDropped(all, store.self, sent, i);
      assert false;
    }
  }

  // ------------------------------------------------------------------ the flush as steps of `Register`

  function HandOffSteps(c: Node, s: Sent): seq<Step> {
    var h := s.hint;
    match s.outcome
    case Applied => [HandOff(c, h.replica, h.key, h.value, true), DropHint(c, h.replica, h.key, h.value.version)]
    case AppliedThenError => [HandOff(c, h.replica, h.key, h.value, false), Arrive(h.replica, h.key, h.value)]
    case NotApplied => [HandOff(c, h.replica, h.key, h.value, false)]
  }

  function FlushSteps(c: Node, sent: seq<Sent>): seq<Step> {
    if sent == [] then [] else FlushSteps(c, sent[..|sent| - 1]) + HandOffSteps(c, sent[|sent| - 1])
  }

  ghost predicate Listed(s: State, c: Node, sent: seq<Sent>) {
    forall i :: 0 <= i < |sent| ==> (c, sent[i].hint.replica, sent[i].hint.key, sent[i].hint.value) in s.listed
  }

  /** The one or two steps of one listed hint, on the state they start from. */
  lemma HandOffDoes(cfg: Config, b: State, c: Node, s: Sent)
    requires (c, s.hint.replica, s.hint.key, s.hint.value) in b.listed
    ensures var steps := HandOffSteps(c, s);
            && Enabled(cfg, b, steps[0])
            && var t := Do(cfg, b, steps[0]);
               if s.outcome.NotApplied? then t.listed == b.listed && t.hints == b.hints && t.held == b.held
               else
                 && Enabled(cfg, t, steps[1])
                 && var u := Do(cfg, t, steps[1]);
                    && u.listed == b.listed && u.held == Write(b.held, s.hint.replica, s.hint.key, s.hint.value)
                    && u.hints == if s.outcome.Applied?
                         then RemoveHint(b.hints, c, s.hint.replica, s.hint.key, s.hint.value.version) else b.hints
  {
    hide Write, RemoveHint, Do, Enabled;
    var h := s.hint;
    HandsOff(cfg, b, c, h.replica, h.key, h.value, s.outcome.Applied?);
    var t := Do(cfg, b, HandOffSteps(c, s)[0]);
    match s.outcome {
      case Applied => Drops(cfg, t, c, h.replica, h.key, h.value.version);
      case AppliedThenError => Arrives(cfg, t, h.replica, h.key, h.value);
      case NotApplied =>
    }
  }

  lemma HandsOff(cfg: Config, b: State, c: Node, r: Node, k: Key, v: Value, acked: bool)
    requires (c, r, k, v) in b.listed
    ensures Enabled(cfg, b, HandOff(c, r, k, v, acked)) &&
            var t := Do(cfg, b, HandOff(c, r, k, v, acked));
            && t.listed == b.listed && t.hints == b.hints
            && if acked then t.held == Write(b.held, r, k, v) && (c, r, k, v.version) in t.flushed
               else t.held == b.held && (r, k, v) in t.wire
  {
    hide Write;
  }

  lemma Drops(cfg: Config, t: State, c: Node, r: Node, k: Key, version: Version)
    requires (c, r, k, version) in t.flushed
    ensures Enabled(cfg, t, DropHint(c, r, k, version)) &&
            var u := Do(cfg, t, DropHint(c, r, k, version));
            u.listed == t.listed && u.held == t.held && u.hints == RemoveHint(t.hints, c, r, k, version)
  {
    hide RemoveHint;
  }

  lemma Arrives(cfg: Config, t: State, r: Node, k: Key, v: Value)
    requires (r, k, v) in t.wire
    ensures Enabled(cfg, t, Arrive(r, k, v)) &&
            var u := Do(cfg, t, Arrive(r, k, v));
            u.listed == t.listed && u.held == Write(t.held, r, k, v) && u.hints == t.hints
  {
    hide Write;
  }

  lemma HandOffOne(cfg: Config, before: seq<Step>, c: Node, s: Sent)
    requires (c, s.hint.replica, s.hint.key, s.hint.value) in Run(cfg, before).listed
    ensures var b, t := Run(cfg, before), Run(cfg, before + HandOffSteps(c, s));
            && t.listed == b.listed
            && t.held ==
                 (if s.outcome.NotApplied? then b.held else Write(b.held, s.hint.replica, s.hint.key, s.hint.value))
            && t.hints == if s.outcome.Applied?
                 then RemoveHint(b.hints, c, s.hint.replica, s.hint.key, s.hint.value.version) else b.hints
  {
    hide Write, RemoveHint, Run, Do, Enabled;
    var b := Run(cfg, before);
    var first := HandOffSteps(c, s)[0];
    RunMore(cfg, before, first);
    HandOffDoes(cfg, b, c, s);
    if s.outcome.NotApplied? {
      assert HandOffSteps(c, s) == [first];
    } else {
      var second := HandOffSteps(c, s)[1];
      RunMore(cfg, before + [first], second);
      assert before + HandOffSteps(c, s) == before + [first] + [second];
    }
  }

  lemma SentMore(held: Held, hints: Hints, c: Node, sent: seq<Sent>)
    requires sent != []
    ensures var n, h := |sent| - 1, sent[|sent| - 1].hint;
            && HeldAfter(held, sent) == (if sent[n].outcome.NotApplied? then HeldAfter(held, sent[..n])
                                         else Write(HeldAfter(held, sent[..n]), h.replica, h.key, h.value))
            && HintsLeft(hints, c, sent) == (if sent[n].outcome.Applied?
                 then RemoveHint(HintsLeft(hints, c, sent[..n]), c, h.replica, h.key, h.value.version)
                                             else HintsLeft(hints, c, sent[..n]))
  {
    hide Write, RemoveHint;
  }

  lemma FlushStepsMore(c: Node, before: seq<Step>, sent: seq<Sent>)
    requires sent != []
    ensures var n := |sent| - 1;
            before + FlushSteps(c, sent) == before + FlushSteps(c, sent[..n]) + HandOffSteps(c, sent[n])
  {
    hide HandOffSteps;
  }

  /** The loop does what the corresponding hand-off steps of the register protocol do. */
  lemma {:induction false} FlushIsRun(cfg: Config, before: seq<Step>, c: Node, sent: seq<Sent>)
    requires Listed(Run(cfg, before), c, sent)
    ensures var s, t := Run(cfg, before), Run(cfg, before + FlushSteps(c, sent));
            && t.held == HeldAfter(s.held, sent) && t.hints == HintsLeft(s.hints, c, sent) && t.listed == s.listed
  {
    if sent == [] {
      assert before + [] == before;
    } else {
      hide *;
      var n := |sent| - 1;
      ListedPrefix(Run(cfg, before), c, sent);
      FlushIsRun(cfg, before, c, sent[..n]);
      FlushStepsMore(c, before, sent);
      HandOffOne(cfg, before + FlushSteps(c, sent[..n]), c, sent[n]);
      SentMore(Run(cfg, before).held, Run(cfg, before).hints, c, sent);
    }
  }

  lemma ListedPrefix(s: State, c: Node, sent: seq<Sent>)
    requires Listed(s, c, sent) && sent != []
    ensures var n := |sent| - 1;
            && Listed(s, c, sent[..n])
            && (c, sent[n].hint.replica, sent[n].hint.key, sent[n].hint.value) in s.listed
  {
  }
}
