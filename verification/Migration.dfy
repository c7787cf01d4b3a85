/**
 Moving data between nodes: the loops of `drain` (internal/node/drain.go) and `rebalance`
 (internal/node/rebalance.go), over a cluster whose nodes' stores are one map.
 */
module Migration {
  import opened Versions
  import opened Sequences
  import opened Requests
  import opened Register
  import opened Objects
  import opened ChunkMigration
  import R = Rebalance

  type Held = map<(Node, Key), Value>

  // ------------------------------------------------------------------ draining

  ghost predicate NothingLost(held: Held, after: Held) {
    forall r, k, u :: R.Has(R.World(held, map[]), r, k, u) ==> R.Has(R.World(after, map[]), r, k, u)
  }

  /** Nothing held before was lost, and every replica under the future ring holds the drained node's data. */
  ghost predicate Drained(held: Held, after: Held, x: Node, future: R.Placement) {
    && NothingLost(held, after)
    && (forall k, r :: (x, k) in held && r in future(k) ==> R.Has(R.World(after, map[]), r, k, held[(x, k)].version))
  }

  /** What becomes of the requests of a drain, and of its own reads from disk. */
  datatype DrainEnv = DrainEnv(
    key: (Key, Node) -> Outcome, listed: bool, unreadable: ChunkId -> bool, chunk: (ChunkId, Node) -> Outcome)

  /** The same for a rebalance, with its conditional deletes. */
  datatype RebalanceEnv = RebalanceEnv(
    key: (Key, Node) -> Outcome, deleteFails: Key -> bool,
    listed: bool, unreadable: ChunkId -> bool, chunk: (ChunkId, Node) -> Outcome)

  class Cluster {
    var held: Held
    var hints: map<(Node, Node, Key), Value>
    const chunks: Chunks

    constructor (held: Held, chunks: Chunks)
      ensures this.held == held && hints == map[] && this.chunks == chunks
    {
      this.held, hints, this.chunks := held, map[], chunks;
    }

    /** One `putReplica` request. */
    method PutReplica(r: Node, k: Key, v: Value, outcome: Outcome) returns (ok: bool)
      modifies `held
      ensures ok == (outcome == Applied)
      ensures held == if outcome == NotApplied then old(held) else Write(old(held), r, k, v)
    {
      if outcome != NotApplied {
        if (r, k) !in held || !Leq(v.version, held[(r, k)].version) {
          held := held[(r, k) := v];
        }
      }
      return outcome == Applied;
    }

    /**
     `drain`: copy every local entry, then every local chunk, to its replicas under the future ring, stopping at
     the first failure. `order` and `listing` are the iteration orders of the store and of the chunk directory.
     */
    method Drain(x: Node, order: seq<Key>, listing: seq<ChunkId>, future: R.Placement, env: DrainEnv) returns (ok: bool)
      requires (forall k :: (x, k) in held <==> k in order)
      requires Distinct(listing) && forall c :: (x, c) in chunks.files <==> c in listing
      modifies `held, chunks`files
      ensures KeepsValid(chunks.id, old(chunks.files), chunks.files) && NothingLost(old(held), held)
      ensures ok ==> Drained(old(held), held, x, future)
      ensures ok ==> Everywhere(chunks.id, chunks.files, listing, future)
      ensures ok <==> (forall k, r :: k in order && r in future(k) ==> env.key(k, r) == Applied)
                      && env.listed
                      && forall c :: c in listing ==>
                           && Sendable(chunks.id, old(chunks.files), x, c, env.unreadable)
                           && forall r :: r in future(c) ==> env.chunk(c, r) == Applied
    {
      ok := DrainKeys(x, order, future, env.key);
      if !ok {
        KeepsValidReflexive(chunks.id, chunks.files);
        return;
      }
      ok := chunks.Drain(x, listing, env.listed, env.unreadable, future, env.chunk);
    }

    method DrainKeys(x: Node, order: seq<Key>, future: R.Placement, outcome: (Key, Node) -> Outcome) returns (ok: bool)
      requires forall k :: (x, k) in held <==> k in order
      modifies `held
      ensures NothingLost(old(held), held)
      ensures ok ==> Drained(old(held), held, x, future)
      ensures ok <==> forall k, r :: k in order && r in future(k) ==> outcome(k, r) == Applied
    {
      hide Leq, Write;
      var snapshot := R.LocalData(held, x);
      R.LocalDataIs(held, x);
      var i := 0;
      while i < |order|
        invariant 0 <= i <= |order|
        invariant NothingLost(old(held), held)
        invariant forall j, r :: 0 <= j < i && r in future(order[j]) ==>
                    outcome(order[j], r) == Applied &&
                    R.Has(R.World(held, map[]), r, order[j], snapshot[order[j]].version)
      {
        var k := order[i];
        ok := DrainKey(k, snapshot[k], future(k), outcome);
        if !ok {
          return;
        }
        i := i + 1;
      }
      return true;
    }

    method DrainKey(k: Key, v: Value, replicas: seq<Node>, outcome: (Key, Node) -> Outcome) returns (ok: bool)
      modifies `held
      ensures forall r, l, u :: R.Has(R.World(old(held), map[]), r, l, u) ==> R.Has(R.World(held, map[]), r, l, u)
      ensures ok ==> forall r :: r in replicas ==>
                outcome(k, r) == Applied && R.Has(R.World(held, map[]), r, k, v.version)
      ensures !ok ==> exists r :: r in replicas && outcome(k, r) != Applied
    {
      hide Write, R.Has;
      var j := 0;
      while j < |replicas|
        invariant 0 <= j <= |replicas|
        invariant forall r, l, u :: R.Has(R.World(old(held), map[]), r, l, u) ==> R.Has(R.World(held, map[]), r, l, u)
        invariant forall i :: 0 <= i < j ==>
                    outcome(k, replicas[i]) == Applied && R.Has(R.World(held, map[]), replicas[i], k, v.version)
      {
        ghost var before := held;
        ok := PutReplica(replicas[j], k, v, outcome(k, replicas[j]));
        if held != before {
          R.WriteHas(R.World(before, map[]), R.World(held, map[]), replicas[j], k, v);
        }
        if !ok {
          return false;
        }
        R.WriteHas(R.World(before, map[]), R.World(held, map[]), replicas[j], k, v);
        j := j + 1;
      }
      return true;
    }

    /**
     `rebalance` of node `n`: its keys, then its chunks. The key loop is a run of the step system from any state
     `start` with these stores, under a fresh number `j`, and ends with that rebalance finished. It reports zero
     failures exactly when the rebalance is clean, and every failed copy leaves a hint.
     */
    method Rebalance(n: Node, order: seq<Key>, listing: seq<ChunkId>, owners: R.Placement, env: RebalanceEnv,
                     ghost start: R.World, ghost j: nat)
      returns (counts: Counts, chunkCounts: ChunkCounts, ghost moves: seq<R.Move>)
      requires Distinct(order) && (forall k :: (n, k) in held <==> k in order)
      requires Distinct(listing) && (forall c :: (n, c) in chunks.files <==> c in listing)
      requires forall k :: Distinct(owners(k))
      requires start.held == held && j !in start.jobs
      modifies `held, `hints, chunks`files
      ensures AllLost(owners, env.key) ==> held == old(held)
      ensures (forall c, r :: env.chunk(c, r).NotApplied?) ==> chunks.files == old(chunks.files)
      ensures var w := R.Run(owners, start, moves);
              && w.held == held && j in w.jobs && w.jobs == start.jobs[j := w.jobs[j]] && w.jobs[j].done &&
                 w.jobs[j].node == n
              && w.jobs[j].snapshot == R.LocalData(old(held), n)
              && (counts.failed == 0 <==> R.FinishedCleanly(w, j, n))
              && Tally(counts, w.jobs[j])
              && FailuresHinted(hints, w.jobs[j])
              && forall k :: k in order ==> Processed(owners, w.jobs[j], k, env.key, env.deleteFails)
      ensures counts.scanned == |order| && counts.cleaned == |Vanished(old(held), held, n)|
      ensures KeepsValid(chunks.id, old(chunks.files), chunks.files) && old(chunks.files).Keys <= chunks.files.Keys
      ensures env.listed ==>
                Counted(chunks.id, old(chunks.files), n, listing, env.unreadable, owners, env.chunk, chunkCounts)
      ensures !env.listed ==> chunkCounts == ChunkCounts(0, 0, 1) && chunks.files == old(chunks.files)
      ensures chunkCounts.failed == 0 ==> Everywhere(chunks.id, chunks.files, listing, owners)
    {
      counts, moves := RebalanceKeys(n, order, owners, env.key, env.deleteFails, start, j);
      hide R.Run, Processed, Tally, FailuresHinted, Vanished, Counted, Everywhere, KeepsValid;
      chunkCounts := chunks.Rebalance(n, listing, env.listed, env.unreadable, owners, env.chunk);
    }

    /** The key half of `rebalance`. */
    method RebalanceKeys(n: Node, order: seq<Key>, owners: R.Placement, outcome: (Key, Node) -> Outcome,
                         deleteFails: Key -> bool, ghost start: R.World, ghost j: nat)
      returns (counts: Counts, ghost moves: seq<R.Move>)
      requires Distinct(order) && (forall k :: (n, k) in held <==> k in order)
      requires forall k :: Distinct(owners(k))
      requires start.held == held && j !in start.jobs
      modifies `held, `hints
      ensures AllLost(owners, outcome) ==> held == old(held)
      ensures var w := R.Run(owners, start, moves);
              && w.held == held && j in w.jobs && w.jobs == start.jobs[j := w.jobs[j]] && w.jobs[j].done &&
                 w.jobs[j].node == n
              && w.jobs[j].snapshot == R.LocalData(old(held), n)
              && (counts.failed == 0 <==> R.FinishedCleanly(w, j, n))
              && Tally(counts, w.jobs[j])
              && FailuresHinted(hints, w.jobs[j])
              && forall k :: k in order ==> Processed(owners, w.jobs[j], k, outcome, deleteFails)
      ensures counts.scanned == |order| && counts.cleaned == |Vanished(old(held), held, n)|
    {
      hide R.LocalData, Processed, OnlyKey, R.Run, Reached, Recorded, Untouched, Vanished;
      R.LocalDataIs(held, n);
      var snapshot := R.LocalData(held, n);
      ghost var job := R.Job(n, snapshot, {}, {}, {}, false);
      moves := [R.Begin(j, n)];
      counts := Counts(|order|, 0, 0, 0, 0);
      JobBegins(owners, start, j, n, counts, hints);
      NoneVanished(held, n);
      var i := 0;
      while i < |order|
        invariant AllLost(owners, outcome) ==> held == old(held)
        invariant 0 <= i <= |order| && counts.scanned == |order| && job.snapshot == snapshot && job.node == n
        invariant Reached(owners, start, moves, held, j, job) && Recorded(counts, hints, job)
        invariant counts.cleaned == |Vanished(start.held, held, n)|
        invariant forall l :: 0 <= l < i ==> Processed(owners, job, order[l], outcome, deleteFails)
        invariant forall l :: i <= l < |order| ==> Untouched(job, order[l])
      {
        ghost var before := job;
        counts, job, moves :=
          RebalanceKey(n, order[i], snapshot[order[i]], owners, outcome, deleteFails, counts, start, j, job, moves);
        OtherKeysKeep(owners, before, job, order[i], outcome, deleteFails);
        i := i + 1;
      }
      assert forall k :: k in snapshot ==> Processed(owners, job, k, outcome, deleteFails);
      moves := JobFinishes(owners, start, moves, held, j, job, counts, hints, outcome, deleteFails);
    }

    method RebalanceKey(n: Node, k: Key, value: Value, owners: R.Placement, outcome: (Key, Node) -> Outcome,
                        deleteFails: Key -> bool, counts: Counts, ghost start: R.World, ghost j: nat, ghost job: R.Job,
                        ghost moves: seq<R.Move>)
      returns (after: Counts, ghost next: R.Job, ghost more: seq<R.Move>)
      requires k in job.snapshot && job.snapshot[k] == value && Distinct(owners(k)) && Untouched(job, k)
      requires Reached(owners, start, moves, held, j, job) && Recorded(counts, hints, job) && job.node == n
      requires (n, k) in start.held && counts.cleaned == |Vanished(start.held, held, n)|
      modifies `held, `hints
      ensures Reached(owners, start, more, held, j, next) && Recorded(after, hints, next) && next.node == n
      ensures next.snapshot == job.snapshot && after.scanned == counts.scanned
      ensures after.cleaned == |Vanished(start.held, held, n)|
      ensures owners(k) != [] && NoneArrive(owners(k), k, outcome) ==> held == old(held)
      ensures Processed(owners, next, k, outcome, deleteFails) && OnlyKey(job, next, k)
    {
      hide Reached, Recorded, R.AllCopied, R.Unreported, OnlyKey, Untouched, Processed, Vanished;
      var allCopied;
      allCopied, after, next, more := CopyKey(n, k, value, owners, outcome, counts, start, j, job, moves);
      KeyProcessed(owners, job, next, k, outcome, deleteFails);
      NoneCopied(owners, next, k, outcome);
      if n !in owners(k) && allCopied {
        after, next, more := CleanUp(n, k, value, owners, deleteFails(k), after, start, j, next, more);
      }
    }

    /** A key that was copied everywhere and is not owned here: delete it unless it changed meanwhile. */
    method CleanUp(n: Node, k: Key, value: Value, ghost owners: R.Placement, deleteFails: bool, counts: Counts,
                   ghost start: R.World, ghost j: nat, ghost job: R.Job, ghost moves: seq<R.Move>)
      returns (after: Counts, ghost next: R.Job, ghost more: seq<R.Move>)
      requires k in job.snapshot && job.snapshot[k] == value && n !in owners(k) && R.AllCopied(owners, job, k)
      requires k !in job.cleaned && (k, n) !in job.failed
      requires Reached(owners, start, moves, held, j, job) && Recorded(counts, hints, job) && job.node == n
      requires (n, k) in start.held && counts.cleaned == |Vanished(start.held, held, n)|
      modifies `held, `hints
      ensures Reached(owners, start, more, held, j, next) && Recorded(after, hints, next) && next.node == n
      ensures after.scanned == counts.scanned && after.cleaned == |Vanished(start.held, held, n)|
      ensures next == if deleteFails then job.(failed := job.failed + {(k, n)}) else job.(cleaned := job.cleaned + {k})
    {
      hide R.Run, Hinted, Recorded, Vanished;
      ghost var w := R.World(held, start.jobs[j := job]);
      CleanRecorded(counts, hints, job, k);
      after := counts;
      if deleteFails {
        more := Take(owners, start, w, moves, R.CleanFailed(j, k));
        next := job.(failed := job.failed + {(k, n)});
        after := after.(failed := after.failed + 1);
      } else {
        more := Take(owners, start, w, moves, R.Clean(j, k));
        next := job.(cleaned := job.cleaned + {k});
        if (n, k) in held && held[(n, k)].version == value.version {
          OneVanishes(start.held, held, n, k);
          held := held - {(n, k)};
          after := after.(cleaned := after.cleaned + 1);
        }
      }
    }

    /** The inner loop: one copy request to every replica but this node. */
    method CopyKey(n: Node, k: Key, value: Value, owners: R.Placement, outcome: (Key, Node) -> Outcome,
                   counts: Counts, ghost start: R.World, ghost j: nat, ghost job: R.Job, ghost moves: seq<R.Move>)
      returns (allCopied: bool, after: Counts, ghost next: R.Job, ghost more: seq<R.Move>)
      requires k in job.snapshot && job.snapshot[k] == value && Distinct(owners(k)) && Untouched(job, k)
      requires Reached(owners, start, moves, held, j, job) && Recorded(counts, hints, job) && job.node == n
      modifies `held, `hints
      ensures Reached(owners, start, more, held, j, next) && Recorded(after, hints, next) && next.node == n
      ensures next.snapshot == job.snapshot && after.scanned == counts.scanned && after.cleaned == counts.cleaned
      ensures Vanished(start.held, held, n) == Vanished(start.held, old(held), n)
      ensures NoneArrive(owners(k), k, outcome) ==> held == old(held)
      ensures allCopied <==> R.AllCopied(owners, next, k)
      ensures Reported(owners(k), next, k, outcome)
      ensures OnlyKey(job, next, k) && k !in next.cleaned && (k, n) !in next.failed
    {
      hide Reached, Recorded, R.AllCopied, R.Unreported, Progress, OnlyKey, Untouched, Vanished;
      var replicas := owners(k);
      allCopied, after, next, more := true, counts, job, moves;
      OnlyKeyGrows(job, job, k, n);
      ProgressBegins(n, k, replicas, job, outcome);
      var i := 0;
      while i < |replicas|
        invariant 0 <= i <= |replicas| && next.snapshot == job.snapshot
        invariant after.scanned == counts.scanned && after.cleaned == counts.cleaned
        invariant Vanished(start.held, held, n) == Vanished(start.held, old(held), n)
        invariant Reached(owners, start, more, held, j, next) && Recorded(after, hints, next) && next.node == n
        invariant NoneArrive(owners(k), k, outcome) ==> held == old(held)
        invariant OnlyKey(job, next, k) && Progress(n, k, replicas, next, i, allCopied, outcome)
      {
        var r := replicas[i];
        ProgressStep(n, k, replicas, next, i, allCopied, outcome);
        if r != n {
          OnlyKeyGrows(job, next, k, r);
          var ok;
          ok, after, next, more := CopyOne(n, k, value, r, outcome(k, r), owners, after, start, j, next, more);
          if !ok {
            allCopied := false;
          }
        }
        i := i + 1;
      }
      ProgressDone(owners, n, k, next, allCopied, outcome);
    }

    /** One copy request; a failure is counted and leaves a hint. */
    method CopyOne(n: Node, k: Key, value: Value, r: Node, outcome: Outcome, ghost owners: R.Placement, counts: Counts,
                   ghost start: R.World, ghost j: nat, ghost job: R.Job, ghost moves: seq<R.Move>)
      returns (ok: bool, after: Counts, ghost next: R.Job, ghost more: seq<R.Move>)
      requires k in job.snapshot && job.snapshot[k] == value && r in owners(k) && r != n && R.Unreported(job, k, r)
      requires Reached(owners, start, moves, held, j, job) && Recorded(counts, hints, job) && job.node == n
      modifies `held, `hints
      ensures Reached(owners, start, more, held, j, next) && Recorded(after, hints, next) && next.node == n
      ensures outcome.NotApplied? ==> held == old(held)
      ensures after.scanned == counts.scanned && after.cleaned == counts.cleaned
      ensures Vanished(start.held, held, n) == Vanished(start.held, old(held), n)
      ensures ok == (outcome == Applied)
      ensures next == if ok then job.(acked := job.acked + {(k, r)}) else job.(failed := job.failed + {(k, r)})
    {
      hide Write, AddHint, R.Run, Recorded, Vanished;
      ghost var w := R.World(held, start.jobs[j := job]);
      WriteElsewhere(start.held, held, n, r, k, value);
      ok := PutReplica(r, k, value, outcome);
      if ok {
        more := Take(owners, start, w, moves, R.CopyAcked(j, k, r));
        next := job.(acked := job.acked + {(k, r)});
        after := counts.(copied := counts.copied + 1);
        AckRecorded(counts, hints, job, k, r);
      } else {
        more := Take(owners, start, w, moves, R.CopyFailed(j, k, r));
        next := job.(failed := job.failed + {(k, r)});
        if outcome == AppliedThenError {
          more := Take(owners, start, w.(jobs := start.jobs[j := next]), more, R.Put(r, k, value));
        }
        FailRecorded(counts, hints, job, k, r, value);
        hints := AddHint(hints, n, r, k, value);
        after := counts.(failed := counts.failed + 1, hinted := counts.hinted + 1);
      }
    }
  }

  /** The keys node `n` held at the start and holds no more. */
  ghost function Vanished(was: Held, held: Held, n: Node): set<Key> {
    set nk | nk in was && nk.0 == n && nk !in held :: nk.1
  }

  lemma NoneVanished(held: Held, n: Node)
    ensures |Vanished(held, held, n)| == 0
  {
  }

  lemma OneVanishes(was: Held, held: Held, n: Node, k: Key)
    requires (n, k) in was && (n, k) in held
    ensures |Vanished(was, held - {(n, k)}, n)| == |Vanished(was, held, n)| + 1
  {
    assert k !in Vanished(was, held, n);
    forall l
      ensures l in Vanished(was, held - {(n, k)}, n) <==> l in Vanished(was, held, n) + {k}
    {
      assert l in Vanished(was, held, n) <==> (n, l) in was && (n, l) !in held;
      assert l in Vanished(was, held - {(n, k)}, n) <==> (n, l) in was && (n, l) !in held - {(n, k)};
    }
    assert Vanished(was, held - {(n, k)}, n) == Vanished(was, held, n) + {k};
  }

  lemma WriteElsewhere(was: Held, held: Held, n: Node, r: Node, k: Key, v: Value)
    requires r != n
    ensures Vanished(was, Write(held, r, k, v), n) == Vanished(was, held, n)
  {
  }

  lemma AckRecorded(counts: Counts, hints: map<(Node, Node, Key), Value>, job: R.Job, k: Key, r: Node)
    requires Recorded(counts, hints, job) && R.Unreported(job, k, r)
    ensures Recorded(counts.(copied := counts.copied + 1), hints, job.(acked := job.acked + {(k, r)}))
  {
    hide Hinted;
    assert FailedCopies(job.(acked := job.acked + {(k, r)})) == FailedCopies(job);
  }

  /** Cleaning up, well or not, leaves no hint. */
  lemma CleanRecorded(counts: Counts, hints: map<(Node, Node, Key), Value>, job: R.Job, k: Key)
    requires Recorded(counts, hints, job) && k in job.snapshot && (k, job.node) !in job.failed
    ensures Recorded(counts.(failed := counts.failed + 1), hints, job.(failed := job.failed + {(k, job.node)}))
    ensures Recorded(counts, hints, job.(cleaned := job.cleaned + {k}))
    ensures Recorded(counts.(cleaned := counts.cleaned + 1), hints, job.(cleaned := job.cleaned + {k}))
  {
    hide Hinted;
    assert FailedCopies(job.(failed := job.failed + {(k, job.node)})) == FailedCopies(job);
    assert FailedCopies(job.(cleaned := job.cleaned + {k})) == FailedCopies(job);
  }

  lemma FailRecorded(counts: Counts, hints: map<(Node, Node, Key), Value>, job: R.Job, k: Key, r: Node, value: Value)
    requires Recorded(counts, hints, job) && R.Unreported(job, k, r) && k in job.snapshot && job.snapshot[k] == value &&
             r != job.node
    ensures Recorded(counts.(failed := counts.failed + 1, hinted := counts.hinted + 1),
                     AddHint(hints, job.node, r, k, value), job.(failed := job.failed + {(k, r)}))
  {
    AddHintKeeps(hints, job.node, r, k, value);
    FailCounted(job, k, r);
    hide Hinted, AddHint, FailedCopies;
  }

  lemma FailCounted(job: R.Job, k: Key, r: Node)
    requires R.Unreported(job, k, r) && r != job.node
    ensures |FailedCopies(job.(failed := job.failed + {(k, r)}))| == |FailedCopies(job)| + 1
  {
    assert FailedCopies(job.(failed := job.failed + {(k, r)})) == FailedCopies(job) + {(k, r)};
  }

  /** No request for a copy of the key reaches its replica. */
  ghost predicate NoneArrive(replicas: seq<Node>, k: Key, outcome: (Key, Node) -> Outcome) {
    forall r :: r in replicas ==> outcome(k, r).NotApplied?
  }

  lemma NoneCopied(owners: R.Placement, job: R.Job, k: Key, outcome: (Key, Node) -> Outcome)
    requires Reported(owners(k), job, k, outcome)
    ensures owners(k) != [] && NoneArrive(owners(k), k, outcome) && job.node !in owners(k) ==>
              !R.AllCopied(owners, job, k)
  {
    if owners(k) != [] {
      assert owners(k)[0] in owners(k);
    }
  }

  /** Every key has owners, and no copy of any key reaches one. */
  ghost predicate AllLost(owners: R.Placement, outcome: (Key, Node) -> Outcome) {
    forall k :: owners(k) != [] && NoneArrive(owners(k), k, outcome)
  }

  /** With every replica's report in, a key is processed once it is also cleaned up or that failed. */
  lemma KeyProcessed(owners: R.Placement, was: R.Job, job: R.Job, k: Key, outcome: (Key, Node) -> Outcome,
                     deleteFails: Key -> bool)
    requires OnlyKey(was, job, k) && Reported(owners(k), job, k, outcome)
    ensures job.node in owners(k) || !R.AllCopied(owners, job, k) ==> Processed(owners, job, k, outcome, deleteFails)
    ensures var cleaned := job.(cleaned := job.cleaned + {k});
            OnlyKey(was, cleaned, k) && (!deleteFails(k) ==> Processed(owners, cleaned, k, outcome, deleteFails))
    ensures var failed := job.(failed := job.failed + {(k, job.node)});
            OnlyKey(was, failed, k) && (deleteFails(k) ==> Processed(owners, failed, k, outcome, deleteFails))
  {
  }

  /** `moves` is a run from `start` to a state with these stores in which rebalance `j` is still active. */
  ghost predicate Reached(owners: R.Placement, start: R.World, moves: seq<R.Move>, held: Held, j: nat, job: R.Job) {
    R.Run(owners, start, moves) == R.World(held, start.jobs[j := job]) && !job.done
  }

  /** The counters tell the reports apart, and every failed copy has a hint. */
  ghost predicate Recorded(counts: Counts, hints: map<(Node, Node, Key), Value>, job: R.Job) {
    Tally(counts, job) && FailuresHinted(hints, job)
  }

  /** The first `j` replicas have reported about `k`, the rest have not; `all` says whether the reports were good. */
  ghost predicate Progress(n: Node, k: Key, replicas: seq<Node>, job: R.Job, j: nat, all: bool,
                           outcome: (Key, Node) -> Outcome)
    requires j <= |replicas|
  {
    && job.node == n && k !in job.cleaned && (k, n) !in job.failed
    && (forall i :: j <= i < |replicas| ==> R.Unreported(job, k, replicas[i]))
    && Reported(replicas[..j], job, k, outcome)
    && (all <==> forall i :: 0 <= i < j && replicas[i] != n ==> (k, replicas[i]) in job.acked)
  }

  lemma ProgressStep(n: Node, k: Key, replicas: seq<Node>, job: R.Job, j: nat, all: bool,
                     outcome: (Key, Node) -> Outcome)
    requires j < |replicas| && Distinct(replicas) && Progress(n, k, replicas, job, j, all, outcome)
    ensures R.Unreported(job, k, replicas[j])
    ensures replicas[j] == n ==> Progress(n, k, replicas, job, j + 1, all, outcome)
    ensures replicas[j] != n && outcome(k, replicas[j]) == Applied ==>
              Progress(n, k, replicas, job.(acked := job.acked + {(k, replicas[j])}), j + 1, all, outcome)
    ensures replicas[j] != n && outcome(k, replicas[j]) != Applied ==>
              Progress(n, k, replicas, job.(failed := job.failed + {(k, replicas[j])}), j + 1, false, outcome)
  {
    assert replicas[..j + 1] == replicas[..j] + [replicas[j]];
    assert replicas[j] !in replicas[..j];
  }

  lemma ProgressDone(owners: R.Placement, n: Node, k: Key, job: R.Job, all: bool, outcome: (Key, Node) -> Outcome)
    requires Progress(n, k, owners(k), job, |owners(k)|, all, outcome)
    ensures all <==> R.AllCopied(owners, job, k)
    ensures Reported(owners(k), job, k, outcome)
    ensures k !in job.cleaned && (k, n) !in job.failed
  {
    assert owners(k)[..|owners(k)|] == owners(k);
  }

  lemma ProgressBegins(n: Node, k: Key, replicas: seq<Node>, job: R.Job, outcome: (Key, Node) -> Outcome)
    requires Untouched(job, k) && job.node == n
    ensures Progress(n, k, replicas, job, 0, true, outcome)
  {
  }

  datatype Counts = Counts(scanned: nat, copied: nat, failed: nat, hinted: nat, cleaned: nat)

  function FailedCopies(job: R.Job): set<(Key, Node)> {
    set kr | kr in job.failed && kr.1 != job.node
  }

  /** The counters reported are the numbers of acknowledged and failed requests, and of failed copies. */
  predicate Tally(counts: Counts, job: R.Job) {
    counts.copied == |job.acked| && counts.failed == |job.failed| && counts.hinted == |FailedCopies(job)|
  }

  /** A hint at least that new is kept for the replica. */
  ghost predicate Hinted(hints: map<(Node, Node, Key), Value>, c: Node, r: Node, k: Key, u: Version) {
    (c, r, k) in hints && Leq(u, hints[(c, r, k)].version)
  }

  /** Every failed copy of a rebalance has a hint. */
  ghost predicate FailuresHinted(hints: map<(Node, Node, Key), Value>, job: R.Job) {
    forall k, r :: (k, r) in job.failed ==>
      k in job.snapshot && (r != job.node ==> Hinted(hints, job.node, r, k, job.snapshot[k].version))
  }

  lemma OnlyKeyGrows(a: R.Job, b: R.Job, k: Key, r: Node)
    ensures OnlyKey(a, a, k)
    ensures OnlyKey(a, b, k) ==>
              OnlyKey(a, b.(acked := b.acked + {(k, r)}), k) && OnlyKey(a, b.(failed := b.failed + {(k, r)}), k)
  {
  }

  lemma OtherKeysKeep(owners: R.Placement, a: R.Job, b: R.Job, k: Key, outcome: (Key, Node) -> Outcome,
                      deleteFails: Key -> bool)
    requires OnlyKey(a, b, k)
    ensures forall l :: l != k && Processed(owners, a, l, outcome, deleteFails) ==>
              Processed(owners, b, l, outcome, deleteFails)
    ensures forall l :: l != k && Untouched(a, l) ==> Untouched(b, l)
  {
  }

  lemma AddHintKeeps(hints: map<(Node, Node, Key), Value>, c: Node, r: Node, k: Key, v: Value)
    ensures Hinted(AddHint(hints, c, r, k, v), c, r, k, v.version)
    ensures forall d, q, l, u :: Hinted(hints, d, q, l, u) ==> Hinted(AddHint(hints, c, r, k, v), d, q, l, u)
  {
    VersionsTotallyOrdered();
    hide Leq;
  }

  /** The reports about `k` say what became of the requests. */
  ghost predicate Reported(replicas: seq<Node>, job: R.Job, k: Key, outcome: (Key, Node) -> Outcome) {
    forall r :: r in replicas && r != job.node ==>
      ((k, r) in job.acked <==> outcome(k, r) == Applied) && ((k, r) in job.failed <==> outcome(k, r) != Applied)
  }

  /** All copies are reported, and a key copied everywhere and not owned here is cleaned up unless that failed. */
  ghost predicate Processed(owners: R.Placement, job: R.Job, k: Key, outcome: (Key, Node) -> Outcome,
                            deleteFails: Key -> bool) {
    && Reported(owners(k), job, k, outcome)
    && (R.Cleanable(owners, job, k) ==> if deleteFails(k) then (k, job.node) in job.failed else k in job.cleaned)
  }

  ghost predicate Untouched(job: R.Job, k: Key) {
    && k !in job.cleaned
    && (forall r :: (k, r) !in job.acked && (k, r) !in job.failed)
  }

  /** From one job state to a later one only reports about key `k` were added. */
  ghost predicate OnlyKey(a: R.Job, b: R.Job, k: Key) {
    && a.node == b.node
    && (forall l :: l != k ==> (l in a.cleaned <==> l in b.cleaned))
    && (forall l, r :: l != k ==>
         ((l, r) in a.acked <==> (l, r) in b.acked) && ((l, r) in a.failed <==> (l, r) in b.failed))
  }

  /** One enabled step after a run. */
  lemma Take(owners: R.Placement, start: R.World, w: R.World, moves: seq<R.Move>, m: R.Move) returns (more: seq<R.Move>)
    requires R.Run(owners, start, moves) == w && R.Enabled(owners, w, m)
    ensures R.Run(owners, start, more) == R.Do(owners, w, m)
  {
    more := moves + [m];
    assert more[..|more| - 1] == moves;
  }

  lemma JobBegins(owners: R.Placement, start: R.World, j: nat, n: Node, counts: Counts,
                  hints: map<(Node, Node, Key), Value>)
    requires counts.copied == counts.failed == counts.hinted == 0 && j !in start.jobs
    ensures var job := R.Job(n, R.LocalData(start.held, n), {}, {}, {}, false);
            && Reached(owners, start, [R.Begin(j, n)], start.held, j, job)
            && Recorded(counts, hints, job)
            && forall k :: Untouched(job, k)
  {
    assert [R.Begin(j, n)][..0] == [];
  }

  ghost method JobFinishes(owners: R.Placement, start: R.World, moves: seq<R.Move>, held: Held, j: nat, job: R.Job,
                           counts: Counts, hints: map<(Node, Node, Key), Value>,
                           outcome: (Key, Node) -> Outcome, deleteFails: Key -> bool)
    returns (more: seq<R.Move>)
    requires Reached(owners, start, moves, held, j, job) && Recorded(counts, hints, job)
    requires forall k :: k in job.snapshot ==> Processed(owners, job, k, outcome, deleteFails)
    ensures R.Run(owners, start, more) == R.World(held, start.jobs[j := job.(done := true)])
    ensures forall k :: k in job.snapshot ==> Processed(owners, job.(done := true), k, outcome, deleteFails)
    ensures Tally(counts, job.(done := true)) && FailuresHinted(hints, job.(done := true))
  {
    more := Take(owners, start, R.World(held, start.jobs[j := job]), moves, R.Finish(j));
  }
}
