/**
 Rebalancing under one shared ring (internal/node/rebalance.go) as a step system.

 Nodes rebalance concurrently with each other and with ordinary writes. Each copy request and each
 conditional delete is a step; a failed copy leaves a hint, whose later delivery is an ordinary write.
 */
module Rebalance {
  import opened Versions
  import opened Sequences
  import opened Register

  /** One rebalance of a node: its snapshot, which copies were acknowledged or failed, what was cleaned. */
  datatype Job = Job(
    node: Node, snapshot: map<Key, Value>, acked: set<(Key, Node)>, failed: set<(Key, Node)>, cleaned: set<Key>,
    done: bool)

  /** Every rebalance ever begun has a number; a node may have several under way at once. */
  datatype World = World(held: map<(Node, Key), Value>, jobs: map<nat, Job>)

  type Placement = Key -> seq<Node>

  /** `Memory.DeleteIfMatch`. */
  function DeleteIfMatch(held: map<(Node, Key), Value>, n: Node, k: Key, version: Version): map<(Node, Key), Value> {
    if (n, k) in held && held[(n, k)].version == version then held - {(n, k)} else held
  }

  function LocalData(held: map<(Node, Key), Value>, n: Node): map<Key, Value> {
    map nk | nk in held && nk.0 == n :: nk.1 := held[nk]
  }

  datatype Move =
    | Put(r: Node, k: Key, v: Value)      // any guarded write: client, hint, repair, late request
    | Begin(j: nat, n: Node)
    | CopyAcked(j: nat, k: Key, r: Node)
    | CopyFailed(j: nat, k: Key, r: Node)
    | Clean(j: nat, k: Key)
    | CleanFailed(j: nat, k: Key)
    | Finish(j: nat)

  /** The rebalance has this key to deal with. */
  predicate Busy(w: World, j: nat, k: Key) {
    j in w.jobs && !w.jobs[j].done && k in w.jobs[j].snapshot
  }

  predicate Unreported(job: Job, k: Key, r: Node) {
    (k, r) !in job.acked && (k, r) !in job.failed
  }

  /** Every replica of `k` other than the node itself acknowledged the copy. */
  ghost predicate AllCopied(owners: Placement, job: Job, k: Key) {
    forall r :: r in owners(k) && r != job.node ==> (k, r) in job.acked
  }

  /** The key was copied everywhere, and its node does not own it. */
  ghost predicate Cleanable(owners: Placement, job: Job, k: Key) {
    job.node !in owners(k) && AllCopied(owners, job, k)
  }

  ghost predicate Enabled(owners: Placement, w: World, m: Move) {
    match m
    case Put(r, k, v) => true
    case Begin(j, n) => j !in w.jobs
    case CopyAcked(j, k, r) => Busy(w, j, k) && r in owners(k) && r != w.jobs[j].node && Unreported(w.jobs[j], k, r)
    case CopyFailed(j, k, r) => Busy(w, j, k) && r in owners(k) && r != w.jobs[j].node && Unreported(w.jobs[j], k, r)
    case Clean(j, k) => Busy(w, j, k) && Cleanable(owners, w.jobs[j], k)
    case CleanFailed(j, k) => Busy(w, j, k) && Cleanable(owners, w.jobs[j], k)
    case Finish(j) =>
      && j in w.jobs && !w.jobs[j].done
      && forall k :: k in w.jobs[j].snapshot ==>
           && (forall r :: r in owners(k) && r != w.jobs[j].node ==> !Unreported(w.jobs[j], k, r))
           && (Cleanable(owners, w.jobs[j], k) ==> k in w.jobs[j].cleaned || (k, w.jobs[j].node) in w.jobs[j].failed)
  }

  ghost function Do(owners: Placement, w: World, m: Move): World
    requires Enabled(owners, w, m)
  {
    match m
    case Put(r, k, v) => w.(held := Write(w.held, r, k, v))
    case Begin(j, n) => w.(jobs := w.jobs[j := Job(n, LocalData(w.held, n), {}, {}, {}, false)])
    case CopyAcked(j, k, r) =>
      var job := w.jobs[j];
      World(Write(w.held, r, k, job.snapshot[k]), w.jobs[j := job.(acked := job.acked + {(k, r)})])
    case CopyFailed(j, k, r) =>
      var job := w.jobs[j];
      w.(jobs := w.jobs[j := job.(failed := job.failed + {(k, r)})])
    case Clean(j, k) =>
      var job := w.jobs[j];
      World(DeleteIfMatch(w.held, job.node, k, job.snapshot[k].version),
            w.jobs[j := job.(cleaned := job.cleaned + {k})])
    case CleanFailed(j, k) =>
      var job := w.jobs[j];
      w.(jobs := w.jobs[j := job.(failed := job.failed + {(k, job.node)})])
    case Finish(j) => w.(jobs := w.jobs[j := w.jobs[j].(done := true)])
  }

  ghost function Run(owners: Placement, w: World, ms: seq<Move>): World {
    if ms == [] then w
    else
      var u := Run(owners, w, ms[..|ms| - 1]);
      if Enabled(owners, u, ms[|ms| - 1]) then Do(owners, u, ms[|ms| - 1]) else u
  }

  lemma {:induction false} RunTwice(owners: Placement, w: World, a: seq<Move>, b: seq<Move>)
    ensures Run(owners, w, a + b) == Run(owners, Run(owners, w, a), b)
  {
    if b == [] {
      assert a + b == a;
    } else {
      var n := |b| - 1;
      hide Enabled, Do;
      assert (a + b)[..|a + b| - 1] == a + b[..n];
      RunTwice(owners, w, a, b[..n]);
    }
  }

  // ------------------------------------------------------------------ safety

  ghost predicate Has(w: World, n: Node, k: Key, u: Version) {
    (n, k) in w.held && Leq(u, w.held[(n, k)].version)
  }

  /** Acknowledged copies are on their replicas, and only snapshot keys are reported. */
  ghost predicate Backed(owners: Placement, w: World) {
    forall j, k, r :: j in w.jobs && (k, r) in w.jobs[j].acked ==>
      k in w.jobs[j].snapshot && r in owners(k) && Has(w, r, k, w.jobs[j].snapshot[k].version)
  }

  lemma WriteHas(w: World, x: World, r: Node, k: Key, v: Value)
    requires x.held == Write(w.held, r, k, v)
    ensures forall n, l, u :: Has(w, n, l, u) ==> Has(x, n, l, u)
    ensures Has(x, r, k, v.version)
  {
    VersionsTotallyOrdered();
    hide Leq;
  }

  /** The move deletes this node's copy of the key, if it still is the one snapshotted. */
  predicate Cleans(w: World, m: Move, n: Node, k: Key) {
    m.Clean? && m.k == k && m.j in w.jobs && w.jobs[m.j].node == n
  }

  /** Owners never lose a version; others lose one only by cleaning it. */
  lemma MoveKeeps(owners: Placement, w: World, m: Move)
    requires Enabled(owners, w, m)
    ensures var x := Do(owners, w, m);
            forall n, k, u :: Has(w, n, k, u) && (n in owners(k) || !Cleans(w, m, n, k)) ==> Has(x, n, k, u)
  {
    hide Leq, LocalData, AllCopied;
    var x := Do(owners, w, m);
    match m {
      case Put(r, k, v) => WriteHas(w, x, r, k, v);
      case CopyAcked(j, k, r) => WriteHas(w, x, r, k, w.jobs[j].snapshot[k]);
      case _ =>
    }
  }

  lemma BackedKept(owners: Placement, w: World, m: Move)
    requires Enabled(owners, w, m) && Backed(owners, w)
    ensures Backed(owners, Do(owners, w, m))
  {
    hide Has, LocalData, AllCopied, DeleteIfMatch, Write;
    var x := Do(owners, w, m);
    MoveKeeps(owners, w, m);
    forall j, k, r | j in x.jobs && (k, r) in x.jobs[j].acked
      ensures k in x.jobs[j].snapshot && r in owners(k) && Has(x, r, k, x.jobs[j].snapshot[k].version)
    {
      if m == CopyAcked(j, k, r) {
        WriteHas(w, x, r, k, w.jobs[j].snapshot[k]);
      } else {
        assert j in w.jobs && (k, r) in w.jobs[j].acked;
      }
    }
  }

  /** Cleaning a version is safe: every owner already holds it. */
  lemma CleanIsCovered(owners: Placement, w: World, m: Move, n: Node, k: Key, u: Version, r: Node)
    requires Backed(owners, w) && Enabled(owners, w, m) && Cleans(w, m, n, k) && r in owners(k)
    requires Has(w, n, k, u) && !Has(Do(owners, w, m), n, k, u)
    ensures Has(Do(owners, w, m), r, k, u)
  {
    var version := w.jobs[m.j].snapshot[k].version;
    assert (k, r) in w.jobs[m.j].acked;
    assert Has(w, r, k, version);
    LeqTransitive(u, version, w.held[(r, k)].version);
    MoveKeeps(owners, w, m);
  }

  ghost predicate SomeoneHas(w: World, k: Key, u: Version) {
    exists n :: Has(w, n, k, u)
  }

  lemma NewestKept(owners: Placement, w: World, m: Move, k: Key, u: Version)
    requires Enabled(owners, w, m) && Backed(owners, w) && owners(k) != [] && SomeoneHas(w, k, u)
    ensures SomeoneHas(Do(owners, w, m), k, u)
  {
    hide Has, Backed, Do, Enabled;
    var n :| Has(w, n, k, u);
    MoveKeeps(owners, w, m);
    if !Has(Do(owners, w, m), n, k, u) {
      CleanIsCovered(owners, w, m, n, k, u, owners(k)[0]);
    }
  }

  lemma {:induction false} BackedAlways(owners: Placement, w: World, ms: seq<Move>)
    requires Backed(owners, w)
    ensures Backed(owners, Run(owners, w, ms))
  {
    if ms != [] {
      var n := |ms| - 1;
      hide Backed, Do, Enabled;
      BackedAlways(owners, w, ms[..n]);
      if Enabled(owners, Run(owners, w, ms[..n]), ms[n]) {
        BackedKept(owners, Run(owners, w, ms[..n]), ms[n]);
      }
    }
  }

  /**
   Rebalancing never loses the newest version: on one shared ring where the key has a replica, no
   interleaving of writes and rebalances lowers the newest version of the key held in the cluster.
   */
  lemma {:induction false} NewestNeverLost(owners: Placement, w: World, ms: seq<Move>, k: Key, u: Version)
    requires Backed(owners, w) && owners(k) != [] && SomeoneHas(w, k, u)
    ensures SomeoneHas(Run(owners, w, ms), k, u)
  {
    if ms != [] {
      var n := |ms| - 1;
      hide Backed, Do, Enabled, SomeoneHas;
      NewestNeverLost(owners, w, ms[..n], k, u);
      BackedAlways(owners, w, ms[..n]);
      if Enabled(owners, Run(owners, w, ms[..n]), ms[n]) {
        NewestKept(owners, Run(owners, w, ms[..n]), ms[n], k, u);
      }
    }
  }

  // ------------------------------------------------------------------ what finished rebalances achieve

  ghost predicate OwnersHave(owners: Placement, w: World, k: Key, u: Version) {
    forall r :: r in owners(k) ==> Has(w, r, k, u)
  }

  /** What a node held at the start it still holds and has in all its snapshots, unless every owner holds it by now. */
  ghost predicate Traced(owners: Placement, start: World, w: World) {
    forall n, k, u :: Has(start, n, k, u) ==> OwnersHave(owners, w, k, u) || StillHas(w, n, k, u)
  }

  ghost predicate StillHas(w: World, n: Node, k: Key, u: Version) {
    Has(w, n, k, u) && forall j :: j in w.jobs && w.jobs[j].node == n ==> InSnapshot(w.jobs[j], k, u)
  }

  predicate InSnapshot(job: Job, k: Key, u: Version) {
    k in job.snapshot && Leq(u, job.snapshot[k].version)
  }

  /** A finished rebalance without failures acknowledged every copy and cleaned what it no longer owns. */
  ghost predicate FinishedRight(owners: Placement, w: World) {
    forall j :: j in w.jobs ==> JobFinishedRight(owners, w.jobs[j])
  }

  ghost predicate JobFinishedRight(owners: Placement, job: Job) {
    job.done && job.failed == {} ==>
      forall k :: k in job.snapshot ==> AllCopied(owners, job, k) && (job.node !in owners(k) ==> k in job.cleaned)
  }

  lemma OwnersHaveKept(owners: Placement, w: World, m: Move, k: Key, u: Version)
    requires Enabled(owners, w, m) && OwnersHave(owners, w, k, u)
    ensures OwnersHave(owners, Do(owners, w, m), k, u)
  {
    hide Has, Do, Enabled;
    MoveKeeps(owners, w, m);
  }

  lemma BeginSnapshot(w: World, n: Node, k: Key, u: Version)
    requires Has(w, n, k, u)
    ensures InSnapshot(Job(n, LocalData(w.held, n), {}, {}, {}, false), k, u)
  {
    LocalDataIs(w.held, n);
  }

  /** The moves of other rebalances leave this one alone; its own never touch its node and snapshot. */
  lemma MoveKeepsSnapshot(owners: Placement, w: World, m: Move, j: nat)
    requires Enabled(owners, w, m) && j in Do(owners, w, m).jobs
    ensures var x := Do(owners, w, m);
            if j in w.jobs then x.jobs[j].node == w.jobs[j].node && x.jobs[j].snapshot == w.jobs[j].snapshot
            else m.Begin? && m.j == j && x.jobs[j] == Job(m.n, LocalData(w.held, m.n), {}, {}, {}, false)
  {
    hide LocalData, AllCopied, DeleteIfMatch, Write;
  }

  lemma TracedKept(owners: Placement, start: World, w: World, m: Move)
    requires Enabled(owners, w, m) && Backed(owners, w) && Traced(owners, start, w)
    ensures Traced(owners, start, Do(owners, w, m))
  {
    hide Has, Do, Enabled, Backed, StillHas, OwnersHave;
    var x := Do(owners, w, m);
    forall n, k, u | Has(start, n, k, u)
      ensures OwnersHave(owners, x, k, u) || StillHas(x, n, k, u)
    {
      if OwnersHave(owners, w, k, u) {
        OwnersHaveKept(owners, w, m, k, u);
      } else {
        TraceOne(owners, w, m, n, k, u);
      }
    }
  }

  lemma TraceOne(owners: Placement, w: World, m: Move, n: Node, k: Key, u: Version)
    requires Enabled(owners, w, m) && Backed(owners, w) && StillHas(w, n, k, u)
    ensures OwnersHave(owners, Do(owners, w, m), k, u) || StillHas(Do(owners, w, m), n, k, u)
  {
    hide Has, Backed, Leq, Do, Enabled, InSnapshot;
    var x := Do(owners, w, m);
    MoveKeeps(owners, w, m);
    if !Has(x, n, k, u) {
      forall r | r in owners(k) ensures Has(x, r, k, u) {
        CleanIsCovered(owners, w, m, n, k, u, r);
      }
    } else {
      forall j | j in x.jobs && x.jobs[j].node == n ensures InSnapshot(x.jobs[j], k, u) {
        MoveKeepsSnapshot(owners, w, m, j);
        if j in w.jobs {
          SameSnapshot(w.jobs[j], x.jobs[j], k, u);
        } else {
          BeginSnapshot(w, n, k, u);
        }
      }
    }
  }

  lemma SameSnapshot(a: Job, b: Job, k: Key, u: Version)
    requires a.snapshot == b.snapshot && InSnapshot(a, k, u)
    ensures InSnapshot(b, k, u)
  {
  }

  lemma FinishedRightKept(owners: Placement, w: World, m: Move)
    requires Enabled(owners, w, m) && FinishedRight(owners, w)
    ensures FinishedRight(owners, Do(owners, w, m))
  {
    hide LocalData, DeleteIfMatch, Write;
    var x := Do(owners, w, m);
    forall j | j in x.jobs ensures JobFinishedRight(owners, x.jobs[j]) {
      if j !in w.jobs || x.jobs[j] != w.jobs[j] {
        if m == Finish(j) && w.jobs[j].failed == {} {
          forall k | k in w.jobs[j].snapshot ensures AllCopied(owners, w.jobs[j], k) {
          }
        }
      }
    }
  }

  lemma {:induction false} TracedAlways(owners: Placement, start: World, ms: seq<Move>)
    requires start.jobs == map[]
    ensures var w := Run(owners, start, ms); Backed(owners, w) && Traced(owners, start, w) && FinishedRight(owners, w)
  {
    if ms != [] {
      var n := |ms| - 1;
      hide Backed, Do, Enabled, Traced, FinishedRight;
      TracedAlways(owners, start, ms[..n]);
      var w := Run(owners, start, ms[..n]);
      if Enabled(owners, w, ms[n]) {
        BackedKept(owners, w, ms[n]);
        TracedKept(owners, start, w, ms[n]);
        FinishedRightKept(owners, w, ms[n]);
      }
    }
  }

  /** This rebalance of the node has finished and reported zero failures. */
  predicate FinishedCleanly(w: World, j: nat, n: Node) {
    j in w.jobs && w.jobs[j].node == n && w.jobs[j].done && w.jobs[j].failed == {}
  }

  /** The node has finished some rebalance that reported zero failures. */
  ghost predicate CleanlyRebalanced(w: World, n: Node) {
    exists j :: FinishedCleanly(w, j, n)
  }

  /**
   A clean rebalance spreads what its node held: every owner of the key holds every version that node
   held when the run began, however its rebalance interleaved with writes and other rebalances, of the
   same node or another.
   */
  lemma CleanRebalanceSpreads(owners: Placement, start: World, ms: seq<Move>, n: Node, k: Key, u: Version)
    requires start.jobs == map[] && Has(start, n, k, u) && CleanlyRebalanced(Run(owners, start, ms), n)
    ensures OwnersHave(owners, Run(owners, start, ms), k, u)
  {
    hide Leq;
    var w := Run(owners, start, ms);
    TracedAlways(owners, start, ms);
    if !OwnersHave(owners, w, k, u) {
      var j :| FinishedCleanly(w, j, n);
      assert StillHas(w, n, k, u);
      assert InSnapshot(w.jobs[j], k, u);
      var version := w.jobs[j].snapshot[k].version;
      assert JobFinishedRight(owners, w.jobs[j]);
      assert AllCopied(owners, w.jobs[j], k);
      forall r | r in owners(k) ensures Has(w, r, k, u) {
        if r != n {
          assert (k, r) in w.jobs[j].acked;
          LeqTransitive(u, version, w.held[(r, k)].version);
        } else {
          OwnerRemembers(owners, start, ms, n, k, u);
        }
      }
    }
  }

  lemma {:induction false} OwnerRemembers(owners: Placement, start: World, ms: seq<Move>, n: Node, k: Key, u: Version)
    requires n in owners(k) && Has(start, n, k, u)
    ensures Has(Run(owners, start, ms), n, k, u)
  {
    if ms != [] {
      var i := |ms| - 1;
      hide Has, Do, Enabled;
      OwnerRemembers(owners, start, ms[..i], n, k, u);
      if Enabled(owners, Run(owners, start, ms[..i]), ms[i]) {
        MoveKeeps(owners, Run(owners, start, ms[..i]), ms[i]);
      }
    }
  }

  // ------------------------------------------------------------------ quiet rebalances

  /** A step of a failure-free rebalance with nothing else going on. */
  predicate Quiet(m: Move) {
    m.Begin? || m.CopyAcked? || m.Clean? || m.Finish?
  }

  /** `v` was a copy of `k` somewhere at the start. */
  ghost predicate WasThere(start: World, k: Key, v: Value) {
    exists n :: (n, k) in start.held && start.held[(n, k)] == v
  }

  /** Nothing new appears, and nodes that do not own a key only ever lose it. */
  ghost predicate OnlyMoved(owners: Placement, start: World, w: World) {
    NothingNew(start, w) && StrayOnlyLost(owners, start, w) && CleanedRight(owners, w)
  }

  ghost predicate NothingNew(start: World, w: World) {
    && (forall n, k :: (n, k) in w.held ==> WasThere(start, k, w.held[(n, k)]))
    && (forall j, k :: j in w.jobs && k in w.jobs[j].snapshot ==> WasThere(start, k, w.jobs[j].snapshot[k]))
  }

  ghost predicate StrayOnlyLost(owners: Placement, start: World, w: World) {
    forall n, k :: (n, k) in w.held && n !in owners(k) ==>
      && (n, k) in start.held && w.held[(n, k)] == start.held[(n, k)]
      && forall j :: j in w.jobs && w.jobs[j].node == n ==> HasYet(w.jobs[j], k, w.held[(n, k)])
  }

  /** The rebalance snapshotted this very copy and did not clean it. */
  predicate HasYet(job: Job, k: Key, v: Value) {
    k !in job.cleaned && k in job.snapshot && job.snapshot[k] == v
  }

  ghost predicate CleanedRight(owners: Placement, w: World) {
    forall j :: j in w.jobs ==> JobCleanedRight(owners, w.jobs[j])
  }

  ghost predicate JobCleanedRight(owners: Placement, job: Job) {
    forall k :: k in job.cleaned ==> k in job.snapshot && job.node !in owners(k)
  }

  lemma WriteCases(held: map<(Node, Key), Value>, r: Node, k: Key, v: Value)
    ensures forall q, l :: (q, l) in Write(held, r, k, v) ==>
              ((q, l) in held && Write(held, r, k, v)[(q, l)] == held[(q, l)])
              || (q == r && l == k && Write(held, r, k, v)[(q, l)] == v)
  {
  }

  lemma NothingNewKept(owners: Placement, start: World, w: World, m: Move)
    requires Enabled(owners, w, m) && Quiet(m) && NothingNew(start, w)
    ensures NothingNew(start, Do(owners, w, m))
  {
    hide AllCopied, WasThere, LocalData, Write;
    if m.Begin? {
      LocalDataIs(w.held, m.n);
    } else if m.CopyAcked? {
      WriteCases(w.held, m.r, m.k, w.jobs[m.j].snapshot[m.k]);
    }
  }

  lemma StrayOnlyLostKept(owners: Placement, start: World, w: World, m: Move)
    requires Enabled(owners, w, m) && Quiet(m) && StrayOnlyLost(owners, start, w)
    ensures StrayOnlyLost(owners, start, Do(owners, w, m))
  {
    hide AllCopied, LocalData, Write, DeleteIfMatch;
    match m {
      case Begin(j, n) => LocalDataIs(w.held, n);
      case CopyAcked(j, k, r) => WriteCases(w.held, r, k, w.jobs[j].snapshot[k]);
      case Clean(j, k) => DeletesMatching(w.held, w.jobs[j].node, k, w.jobs[j].snapshot[k]);
      case Finish(j) =>
    }
  }

  lemma OnlyMovedKept(owners: Placement, start: World, w: World, m: Move)
    requires Enabled(owners, w, m) && Quiet(m) && OnlyMoved(owners, start, w)
    ensures OnlyMoved(owners, start, Do(owners, w, m))
  {
    hide NothingNew, StrayOnlyLost, CleanedRight, Do, Enabled;
    NothingNewKept(owners, start, w, m);
    StrayOnlyLostKept(owners, start, w, m);
    CleanedRightKept(owners, w, m);
  }

  lemma CleanedRightKept(owners: Placement, w: World, m: Move)
    requires Enabled(owners, w, m) && Quiet(m) && CleanedRight(owners, w)
    ensures CleanedRight(owners, Do(owners, w, m))
  {
    hide Write, LocalData, AllCopied, DeleteIfMatch;
    var x := Do(owners, w, m);
    forall j | j in x.jobs ensures JobCleanedRight(owners, x.jobs[j]) {
      if j in w.jobs {
        assert JobCleanedRight(owners, w.jobs[j]);
      }
    }
  }

  lemma LocalDataIs(held: map<(Node, Key), Value>, n: Node)
    ensures forall k :: k in LocalData(held, n) ==> (n, k) in held && LocalData(held, n)[k] == held[(n, k)]
    ensures forall k :: (n, k) in held ==> k in LocalData(held, n) && LocalData(held, n)[k] == held[(n, k)]
  {
  }

  lemma DeletesMatching(held: map<(Node, Key), Value>, n: Node, k: Key, v: Value)
    requires (n, k) in held ==> held[(n, k)] == v
    ensures DeleteIfMatch(held, n, k, v.version) == held - {(n, k)}
  {
  }

  lemma {:induction false} OnlyMovedAlways(owners: Placement, start: World, ms: seq<Move>)
    requires start.jobs == map[] && forall i :: 0 <= i < |ms| ==> Quiet(ms[i])
    requires forall n, k :: (n, k) in start.held ==> WasThere(start, k, start.held[(n, k)])
    ensures OnlyMoved(owners, start, Run(owners, start, ms))
  {
    if ms != [] {
      var n := |ms| - 1;
      hide OnlyMoved, Do, Enabled;
      OnlyMovedAlways(owners, start, ms[..n]);
      var w := Run(owners, start, ms[..n]);
      if Enabled(owners, w, ms[n]) {
        OnlyMovedKept(owners, start, w, ms[n]);
      }
    } else {
      assert OnlyMoved(owners, start, start);
    }
  }

  /**
   Failure-free rebalancing converges: once every node that held anything has rebalanced cleanly, with
   nothing else going on, each owner holds the newest version there was, every copy is one that was there
   before, and no node keeps a key it does not own.
   */
  lemma QuietRebalanceConverges(owners: Placement, start: World, ms: seq<Move>)
    requires start.jobs == map[] && forall i :: 0 <= i < |ms| ==> Quiet(ms[i])
    requires forall n, k :: (n, k) in start.held ==> CleanlyRebalanced(Run(owners, start, ms), n)
    ensures var w := Run(owners, start, ms);
            && (forall n, k, r :: (n, k) in start.held && r in owners(k) ==> Has(w, r, k, start.held[(n, k)].version))
            && (forall n, k :: (n, k) in w.held ==> n in owners(k) && WasThere(start, k, w.held[(n, k)]))
  {
    hide Leq, Run;
    var w := Run(owners, start, ms);
    OnlyMovedAlways(owners, start, ms);
    TracedAlways(owners, start, ms);
    forall n, k, r | (n, k) in start.held && r in owners(k) ensures Has(w, r, k, start.held[(n, k)].version) {
      var u := start.held[(n, k)].version;
      CompareVersionSeparates(u, u);
      assert Leq(u, u) by {
        LeqReflexive(u);
      }
      CleanRebalanceSpreads(owners, start, ms, n, k, u);
    }
    forall n, k | (n, k) in w.held ensures n in owners(k) {
      if n !in owners(k) {
        assert false;
      }
    }
  }

  lemma LeqReflexive(u: Version)
    ensures Leq(u, u)
  {
    CompareVersionSeparates(u, u);
  }

  // ------------------------------------------------------------------ single moves

  /** A rebalance begins with a snapshot of exactly what its node holds, and nothing reported. */
  lemma BeginMeans(owners: Placement, w: World, j: nat, n: Node)
    requires j !in w.jobs
    ensures Enabled(owners, w, Begin(j, n))
    ensures var t := Do(owners, w, Begin(j, n));
            && t.held == w.held && t.jobs.Keys == w.jobs.Keys + {j}
            && (forall i :: i in w.jobs ==> t.jobs[i] == w.jobs[i])
            && t.jobs[j].node == n && t.jobs[j].acked == {} && t.jobs[j].failed == {} && t.jobs[j].cleaned == {}
            && !t.jobs[j].done
            && (forall k :: k in t.jobs[j].snapshot <==> (n, k) in w.held)
            && (forall k :: k in t.jobs[j].snapshot ==> t.jobs[j].snapshot[k] == w.held[(n, k)])
  {
    var t := Do(owners, w, Begin(j, n));
    forall k
      ensures k in t.jobs[j].snapshot <==> (n, k) in w.held
      ensures k in t.jobs[j].snapshot ==> t.jobs[j].snapshot[k] == w.held[(n, k)]
    {
      if k in t.jobs[j].snapshot {
        var nk :| nk in w.held && nk.0 == n && nk.1 == k;
        assert nk == (n, k);
      }
      if (n, k) in w.held {
        assert (n, k).0 == n && (n, k).1 == k;
      }
    }
  }

  /** A copy is asked of every other owner once: acknowledged, it is on the replica; failed, nothing changes there. */
  lemma CopyMeans(owners: Placement, w: World, j: nat, k: Key, r: Node)
    ensures Enabled(owners, w, CopyAcked(j, k, r)) <==>
              && j in w.jobs && !w.jobs[j].done && k in w.jobs[j].snapshot
              && r in owners(k) && r != w.jobs[j].node && (k, r) !in w.jobs[j].acked && (k, r) !in w.jobs[j].failed
    ensures Enabled(owners, w, CopyFailed(j, k, r)) <==> Enabled(owners, w, CopyAcked(j, k, r))
    ensures Enabled(owners, w, CopyAcked(j, k, r)) ==>
              var job, t, u := w.jobs[j], Do(owners, w, CopyAcked(j, k, r)), Do(owners, w, CopyFailed(j, k, r));
              && t.jobs == w.jobs[j := job.(acked := job.acked + {(k, r)})] && Has(t, r, k, job.snapshot[k].version)
              && u.jobs == w.jobs[j := job.(failed := job.failed + {(k, r)})] && u.held == w.held
  {
    VersionsTotallyOrdered();
    hide Leq;
  }

  /** A key is cleaned only off a node that does not own it, when all owners took it; a newer copy stays. */
  lemma CleanMeans(owners: Placement, w: World, j: nat, k: Key)
    ensures Enabled(owners, w, Clean(j, k)) <==>
              && j in w.jobs && !w.jobs[j].done && k in w.jobs[j].snapshot
              && w.jobs[j].node !in owners(k) && forall r :: r in owners(k) ==> (k, r) in w.jobs[j].acked
    ensures Enabled(owners, w, CleanFailed(j, k)) <==> Enabled(owners, w, Clean(j, k))
    ensures Enabled(owners, w, Clean(j, k)) ==>
              var job, t, u := w.jobs[j], Do(owners, w, Clean(j, k)), Do(owners, w, CleanFailed(j, k));
              && t.jobs == w.jobs[j := job.(cleaned := job.cleaned + {k})]
              && t.held == (if (job.node, k) in w.held && w.held[(job.node, k)].version == job.snapshot[k].version
                            then w.held - {(job.node, k)} else w.held)
              && u.jobs == w.jobs[j := job.(failed := job.failed + {(k, job.node)})] && u.held == w.held
  {
  }

  /** A rebalance can finish exactly when every key has been dealt with, and then does nothing any more. */
  lemma FinishMeans(owners: Placement, w: World, j: nat)
    ensures Enabled(owners, w, Finish(j)) <==>
              && j in w.jobs && !w.jobs[j].done
              && forall k :: k in w.jobs[j].snapshot ==>
                && (forall r :: r in owners(k) && r != w.jobs[j].node ==>
                      (k, r) in w.jobs[j].acked || (k, r) in w.jobs[j].failed)
                && (w.jobs[j].node !in owners(k) && (forall r :: r in owners(k) ==> (k, r) in w.jobs[j].acked) ==>
                      k in w.jobs[j].cleaned || (k, w.jobs[j].node) in w.jobs[j].failed)
    ensures Enabled(owners, w, Finish(j)) ==>
              var t := Do(owners, w, Finish(j));
              t.held == w.held && t.jobs == w.jobs[j := w.jobs[j].(done := true)]
  {
  }

  /** Other writes go on at any time. */
  lemma PutMeans(owners: Placement, w: World, r: Node, k: Key, v: Value)
    ensures Enabled(owners, w, Put(r, k, v))
    ensures var t := Do(owners, w, Put(r, k, v));
            && t.jobs == w.jobs && Has(t, r, k, v.version)
            && t.held == (if (r, k) in w.held && Leq(v.version, w.held[(r, k)].version) then w.held
                          else w.held[(r, k) := v])
  {
    VersionsTotallyOrdered();
    hide Leq;
  }
}
