/**
 Moving chunk files between nodes: the second half of `drain` (internal/node/drain.go) and
 `rebalanceChunks` (internal/node/rebalance.go). Chunks are only copied, never deleted.
 */
module ChunkMigration {
  import opened Requests
  import opened Sequences
  import opened Versions
  import opened Objects

  type Placement = ChunkId -> seq<Node>

  /** `Store.Get` on the node itself: the copy can be read and matches its name. */
  predicate Sendable(id: Bytes -> ChunkId, files: Files, n: Node, c: ChunkId, unreadable: ChunkId -> bool) {
    ValidCopy(id, files, n, c) && !unreadable(c)
  }

  /** Only copies of the chunks in `done` changed. */
  ghost predicate OnlyThese(was: Files, files: Files, done: set<ChunkId>) {
    forall n, c :: c !in done ==>
      ((n, c) in was <==> (n, c) in files) && ((n, c) in was ==> files[(n, c)] == was[(n, c)])
  }

  datatype ChunkCounts = ChunkCounts(scanned: nat, copied: nat, failed: nat)

  class Chunks {
    const id: Bytes -> ChunkId
    var files: Files

    constructor (id: Bytes -> ChunkId, files: Files)
      ensures this.id == id && this.files == files
    {
      this.id, this.files := id, files;
    }

    /** `putChunkReplica`. */
    method Send(r: Node, data: Bytes, outcome: Outcome) returns (ok: bool)
      modifies `files
      ensures ok == (outcome == Applied)
      ensures files == if outcome == NotApplied then old(files) else PutCopy(id, old(files), r, data)
    {
      if outcome != NotApplied {
        files := PutCopy(id, files, r, data);
      }
      return outcome == Applied;
    }

    /**
     The chunk half of `drain`: succeeds exactly if the directory can be listed, every chunk in it can be read
     and every request for it succeeds; then every future replica has a valid copy of every chunk.
     */
    method Drain(x: Node, listing: seq<ChunkId>, listed: bool, unreadable: ChunkId -> bool, future: Placement,
                 outcome: (ChunkId, Node) -> Outcome)
      returns (ok: bool)
      requires Distinct(listing) && forall c :: (x, c) in files <==> c in listing
      modifies `files
      ensures KeepsValid(id, old(files), files)
      ensures ok <==> listed && forall c :: c in listing ==>
                Sendable(id, old(files), x, c, unreadable) && forall r :: r in future(c) ==> outcome(c, r) == Applied
      ensures ok ==> Everywhere(id, files, listing, future)
    {
      if !listed {
        return false;
      }
      ghost var was := files;
      KeepsValidReflexive(id, files);
      hide ValidCopy, OnlyThese;
      NothingDone(files);
      assert listing[..0] == [];
      var i := 0;
      while i < |listing|
        invariant 0 <= i <= |listing|
        invariant KeepsValid(id, was, files) && OnlyThese(was, files, Elements(listing[..i]))
        invariant forall j :: 0 <= j < i ==> Asked(was, x, listing[j], unreadable, future, outcome)
        invariant forall j, r :: 0 <= j < i && r in future(listing[j]) ==> ValidCopy(id, files, r, listing[j])
      {
        var c := listing[i];
        assert c in listing;
        NotYet(was, files, listing, i, x, unreadable);
        if !Sendable(id, files, x, c, unreadable) {
          assert !Asked(was, x, c, unreadable, future, outcome);
          return false;
        }
        ghost var before := files;
        ok := DrainChunk(c, Content(files, x, c, unreadable), future(c), r => outcome(c, r));
        if !ok {
          assert !Asked(was, x, c, unreadable, future, outcome);
          return;
        }
        OneMoreDone(was, before, files, listing, i);
        KeepsValidTransitive(id, was, before, files);
        i := i + 1;
      }
      return true;
    }

    /** The chunk can be read and every replica takes it. */
    ghost predicate Asked(was: Files, x: Node, c: ChunkId, unreadable: ChunkId -> bool, future: Placement,
                          outcome: (ChunkId, Node) -> Outcome) {
      Sendable(id, was, x, c, unreadable) && forall r :: r in future(c) ==> outcome(c, r) == Applied
    }

    function Content(was: Files, n: Node, c: ChunkId, unreadable: ChunkId -> bool): (data: Bytes)
      requires Sendable(id, was, n, c, unreadable)
      ensures id(data) == c
    {
      was[(n, c)]
    }

    /** One chunk to all its future replicas, stopping at the first failure. */
    method DrainChunk(c: ChunkId, data: Bytes, replicas: seq<Node>, outcome: Node -> Outcome) returns (ok: bool)
      requires id(data) == c
      modifies `files
      ensures KeepsValid(id, old(files), files) && OnlyThese(old(files), files, {c})
      ensures ok <==> forall r :: r in replicas ==> outcome(r) == Applied
      ensures ok ==> forall r :: r in replicas ==> ValidCopy(id, files, r, c)
    {
      KeepsValidReflexive(id, files);
      hide ValidCopy;
      var i := 0;
      while i < |replicas|
        invariant 0 <= i <= |replicas|
        invariant KeepsValid(id, old(files), files) && OnlyThese(old(files), files, {c})
        invariant forall j :: 0 <= j < i ==> outcome(replicas[j]) == Applied && ValidCopy(id, files, replicas[j], c)
      {
        ghost var before := files;
        var r := replicas[i];
        assert r in replicas;
        PutCopyKeeps(id, files, r, data);
        KeepsValidReflexive(id, files);
        ok := Send(r, data, outcome(r));
        KeepsValidTransitive(id, old(files), before, files);
        if !ok {
          return;
        }
        i := i + 1;
      }
      return true;
    }

    /**
     `rebalanceChunks`. Its counters are exact; if it reports no failure, every owner of every chunk of this node
     has a valid copy. Nothing is deleted, and no valid copy changes.
     */
    method Rebalance(n: Node, listing: seq<ChunkId>, listed: bool, unreadable: ChunkId -> bool, owners: Placement,
                     outcome: (ChunkId, Node) -> Outcome)
      returns (counts: ChunkCounts)
      requires Distinct(listing) && (forall c :: (n, c) in files <==> c in listing) && forall c :: Distinct(owners(c))
      modifies `files
      ensures (forall c, r :: outcome(c, r).NotApplied?) ==> files == old(files)
      ensures KeepsValid(id, old(files), files) && old(files).Keys <= files.Keys
      ensures !listed ==> counts == ChunkCounts(0, 0, 1) && files == old(files)
      ensures listed ==> Counted(id, old(files), n, listing, unreadable, owners, outcome, counts)
      ensures counts.failed == 0 ==> Everywhere(id, files, listing, owners)
    {
      if !listed {
        return ChunkCounts(0, 0, 1);
      }
      ghost var was := files;
      counts := ChunkCounts(0, 0, 0);
      KeepsValidReflexive(id, files);
      NothingDone(files);
      NothingCounted(id, files, n, unreadable, owners, outcome);
      assert listing[..0] == [];
      assert Everywhere(id, files, [], owners);
      hide ValidCopy, OnlyThese, Copies, Unsendable, KeepsValid, Sendable, Counted, Everywhere, Answers;
      var i := 0;
      while i < |listing|
        invariant 0 <= i <= |listing| && ((forall c, r :: outcome(c, r).NotApplied?) ==> files == was)
        invariant KeepsValid(id, was, files) && was.Keys <= files.Keys && OnlyThese(was, files, Elements(listing[..i]))
        invariant Counted(id, was, n, listing[..i], unreadable, owners, outcome, counts)
        invariant counts.failed == 0 ==> Everywhere(id, files, listing[..i], owners)
      {
        ghost var before := files;
        NotYet(was, files, listing, i, n, unreadable);
        var copied, failed := RebalanceOne(n, listing[i], unreadable, owners(listing[i]), r => outcome(listing[i], r));
        CountedMore(id, was, n, listing, i, unreadable, owners, outcome, counts, copied, failed);
        counts := ChunkCounts(counts.scanned + 1, counts.copied + copied, counts.failed + failed);
        SpreadMore(id, before, files, listing, i, owners);
        KeepsValidTransitive(id, was, before, files);
        OneMoreDone(was, before, files, listing, i);
        i := i + 1;
      }
      assert listing[..i] == listing;
    }

    /** One chunk of the directory: unsendable, or sent to every other owner. */
    method RebalanceOne(n: Node, c: ChunkId, unreadable: ChunkId -> bool, replicas: seq<Node>, outcome: Node -> Outcome)
      returns (copied: nat, failed: nat)
      requires Distinct(replicas)
      modifies `files
      ensures (forall r :: outcome(r).NotApplied?) ==> files == old(files)
      ensures KeepsValid(id, old(files), files) && old(files).Keys <= files.Keys && OnlyThese(old(files), files, {c})
      ensures copied == if Sendable(id, old(files), n, c, unreadable) then |Answers(replicas, n, outcome, true)| else 0
      ensures failed == if Sendable(id, old(files), n, c, unreadable) then |Answers(replicas, n, outcome, false)| else 1
      ensures failed == 0 ==> forall r :: r in replicas ==> ValidCopy(id, files, r, c)
    {
      if !Sendable(id, files, n, c, unreadable) {
        KeepsValidReflexive(id, files);
        return 0, 1;
      }
      copied, failed := Spread(n, c, Content(files, n, c, unreadable), replicas, outcome);
    }

    /** One chunk to every other owner, going on after failures. */
    method Spread(n: Node, c: ChunkId, data: Bytes, replicas: seq<Node>, outcome: Node -> Outcome)
      returns (copied: nat, failed: nat)
      requires id(data) == c && Distinct(replicas) && ValidCopy(id, files, n, c)
      modifies `files
      ensures (forall r :: outcome(r).NotApplied?) ==> files == old(files)
      ensures KeepsValid(id, old(files), files) && old(files).Keys <= files.Keys && OnlyThese(old(files), files, {c})
      ensures copied == |Answers(replicas, n, outcome, true)| && failed == |Answers(replicas, n, outcome, false)|
      ensures failed == 0 ==> forall r :: r in replicas ==> ValidCopy(id, files, r, c)
    {
      copied, failed := 0, 0;
      KeepsValidReflexive(id, files);
      assert replicas[..0] == [];
      assert Answers([], n, outcome, true) == {} && Answers([], n, outcome, false) == {};
      hide ValidCopy, Answers;
      var i := 0;
      while i < |replicas|
        invariant 0 <= i <= |replicas| && ((forall r :: outcome(r).NotApplied?) ==> files == old(files))
        invariant KeepsValid(id, old(files), files) && old(files).Keys <= files.Keys &&
                  OnlyThese(old(files), files, {c})
        invariant copied == |Answers(replicas[..i], n, outcome, true)| &&
                  failed == |Answers(replicas[..i], n, outcome, false)|
        invariant failed == 0 ==> forall j :: 0 <= j < i ==> ValidCopy(id, files, replicas[j], c)
      {
        var r := replicas[i];
        NextAnswer(replicas, i, n, outcome, true);
        NextAnswer(replicas, i, n, outcome, false);
        if r != n {
          ghost var before := files;
          PutCopyKeeps(id, files, r, data);
          KeepsValidReflexive(id, files);
          var ok := Send(r, data, outcome(r));
          KeepsValidTransitive(id, old(files), before, files);
          if ok {
            copied := copied + 1;
          } else {
            failed := failed + 1;
          }
        }
        i := i + 1;
      }
      assert replicas[..i] == replicas;
    }

    lemma NotYet(was: Files, files: Files, listing: seq<ChunkId>, i: nat, n: Node, unreadable: ChunkId -> bool)
      requires i < |listing| && Distinct(listing) && OnlyThese(was, files, Elements(listing[..i]))
      ensures Sendable(id, was, n, listing[i], unreadable) <==> Sendable(id, files, n, listing[i], unreadable)
      ensures Sendable(id, files, n, listing[i], unreadable) ==> ValidCopy(id, files, n, listing[i])
    {
      assert listing[i] !in listing[..i];
      assert listing[i] !in Elements(listing[..i]);
    }
  }

  lemma NothingDone(files: Files)
    ensures OnlyThese(files, files, {})
  {
  }

  lemma OneMoreDone(was: Files, before: Files, files: Files, listing: seq<ChunkId>, i: nat)
    requires i < |listing| && OnlyThese(was, before, Elements(listing[..i]))
    requires files == before || OnlyThese(before, files, {listing[i]})
    ensures OnlyThese(was, files, Elements(listing[..i + 1]))
  {
    assert listing[..i + 1] == listing[..i] + [listing[i]];
    assert Elements(listing[..i + 1]) == Elements(listing[..i]) + {listing[i]};
  }

  // ------------------------------------------------------------------ counting

  /** The other replicas whose request succeeds, or fails. */
  ghost function Answers(replicas: seq<Node>, n: Node, outcome: Node -> Outcome, good: bool): set<Node> {
    set r | r in replicas && r != n && (outcome(r) == Applied) == good
  }

  /** The copy requests for sendable chunks that succeed, or fail. */
  ghost function Copies(id: Bytes -> ChunkId, files: Files, n: Node, listing: seq<ChunkId>, unreadable: ChunkId -> bool,
                        owners: Placement, outcome: (ChunkId, Node) -> Outcome, good: bool): set<(ChunkId, Node)> {
    set c, r | c in listing && r in owners(c) && Sendable(id, files, n, c, unreadable) && r != n &&
        (outcome(c, r) == Applied) == good :: (c, r)
  }

  ghost function Unsendable(id: Bytes -> ChunkId, files: Files, n: Node, listing: seq<ChunkId>,
                            unreadable: ChunkId -> bool): set<ChunkId> {
    set c | c in listing && !Sendable(id, files, n, c, unreadable)
  }

  lemma NextAnswer(replicas: seq<Node>, i: nat, n: Node, outcome: Node -> Outcome, good: bool)
    requires i < |replicas| && Distinct(replicas)
    ensures |Answers(replicas[..i + 1], n, outcome, good)| ==
              |Answers(replicas[..i], n, outcome, good)|
                + (if replicas[i] != n && (outcome(replicas[i]) == Applied) == good then 1 else 0)
  {
    assert replicas[..i + 1] == replicas[..i] + [replicas[i]];
    assert replicas[i] !in replicas[..i];
    if replicas[i] != n && (outcome(replicas[i]) == Applied) == good {
      assert Answers(replicas[..i + 1], n, outcome, good) == Answers(replicas[..i], n, outcome, good) + {replicas[i]};
    } else {
      assert Answers(replicas[..i + 1], n, outcome, good) == Answers(replicas[..i], n, outcome, good);
    }
  }

  /** The counters are the numbers of chunks, of good copy requests, and of everything that failed. */
  ghost predicate Counted(id: Bytes -> ChunkId, files: Files, n: Node, listing: seq<ChunkId>,
                          unreadable: ChunkId -> bool, owners: Placement, outcome: (ChunkId, Node) -> Outcome,
                          counts: ChunkCounts)
  {
    && counts.scanned == |listing|
    && counts.copied == |Copies(id, files, n, listing, unreadable, owners, outcome, true)|
    && counts.failed == |Copies(id, files, n, listing, unreadable, owners, outcome, false)|
         + |Unsendable(id, files, n, listing, unreadable)|
  }

  lemma CountedMore(id: Bytes -> ChunkId, files: Files, n: Node, listing: seq<ChunkId>, i: nat,
                    unreadable: ChunkId -> bool, owners: Placement, outcome: (ChunkId, Node) -> Outcome,
                    counts: ChunkCounts, copied: nat, failed: nat)
    requires i < |listing| && Distinct(listing) &&
             Counted(id, files, n, listing[..i], unreadable, owners, outcome, counts)
    requires var c := listing[i];
             if Sendable(id, files, n, c, unreadable) then
               && copied == |Answers(owners(c), n, r => outcome(c, r), true)|
               && failed == |Answers(owners(c), n, r => outcome(c, r), false)|
             else copied == 0 && failed == 1
    ensures Counted(id, files, n, listing[..i + 1], unreadable, owners, outcome,
                    ChunkCounts(counts.scanned + 1, counts.copied + copied, counts.failed + failed))
  {
    CountChunk(id, files, n, listing, i, unreadable, owners, outcome);
    hide Sendable, Copies, Unsendable, Answers;
  }

  /** Every owner has a valid copy of every one of these chunks. */
  ghost predicate Everywhere(id: Bytes -> ChunkId, files: Files, listing: seq<ChunkId>, owners: Placement) {
    forall c, r :: c in listing && r in owners(c) ==> ValidCopy(id, files, r, c)
  }

  lemma SpreadMore(id: Bytes -> ChunkId, before: Files, files: Files, listing: seq<ChunkId>, i: nat, owners: Placement)
    requires i < |listing| && KeepsValid(id, before, files)
    ensures Everywhere(id, before, listing[..i], owners) &&
            (forall r :: r in owners(listing[i]) ==> ValidCopy(id, files, r, listing[i])) ==>
              Everywhere(id, files, listing[..i + 1], owners)
  {
    assert listing[..i + 1] == listing[..i] + [listing[i]];
    hide ValidCopy;
  }

  ghost function Pairs(c: ChunkId, nodes: set<Node>): set<(ChunkId, Node)> {
    set r | r in nodes :: (c, r)
  }

  lemma {:induction false} PairsSize(c: ChunkId, nodes: set<Node>)
    ensures |Pairs(c, nodes)| == |nodes|
  {
    if nodes == {} {
      assert Pairs(c, nodes) == {};
    } else {
      var r :| r in nodes;
      PairsSize(c, nodes - {r});
      assert Pairs(c, nodes) == Pairs(c, nodes - {r}) + {(c, r)};
    }
  }

  lemma NothingCounted(id: Bytes -> ChunkId, files: Files, n: Node, unreadable: ChunkId -> bool,
                       owners: Placement, outcome: (ChunkId, Node) -> Outcome)
    ensures forall good :: Copies(id, files, n, [], unreadable, owners, outcome, good) == {}
    ensures Unsendable(id, files, n, [], unreadable) == {}
  {
  }

  /** The chunk at `i` adds its answers to the copies, or itself to the unsendable chunks. */
  lemma CountChunk(id: Bytes -> ChunkId, files: Files, n: Node, listing: seq<ChunkId>, i: nat,
                   unreadable: ChunkId -> bool, owners: Placement, outcome: (ChunkId, Node) -> Outcome)
    requires i < |listing| && Distinct(listing)
    ensures var c := listing[i];
            var sendable := Sendable(id, files, n, c, unreadable);
            && (forall good :: |Copies(id, files, n, listing[..i + 1], unreadable, owners, outcome, good)| ==
                  |Copies(id, files, n, listing[..i], unreadable, owners, outcome, good)|
                  + (if sendable then |Answers(owners(c), n, r => outcome(c, r), good)| else 0))
            && |Unsendable(id, files, n, listing[..i + 1], unreadable)| ==
                 |Unsendable(id, files, n, listing[..i], unreadable)| + (if sendable then 0 else 1)
  {
    var c := listing[i];
    assert listing[..i + 1] == listing[..i] + [c];
    assert c !in listing[..i];
    assert Unsendable(id, files, n, listing[..i + 1], unreadable) ==
           Unsendable(id, files, n, listing[..i], unreadable)
             + (if Sendable(id, files, n, c, unreadable) then {} else {c});
    forall good
      ensures |Copies(id, files, n, listing[..i + 1], unreadable, owners, outcome, good)| ==
                |Copies(id, files, n, listing[..i], unreadable, owners, outcome, good)|
                + (if Sendable(id, files, n, c, unreadable) then |Answers(owners(c), n, r => outcome(c, r), good)|
                else 0)
    {
      CountCopies(id, files, n, listing, i, unreadable, owners, outcome, good);
    }
  }

  lemma CountCopies(id: Bytes -> ChunkId, files: Files, n: Node, listing: seq<ChunkId>, i: nat,
                    unreadable: ChunkId -> bool, owners: Placement, outcome: (ChunkId, Node) -> Outcome, good: bool)
    requires i < |listing| && Distinct(listing)
    ensures |Copies(id, files, n, listing[..i + 1], unreadable, owners, outcome, good)| ==
              |Copies(id, files, n, listing[..i], unreadable, owners, outcome, good)|
              + (if Sendable(id, files, n, listing[i], unreadable)
                then |Answers(owners(listing[i]), n, r => outcome(listing[i], r), good)| else 0)
  {
    var c := listing[i];
    assert listing[..i + 1] == listing[..i] + [c];
    assert c !in listing[..i];
    var was := Copies(id, files, n, listing[..i], unreadable, owners, outcome, good);
    var now := Copies(id, files, n, listing[..i + 1], unreadable, owners, outcome, good);
    hide Sendable;
    if Sendable(id, files, n, c, unreadable) {
      var a := Answers(owners(c), n, r => outcome(c, r), good);
      PairsSize(c, a);
      assert now == was + Pairs(c, a);
      assert was !! Pairs(c, a);
    } else {
      assert now == was;
    }
  }
}
