/**
 The loops of a garbage collection (internal/node/gc.go, internal/chunk/store.go): marking, collecting the
 marks of all members, sweeping one node's files, and the whole of `RunGC`.
 */
module Collector {
  import opened Versions
  import opened Requests
  import opened Sequences
  import G = Gc

  type Node = G.Node
  type Key = G.Key
  type ChunkId = G.ChunkId
  type Store = map<Key, Value>
  type Files = map<(Node, ChunkId), int>

  /** Chunk references of decoded metadata, nothing if it does not decode. */
  type Decoder = seq<Byte> -> Option<seq<ChunkId>>

  const METADATA_KEY_PREFIX := "object:meta:"

  predicate IsMetadata(key: Key, value: Value) {
    METADATA_KEY_PREFIX <= key && !value.deleted
  }

  predicate HexDigit(c: char) {
    '0' <= c <= '9' || 'a' <= c <= 'f' || 'A' <= c <= 'F'
  }

  /** `validateID`: 64 hexadecimal digits; other files in the chunk directory are none of ours. */
  predicate ValidId(id: string) {
    |id| == 64 && forall i :: 0 <= i < |id| ==> HexDigit(id[i])
  }

  /** The digits of either case, and nothing else. */
  lemma ValidIdIff(id: string)
    ensures ValidId(id) <==> |id| == 64 && forall i :: 0 <= i < |id| ==> id[i] in "0123456789abcdefABCDEF"
  {
    forall i | 0 <= i < |id|
      ensures HexDigit(id[i]) <==> id[i] in "0123456789abcdefABCDEF"
    {
      HexDigits(id[i]);
    }
  }

  lemma HexDigits(c: char)
    ensures HexDigit(c) <==> c in "0123456789abcdefABCDEF"
  {
    var digits := "0123456789abcdefABCDEF";
    assert digits == "0123456789" + "abcdef" + "ABCDEF";
    if HexDigit(c) {
      var i := if c <= '9' then c as int - '0' as int
               else if c <= 'F' then 16 + (c as int - 'A' as int) else 10 + (c as int - 'a' as int);
      assert digits[i] == c;
    }
  }

  /** The hexadecimal text of a hash. */
  function Hex(bytes: seq<Byte>): string {
    if bytes == [] then ""
    else
      var b := bytes[|bytes| - 1];
      Hex(bytes[..|bytes| - 1]) + ["0123456789abcdef"[b / 16], "0123456789abcdef"[b % 16]]
  }

  /** The identifier of every chunk, the text of a 32-byte hash, is valid. */
  lemma HashIsValidId(hash: seq<Byte>)
    requires |hash| == 32
    ensures ValidId(Hex(hash))
  {
    HexIsDigits(hash);
  }

  lemma {:induction false} HexIsDigits(bytes: seq<Byte>)
    ensures |Hex(bytes)| == 2 * |bytes| && forall i :: 0 <= i < |Hex(bytes)| ==> HexDigit(Hex(bytes)[i])
  {
    if bytes != [] {
      HexIsDigits(bytes[..|bytes| - 1]);
      HexChar(bytes[|bytes| - 1] / 16);
      HexChar(bytes[|bytes| - 1] % 16);
      hide HexDigit;
    }
  }

  lemma HexChar(d: nat)
    requires d < 16
    ensures HexDigit("0123456789abcdef"[d])
  {
  }

  /** Every chunk referenced by live metadata of a store. */
  ghost function LiveIn(decode: Decoder, store: Store): set<ChunkId> {
    set k, id | k in store && IsMetadata(k, store[k]) && decode(store[k].data).Some? &&
        id in decode(store[k].data).value :: id
  }

  ghost predicate AllDecode(decode: Decoder, store: Store) {
    forall k :: k in store && IsMetadata(k, store[k]) ==> decode(store[k].data).Some?
  }

  ghost function LiveAcross(decode: Decoder, stores: map<Node, Store>, members: seq<Node>): set<ChunkId> {
    set m, id | m in members && m in stores && id in LiveIn(decode, stores[m]) :: id
  }

  predicate Orphan(live: set<ChunkId>, cutoff: int, id: ChunkId, mtime: int) {
    ValidId(id) && id !in live && mtime < cutoff
  }

  /** The files left when node `n` loses its orphans. */
  ghost function SweptOf(files: Files, n: Node, live: set<ChunkId>, cutoff: int): Files {
    map f | f in files && !(f.0 == n && Orphan(live, cutoff, f.1, files[f])) :: files[f]
  }

  /** The files left when every node of `members` lost its orphans. */
  ghost function SweptAcross(files: Files, members: seq<Node>, live: set<ChunkId>, cutoff: int): Files {
    map f | f in files && !(f.0 in members && Orphan(live, cutoff, f.1, files[f])) :: files[f]
  }

  /** Nothing but orphans on these nodes is gone, and nothing is changed. */
  ghost predicate OnlyOrphansGone(was: Files, files: Files, nodes: set<Node>, live: set<ChunkId>, cutoff: int) {
    && (forall f :: f in files ==> f in was && files[f] == was[f])
    && (forall f :: f in was && f !in files ==> f.0 in nodes && Orphan(live, cutoff, f.1, was[f]))
  }

  /** No orphan on node `n` resists removal. */
  ghost predicate Removable(files: Files, n: Node, live: set<ChunkId>, cutoff: int, stuck: (Node, ChunkId) -> bool) {
    forall id :: (n, id) in files && Orphan(live, cutoff, id, files[(n, id)]) ==> !stuck(n, id)
  }

  datatype Counts = Counts(scanned: nat, deleted: nat, kept: nat)

  /** What is read again while a collection runs: the coordinator's version and members, every node's version. */
  datatype Later = Later(markEnd: nat, members: seq<Node>, sweepStart: nat, versions: map<Node, nat>)

  class Cluster {
    const decode: Decoder
    var stores: map<Node, Store>
    var files: Files
    var configVersions: map<Node, nat>

    constructor (decode: Decoder, stores: map<Node, Store>, files: Files, configVersions: map<Node, nat>)
      ensures this.decode == decode && this.stores == stores && this.files == files &&
              this.configVersions == configVersions
    {
      this.decode, this.stores, this.files, this.configVersions := decode, stores, files, configVersions;
    }

    /** `markLiveChunks`: metadata that does not decode fails the mark. `order` is the map's iteration order. */
    method MarkLiveChunks(m: Node, order: seq<Key>) returns (live: set<ChunkId>, ok: bool)
      requires m in stores && Elements(order) == stores[m].Keys
      ensures ok <==> AllDecode(decode, stores[m])
      ensures ok ==> live == LiveIn(decode, stores[m])
    {
      var snapshot := stores[m];
      live := {};
      var i := 0;
      while i < |order|
        invariant 0 <= i <= |order|
        invariant forall j :: 0 <= j < i && IsMetadata(order[j], snapshot[order[j]]) ==>
                    decode(snapshot[order[j]].data).Some?
        invariant forall id :: id in live <==> exists j :: 0 <= j < i && References(decode, snapshot, order[j], id)
      {
        var k := order[i];
        assert k in Elements(order);
        var value := snapshot[k];
        i := i + 1;
        if !(METADATA_KEY_PREFIX <= k) {
          continue;
        }
        if value.deleted {
          continue;
        }
        var metadata := decode(value.data);
        if metadata.None? {
          assert IsMetadata(k, snapshot[k]);
          return {}, false;
        }
        live := live + Elements(metadata.value);
      }
      assert forall k :: k in snapshot ==> k in order;
      forall id | id in LiveIn(decode, snapshot)
        ensures id in live
      {
        var k :| k in snapshot && References(decode, snapshot, k, id);
        assert k in order;
      }
      return live, true;
    }

    /** The reply to a mark request: what the member marked and the configuration it marked under. */
    method RequestMark(m: Node, reachable: bool, order: seq<Key>) returns (live: set<ChunkId>, version: nat, ok: bool)
      requires m in stores ==> Elements(order) == stores[m].Keys
      ensures ok <==> reachable && m in stores && m in configVersions && AllDecode(decode, stores[m])
      ensures ok ==> live == LiveIn(decode, stores[m]) && version == configVersions[m]
    {
      if !reachable || m !in stores || m !in configVersions {
        return {}, 0, false;
      }
      live, ok := MarkLiveChunks(m, order);
      return live, configVersions[m], ok;
    }

    /**
     `collectLiveChunks`: one failed or differently configured member, or a
     new configuration at the end, fails it all.
     */
    method CollectLiveChunks(self: Node, members: seq<Node>, reachable: Node -> bool, orders: map<Node, seq<Key>>,
                             markEnd: nat)
      returns (live: set<ChunkId>, version: nat, ok: bool)
      requires self in configVersions
      requires forall m :: m in members && m in stores ==> m in orders && Elements(orders[m]) == stores[m].Keys
      ensures ok <==> members != [] && markEnd == configVersions[self]
                      && forall i :: 0 <= i < |members| ==>
                           && reachable(members[i]) && members[i] in stores && members[i] in configVersions
                           && configVersions[members[i]] == configVersions[self]
                           && AllDecode(decode, stores[members[i]])
      ensures ok ==> version == configVersions[self] && live == LiveAcross(decode, stores, members)
    {
      version := configVersions[self];
      live := {};
      if |members| == 0 {
        return {}, 0, false;
      }
      var i := 0;
      hide LiveIn, AllDecode;
      while i < |members|
        invariant 0 <= i <= |members|
        invariant forall j :: 0 <= j < i ==>
                    && reachable(members[j]) && members[j] in stores && members[j] in configVersions
                    && configVersions[members[j]] == configVersions[self]
                    && AllDecode(decode, stores[members[j]])
        invariant live == LiveAcross(decode, stores, members[..i])
      {
        var m := members[i];
        var marked, markedVersion, marks := RequestMark(m, reachable(m), if m in orders then orders[m] else []);
        if !marks {
          return {}, 0, false;
        }
        if markedVersion != version {
          return {}, 0, false;
        }
        AcrossOneMore(decode, stores, members, i);
        live := live + marked;
        i := i + 1;
      }
      assert members[..i] == members;
      if markEnd != version {
        return {}, 0, false;
      }
      return live, version, true;
    }

    /**
     `Store.Sweep` over the files of node `n` in directory order. A file that cannot be removed stops the sweep,
     with the earlier ones already gone.
     */
    method SweepFiles(n: Node, listing: seq<ChunkId>, live: set<ChunkId>, cutoff: int, stuck: (Node, ChunkId) -> bool)
      returns (counts: Counts, ok: bool)
      requires Distinct(listing) && ListsFilesOf(files, n, listing)
      modifies `files
      ensures OnlyOrphansGone(old(files), files, {n}, live, cutoff)
      ensures ok ==> files == SweptOf(old(files), n, live, cutoff)
      ensures ok <==> Removable(old(files), n, live, cutoff, stuck)
      ensures ok ==> counts.scanned == counts.deleted + counts.kept && counts.deleted == |old(files)| - |files|
    {
      counts := Counts(0, 0, 0);
      var i := 0;
      ghost var was := files;
      SweptInPart(was, n, listing, 0, live, cutoff);
      hide ValidId, SweptPart, OnlyOrphansGone, SweptOf;
      while i < |listing|
        invariant 0 <= i <= |listing|
        invariant files == SweptPart(was, n, listing[..i], live, cutoff)
        invariant forall j :: 0 <= j < i && Orphan(live, cutoff, listing[j], was[(n, listing[j])]) ==>
                    !stuck(n, listing[j])
        invariant counts.scanned == counts.deleted + counts.kept && counts.deleted + |files| == |was|
      {
        var id := listing[i];
        SweptNext(was, n, listing, i, live, cutoff);
        i := i + 1;
        if !ValidId(id) {
          continue;
        }
        counts := counts.(scanned := counts.scanned + 1);
        if id in live {
          counts := counts.(kept := counts.kept + 1);
          continue;
        }
        if !(files[(n, id)] < cutoff) {
          counts := counts.(kept := counts.kept + 1);
          continue;
        }
        if stuck(n, id) {
          SweptInPart(was, n, listing, i - 1, live, cutoff);
          return Counts(0, 0, 0), false;
        }
        RemovedOne(files, (n, id));
        files := files - {(n, id)};
        counts := counts.(deleted := counts.deleted + 1);
      }
      SweptInPart(was, n, listing, i, live, cutoff);
      return counts, true;
    }

    /** `localGCSweep` as its caller sees it: refused under another configuration, and the reply can be lost. */
    method RequestSweep(n: Node, listing: seq<ChunkId>, live: set<ChunkId>, cutoff: int, version: nat,
                        versions: map<Node, nat>, reply: Outcome, stuck: (Node, ChunkId) -> bool)
      returns (counts: Counts, ok: bool)
      requires Distinct(listing) && ListsFilesOf(files, n, listing)
      modifies `files
      ensures OnlyOrphansGone(old(files), files, {n}, live, cutoff)
      ensures ok ==> files == SweptOf(old(files), n, live, cutoff)
      ensures ok ==> counts.scanned == counts.deleted + counts.kept && counts.deleted == |old(files)| - |files|
      ensures ok <==>
                reply.Applied? && n in versions && versions[n] == version &&
                Removable(old(files), n, live, cutoff, stuck)
    {
      counts := Counts(0, 0, 0);
      if reply.NotApplied? || n !in versions || versions[n] != version {
        return counts, false;
      }
      counts, ok := SweepFiles(n, listing, live, cutoff, stuck);
      ok := ok && reply.Applied?;
    }

    /**
     `RunGC`, started at time `now`. Whatever fails, only orphans disappear: files of a chunk that no member's
     live metadata references and that were last written before the grace period. On success all of them are
     gone from every node that was a member when the sweeps began.
     */
    method RunGC(self: Node, members: seq<Node>, now: int, gracePeriod: int, reachable: Node -> bool,
                 orders: map<Node, seq<Key>>, later: Later, listings: map<Node, seq<ChunkId>>, replies: Node -> Outcome,
                 stuck: (Node, ChunkId) -> bool)
      returns (counts: Counts, ok: bool)
      requires self in configVersions && Distinct(later.members)
      requires forall m :: m in members && m in stores ==> m in orders && Elements(orders[m]) == stores[m].Keys
      requires Listed(files, later.members, listings)
      modifies `files
      ensures OnlyOrphansGone(old(files), files, Elements(later.members), LiveAcross(decode, stores, members),
                              now - gracePeriod)
      ensures ok ==>
                files == SweptAcross(old(files), later.members, LiveAcross(decode, stores, members), now - gracePeriod)
      ensures forall n, id | (n, id) in old(files) && (n, id) !in files ::
                n in later.members && ValidId(id) && id !in LiveAcross(decode, stores, members) &&
                old(files)[(n, id)] < now - gracePeriod
      ensures ok ==> forall n, id | (n, id) in old(files) && n in later.members && ValidId(id) ::
                id !in LiveAcross(decode, stores, members) && old(files)[(n, id)] < now - gracePeriod ==>
                  (n, id) !in files
      ensures ok ==> forall m :: m in later.members ==>
                replies(m).Applied? && m in later.versions && later.versions[m] == configVersions[self]
      ensures ok ==> counts.scanned == counts.deleted + counts.kept && counts.deleted == |old(files)| - |files|
      ensures ok <==>
                && gracePeriod >= 0 && members != [] && later.members != []
                && later.markEnd == configVersions[self] && later.sweepStart == configVersions[self]
                && (forall i :: 0 <= i < |members| ==>
                      && reachable(members[i]) && members[i] in stores && members[i] in configVersions
                      && configVersions[members[i]] == configVersions[self]
                      && AllDecode(decode, stores[members[i]]))
                && forall m :: m in later.members ==>
                     CanSweep(old(files), m, LiveAcross(decode, stores, members), now - gracePeriod,
                              configVersions[self], later.versions, replies, stuck)
    {
      hide *;
      counts := Counts(0, 0, 0);
      ghost var was := files;
      NothingSwept(files, LiveAcross(decode, stores, members), now - gracePeriod, Elements(later.members));
      if gracePeriod < 0 {
        return counts, false;
      }
      var live, version, collected := CollectLiveChunks(self, members, reachable, orders, later.markEnd);
      if !collected {
        return counts, false;
      }
      if |later.members| == 0 {
        return counts, false;
      }
      if later.sweepStart != version {
        return counts, false;
      }
      counts, ok := SweepAll(later.members, listings, live, now - gracePeriod, version, later.versions, replies, stuck);
      OrphansMean(was, files, later.members, live, now - gracePeriod);
      SweptMeans(was, later.members, live, now - gracePeriod);
      forall m | m in later.members
        ensures ok ==> replies(m).Applied? && m in later.versions && later.versions[m] == version
      {
        CanSweepIs(old(files), m, live, now - gracePeriod, version, later.versions, replies, stuck);
      }
    }

    /** The second half of `RunGC`: sweep the members one after the other, up to the first failure. */
    method SweepAll(members: seq<Node>, listings: map<Node, seq<ChunkId>>, live: set<ChunkId>, cutoff: int,
                    version: nat, versions: map<Node, nat>, replies: Node -> Outcome, stuck: (Node, ChunkId) -> bool)
      returns (counts: Counts, ok: bool)
      requires Distinct(members) && Listed(files, members, listings)
      modifies `files
      ensures OnlyOrphansGone(old(files), files, Elements(members), live, cutoff)
      ensures ok <==>
                forall m :: m in members ==> CanSweep(old(files), m, live, cutoff, version, versions, replies, stuck)
      ensures ok ==> files == SweptAcross(old(files), members, live, cutoff)
      ensures ok ==> counts.scanned == counts.deleted + counts.kept && counts.deleted == |old(files)| - |files|
    {
      hide *;
      counts := Counts(0, 0, 0);
      ghost var was := files;
      NothingSwept(files, live, cutoff, Elements(members));
      SoFarNone(was, members, live, cutoff, version, versions, replies, stuck);
      var i := 0;
      while i < |members|
        invariant 0 <= i <= |members|
        invariant OnlyOrphansGone(was, files, Elements(members), live, cutoff)
        invariant SweptSoFar(was, files, members, i, live, cutoff, version, versions, replies, stuck)
        invariant counts.scanned == counts.deleted + counts.kept && counts.deleted + |files| == |was|
      {
        var m := members[i];
        ghost var before := files;
        SoFarKnows(was, files, members, i, live, cutoff, version, versions, replies, stuck, listings);
        var swept, sweeps := RequestSweep(m, listings[m], live, cutoff, version, versions, replies(m), stuck);
        CanSweepIs(before, m, live, cutoff, version, versions, replies, stuck);
        GoneTransitive(was, before, files, m, Elements(members), live, cutoff);
        if !sweeps {
          return Counts(0, 0, 0), false;
        }
        SoFarMore(was, before, files, members, i, live, cutoff, version, versions, replies, stuck);
        counts := Counts(counts.scanned + swept.scanned, counts.deleted + swept.deleted, counts.kept + swept.kept);
        i := i + 1;
      }
      SoFarAll(was, files, members, live, cutoff, version, versions, replies, stuck);
      return counts, true;
    }
  }

  /** Whatever is gone was old and unreferenced, on one of these nodes. */
  lemma OrphansMean(was: Files, files: Files, members: seq<Node>, live: set<ChunkId>, cutoff: int)
    requires OnlyOrphansGone(was, files, Elements(members), live, cutoff)
    ensures forall n, id | (n, id) in was && (n, id) !in files ::
              n in members && ValidId(id) && id !in live && was[(n, id)] < cutoff
  {
    hide ValidId;
  }

  /** Everything old and unreferenced on these nodes is gone. */
  lemma SweptMeans(was: Files, members: seq<Node>, live: set<ChunkId>, cutoff: int)
    ensures forall n, id | (n, id) in was && n in members && ValidId(id) ::
              id !in live && was[(n, id)] < cutoff ==> (n, id) !in SweptAcross(was, members, live, cutoff)
  {
    hide ValidId;
  }

  /** The member is under this configuration, its orphans can be removed, and its reply arrives. */
  ghost predicate CanSweep(files: Files, m: Node, live: set<ChunkId>, cutoff: int, version: nat,
                           versions: map<Node, nat>, replies: Node -> Outcome, stuck: (Node, ChunkId) -> bool)
  {
    replies(m).Applied? && m in versions && versions[m] == version && Removable(files, m, live, cutoff, stuck)
  }

  lemma CanSweepIs(files: Files, m: Node, live: set<ChunkId>, cutoff: int, version: nat, versions: map<Node, nat>,
                   replies: Node -> Outcome, stuck: (Node, ChunkId) -> bool)
    ensures CanSweep(files, m, live, cutoff, version, versions, replies, stuck)
            <==> replies(m).Applied? && m in versions && versions[m] == version &&
                 Removable(files, m, live, cutoff, stuck)
  {
  }

  /** Every node's directory as it is listed. */
  ghost predicate Listed(files: Files, members: seq<Node>, listings: map<Node, seq<ChunkId>>) {
    forall m :: m in members ==> m in listings && Distinct(listings[m]) && ListsFilesOf(files, m, listings[m])
  }

  /** The first `i` members have been swept with success. */
  ghost predicate SweptSoFar(was: Files, files: Files, members: seq<Node>, i: nat, live: set<ChunkId>, cutoff: int,
                             version: nat, versions: map<Node, nat>, replies: Node -> Outcome,
                             stuck: (Node, ChunkId) -> bool)
    requires i <= |members|
  {
    && Distinct(members) && files == SweptAcross(was, members[..i], live, cutoff)
    && forall j :: 0 <= j < i ==> CanSweep(was, members[j], live, cutoff, version, versions, replies, stuck)
  }

  lemma SoFarNone(files: Files, members: seq<Node>, live: set<ChunkId>, cutoff: int, version: nat,
                  versions: map<Node, nat>, replies: Node -> Outcome, stuck: (Node, ChunkId) -> bool)
    requires Distinct(members)
    ensures SweptSoFar(files, files, members, 0, live, cutoff, version, versions, replies, stuck)
  {
    NothingSwept(files, live, cutoff, {});
    assert members[..0] == [];
  }

  lemma SoFarKnows(was: Files, files: Files, members: seq<Node>, i: nat, live: set<ChunkId>, cutoff: int, version: nat,
                   versions: map<Node, nat>, replies: Node -> Outcome, stuck: (Node, ChunkId) -> bool,
                   listings: map<Node, seq<ChunkId>>)
    requires i < |members| && SweptSoFar(was, files, members, i, live, cutoff, version, versions, replies, stuck)
    requires Listed(was, members, listings)
    ensures var m := members[i];
            && m in Elements(members) && m in listings && Distinct(listings[m]) && ListsFilesOf(files, m, listings[m])
            && (CanSweep(was, m, live, cutoff, version, versions, replies, stuck)
                <==> CanSweep(files, m, live, cutoff, version, versions, replies, stuck))
  {
    hide SweptAcross, ListsFilesOf, Removable;
    assert members[i] in members && members[i] !in members[..i];
    StillLists(was, members[..i], live, cutoff, members[i], listings[members[i]]);
    StillRemovable(was, members[..i], live, cutoff, members[i], stuck);
  }

  lemma SoFarMore(was: Files, before: Files, files: Files, members: seq<Node>, i: nat, live: set<ChunkId>, cutoff: int,
                  version: nat, versions: map<Node, nat>, replies: Node -> Outcome, stuck: (Node, ChunkId) -> bool)
    requires i < |members| && SweptSoFar(was, before, members, i, live, cutoff, version, versions, replies, stuck)
    requires files == SweptOf(before, members[i], live, cutoff)
    requires CanSweep(was, members[i], live, cutoff, version, versions, replies, stuck)
    ensures SweptSoFar(was, files, members, i + 1, live, cutoff, version, versions, replies, stuck)
  {
    hide SweptAcross, SweptOf, CanSweep;
    SweptOneMore(was, members, i, live, cutoff);
  }

  lemma SoFarAll(was: Files, files: Files, members: seq<Node>, live: set<ChunkId>, cutoff: int, version: nat,
                 versions: map<Node, nat>, replies: Node -> Outcome, stuck: (Node, ChunkId) -> bool)
    requires SweptSoFar(was, files, members, |members|, live, cutoff, version, versions, replies, stuck)
    ensures files == SweptAcross(was, members, live, cutoff)
    ensures forall m :: m in members ==> CanSweep(was, m, live, cutoff, version, versions, replies, stuck)
  {
    hide SweptAcross, CanSweep;
    assert members[..|members|] == members;
  }

  lemma NothingSwept(files: Files, live: set<ChunkId>, cutoff: int, nodes: set<Node>)
    ensures SweptAcross(files, [], live, cutoff) == files && OnlyOrphansGone(files, files, nodes, live, cutoff)
  {
  }

  /** Sweeping other nodes leaves this one's directory as it was. */
  lemma StillLists(files: Files, swept: seq<Node>, live: set<ChunkId>, cutoff: int, n: Node, listing: seq<ChunkId>)
    requires n !in swept && ListsFilesOf(files, n, listing)
    ensures ListsFilesOf(SweptAcross(files, swept, live, cutoff), n, listing)
  {
    hide Orphan;
  }

  lemma StillRemovable(files: Files, swept: seq<Node>, live: set<ChunkId>, cutoff: int, n: Node,
                       stuck: (Node, ChunkId) -> bool)
    requires n !in swept
    ensures Removable(SweptAcross(files, swept, live, cutoff), n, live, cutoff, stuck) <==>
              Removable(files, n, live, cutoff, stuck)
  {
    hide Orphan;
    var after := SweptAcross(files, swept, live, cutoff);
    assert forall id :: (n, id) in after <==> (n, id) in files;
  }

  ghost predicate References(decode: Decoder, store: Store, k: Key, id: ChunkId) {
    k in store && IsMetadata(k, store[k]) && decode(store[k].data).Some? && id in decode(store[k].data).value
  }

  ghost predicate ListsFilesOf(files: Files, n: Node, listing: seq<ChunkId>) {
    forall id :: (n, id) in files <==> id in listing
  }

  lemma AcrossOneMore(decode: Decoder, stores: map<Node, Store>, members: seq<Node>, i: nat)
    requires i < |members| && members[i] in stores
    ensures LiveAcross(decode, stores, members[..i + 1]) == LiveAcross(decode, stores, members[..i])
              + LiveIn(decode, stores[members[i]])
  {
    hide LiveIn;
    assert members[..i + 1] == members[..i] + [members[i]];
  }

  /** The files left once the orphans among `done` are gone from node `n`. */
  ghost function SweptPart(files: Files, n: Node, done: seq<ChunkId>, live: set<ChunkId>, cutoff: int): Files {
    map f | f in files && !(f.0 == n && f.1 in done && Orphan(live, cutoff, f.1, files[f])) :: files[f]
  }

  lemma SweptInPart(files: Files, n: Node, listing: seq<ChunkId>, i: nat, live: set<ChunkId>, cutoff: int)
    requires i <= |listing| && ListsFilesOf(files, n, listing)
    ensures OnlyOrphansGone(files, SweptPart(files, n, listing[..i], live, cutoff), {n}, live, cutoff)
    ensures i == 0 ==> SweptPart(files, n, listing[..i], live, cutoff) == files
    ensures i == |listing| ==> SweptPart(files, n, listing[..i], live, cutoff) == SweptOf(files, n, live, cutoff)
  {
    hide Orphan;
    if i == |listing| {
      assert listing[..i] == listing;
    }
  }

  lemma SweptNext(files: Files, n: Node, listing: seq<ChunkId>, i: nat, live: set<ChunkId>, cutoff: int)
    requires i < |listing| && Distinct(listing) && ListsFilesOf(files, n, listing)
    ensures var part := SweptPart(files, n, listing[..i], live, cutoff); var f := (n, listing[i]);
            && f in files && f in part && part[f] == files[f]
            && SweptPart(files, n, listing[..i + 1], live, cutoff)
               == if Orphan(live, cutoff, listing[i], files[f]) then part - {f} else part
  {
    hide Orphan;
    assert listing[..i + 1] == listing[..i] + [listing[i]];
    assert listing[i] !in listing[..i];
  }

  lemma RemovedOne(files: Files, f: (Node, ChunkId))
    requires f in files
    ensures |files - {f}| == |files| - 1
  {
    assert (files - {f}).Keys == files.Keys - {f};
  }

  lemma GoneTransitive(a: Files, b: Files, c: Files, n: Node, nodes: set<Node>, live: set<ChunkId>, cutoff: int)
    requires OnlyOrphansGone(a, b, nodes, live, cutoff) && OnlyOrphansGone(b, c, {n}, live, cutoff) && n in nodes
    ensures OnlyOrphansGone(a, c, nodes, live, cutoff)
  {
    hide Orphan;
  }

  lemma SweptOneMore(files: Files, members: seq<Node>, i: nat, live: set<ChunkId>, cutoff: int)
    requires i < |members|
    ensures SweptOf(SweptAcross(files, members[..i], live, cutoff), members[i], live, cutoff) ==
              SweptAcross(files, members[..i + 1], live, cutoff)
  {
    hide Orphan;
    assert members[..i + 1] == members[..i] + [members[i]];
  }

  // ------------------------------------------------------------------ the loops as steps of `Gc`

  ghost function RecordOf(decode: Decoder, value: Value): G.Record {
    var chunks := decode(value.data);
    G.Record(value.version, !value.deleted, if chunks.Some? then Elements(chunks.value) else {})
  }

  ghost function Pairs(stores: map<Node, Store>): set<(Node, Key)> {
    set m, k | m in stores && k in stores[m] :: (m, k)
  }

  /** What the step system calls metadata. */
  ghost function MetaOf(decode: Decoder, stores: map<Node, Store>): map<(Node, Key), G.Record> {
    map mk | mk in Pairs(stores) && METADATA_KEY_PREFIX <= mk.1 :: RecordOf(decode, stores[mk.0][mk.1])
  }

  lemma MarkMeans(decode: Decoder, stores: map<Node, Store>, m: Node)
    requires m in stores
    ensures G.LiveAt(MetaOf(decode, stores), m) == LiveIn(decode, stores[m])
  {
    var meta := MetaOf(decode, stores);
    forall id | id in LiveIn(decode, stores[m])
      ensures id in G.LiveAt(meta, m)
    {
      var store := stores[m];
      var k :| k in store && References(decode, store, k, id);
      assert References(decode, store, k, id);
      assert k in stores[m] && decode(store[k].data).Some?;
      assert IsMetadata(k, store[k]) && (m, k) in Pairs(stores) && (m, k).1 == k;
      assert (m, k) in meta && meta[(m, k)].live && id in meta[(m, k)].chunks;
    }
    forall id | id in G.LiveAt(meta, m)
      ensures id in LiveIn(decode, stores[m])
    {
      var mk :| mk in meta && mk.0 == m && meta[mk].live && id in meta[mk].chunks;
      assert References(decode, stores[m], mk.1, id);
    }
  }

  function Marks(g: nat, members: seq<Node>): seq<G.Step> {
    if members == [] then [] else Marks(g, members[..|members| - 1]) + [G.Mark(g, members[|members| - 1])]
  }

  /** The chunks a node still has. */
  ghost function Left(files: Files, n: Node): set<ChunkId> {
    set f | f in files && f.0 == n :: f.1
  }

  /** One sweep per node, each leaving what `after` still has. */
  ghost function Sweeps(g: nat, members: seq<Node>, after: Files): seq<G.Step> {
    if members == [] then []
    else
      Sweeps(g, members[..|members| - 1], after)
      + [G.Sweep(g, members[|members| - 1], Left(after, members[|members| - 1]))]
  }

  function MarkedBy(c: G.Collection, live: set<ChunkId>, members: set<Node>): G.Collection {
    c.(live := c.live + live, marked := c.marked + members)
  }

  lemma MarkOne(cfg: G.Config, s: G.State, g: nat, m: Node, decode: Decoder, stores: map<Node, Store>)
    requires G.Enabled(cfg, s, G.Mark(g, m)) && s.meta == MetaOf(decode, stores) && m in stores
    ensures var t := G.Do(cfg, s, G.Mark(g, m));
            && t.files == s.files && t.meta == s.meta && g in t.collections
            && t.collections[g] == MarkedBy(s.collections[g], LiveIn(decode, stores[m]), {m})
  {
    MarkMeans(decode, stores, m);
    hide MetaOf, LiveIn, G.LiveAt;
  }

  lemma MarkedTwice(decode: Decoder, stores: map<Node, Store>, members: seq<Node>, c: G.Collection)
    requires members != [] && members[|members| - 1] in stores
    ensures var n := |members| - 1;
            MarkedBy(MarkedBy(c, LiveAcross(decode, stores, members[..n]), Elements(members[..n])),
                     LiveIn(decode, stores[members[n]]), {members[n]})
            == MarkedBy(c, LiveAcross(decode, stores, members), Elements(members))
  {
    var n := |members| - 1;
    AcrossOneMore(decode, stores, members, n);
    assert members[..n + 1] == members;
    assert Elements(members) == Elements(members[..n]) + {members[n]};
    hide LiveAcross, Elements, LiveIn;
  }

  lemma MarkedByNone(decode: Decoder, stores: map<Node, Store>, c: G.Collection)
    ensures MarkedBy(c, LiveAcross(decode, stores, []), Elements([])) == c
  {
    assert LiveAcross(decode, stores, []) == {} && Elements<Node>([]) == {};
    assert c.live + {} == c.live && c.marked + {} == c.marked;
  }

  ghost predicate CanMarkAll(cfg: G.Config, s: G.State, g: nat, members: seq<Node>, decode: Decoder,
                             stores: map<Node, Store>) {
    && g in s.collections && s.meta == MetaOf(decode, stores)
    && forall i :: 0 <= i < |members| ==> members[i] in cfg.members && members[i] in stores
  }

  lemma {:induction false} MarksCollect(cfg: G.Config, before: seq<G.Step>, g: nat, members: seq<Node>, decode: Decoder,
                                        stores: map<Node, Store>)
    requires CanMarkAll(cfg, G.Run(cfg, before), g, members, decode, stores)
    ensures var s, t := G.Run(cfg, before), G.Run(cfg, before + Marks(g, members));
            && t.files == s.files && t.meta == s.meta && g in s.collections && g in t.collections
            && t.collections[g] == MarkedBy(s.collections[g], LiveAcross(decode, stores, members), Elements(members))
  {
    hide MetaOf, G.Do, G.Run, LiveAcross, Elements, LiveIn;
    var s := G.Run(cfg, before);
    if members == [] {
      assert before + Marks(g, members) == before;
      MarkedByNone(decode, stores, s.collections[g]);
    } else {
      var n := |members| - 1;
      var m := members[n];
      MarksCollect(cfg, before, g, members[..n], decode, stores);
      var sofar := before + Marks(g, members[..n]);
      assert before + Marks(g, members) == sofar + [G.Mark(g, m)];
      G.RunMore(cfg, sofar, G.Mark(g, m));
      MarkOne(cfg, G.Run(cfg, sofar), g, m, decode, stores);
      hide MarkedBy;
      MarkedTwice(decode, stores, members, s.collections[g]);
    }
  }

  /** The files left once these nodes have lost what `after` does not have. */
  ghost function SweptDownTo(files: Files, members: seq<Node>, after: Files): Files {
    map f | f in files && !(f.0 in members && f !in after) :: files[f]
  }

  lemma SweepStep(cfg: G.Config, s: G.State, g: nat, files: Files, members: seq<Node>, nodes: set<Node>, after: Files)
    requires members != [] && G.Enabled(cfg, s, G.Sweep(g, members[|members| - 1], Left(after, members[|members| - 1])))
    requires s.files == SweptDownTo(files, members[..|members| - 1], after)
    requires OnlyOrphansGone(files, after, nodes, s.collections[g].live, s.collections[g].cutoff)
    ensures var t := G.Do(cfg, s, G.Sweep(g, members[|members| - 1], Left(after, members[|members| - 1])));
            t.collections == s.collections && t.meta == s.meta && t.files == SweptDownTo(files, members, after)
  {
    hide ValidId;
    var m := members[|members| - 1];
    assert members == members[..|members| - 1] + [m];
    forall id ensures id in Left(after, m) <==> (m, id) in after {
      if (m, id) in after {
        assert (m, id).0 == m && (m, id).1 == id;
      }
    }
    var t := G.Do(cfg, s, G.Sweep(g, m, Left(after, m)));
    assert t.files == SweptDownTo(files, members, after);
  }

  lemma {:induction false} SweepsDelete(cfg: G.Config, before: seq<G.Step>, g: nat, members: seq<Node>,
                                        nodes: set<Node>, after: Files)
    requires var s := G.Run(cfg, before);
             && g in s.collections && cfg.members <= s.collections[g].marked
             && OnlyOrphansGone(s.files, after, nodes, s.collections[g].live, s.collections[g].cutoff)
    ensures var s, t := G.Run(cfg, before), G.Run(cfg, before + Sweeps(g, members, after));
            t.collections == s.collections && t.meta == s.meta && t.files == SweptDownTo(s.files, members, after)
  {
    hide OnlyOrphansGone, Left, G.Do;
    var s := G.Run(cfg, before);
    if members == [] {
      assert before + Sweeps(g, members, after) == before;
    } else {
      hide SweptDownTo, G.Run;
      var n := |members| - 1;
      var step := G.Sweep(g, members[n], Left(after, members[n]));
      SweepsDelete(cfg, before, g, members[..n], nodes, after);
      assert before + Sweeps(g, members, after) == before + Sweeps(g, members[..n], after) + [step];
      G.RunMore(cfg, before + Sweeps(g, members[..n], after), step);
      SweepStep(cfg, G.Run(cfg, before + Sweeps(g, members[..n], after)), g, s.files, members, nodes, after);
    }
  }

  ghost predicate CanCollect(cfg: G.Config, s: G.State, g: nat, gracePeriod: int, members: seq<Node>, decode: Decoder,
                             stores: map<Node, Store>) {
    && g !in s.collections && gracePeriod >= cfg.grace && s.meta == MetaOf(decode, stores)
    && Elements(members) == cfg.members && forall m :: m in members ==> m in stores
  }

  /** After its marks a collection has exactly the chunks that some member's live metadata references. */
  lemma CollectionMarked(cfg: G.Config, before: seq<G.Step>, g: nat, gracePeriod: int, members: seq<Node>,
                         decode: Decoder, stores: map<Node, Store>)
    requires CanCollect(cfg, G.Run(cfg, before), g, gracePeriod, members, decode, stores)
    ensures var s := G.Run(cfg, before);
            var t := G.Run(cfg, before + [G.BeginCollection(g, gracePeriod)] + Marks(g, members));
            && t.files == s.files && g in t.collections && cfg.members <= t.collections[g].marked
            && t.collections[g].live == LiveAcross(decode, stores, members)
            && t.collections[g].cutoff == s.now - gracePeriod
  {
    var begin := G.BeginCollection(g, gracePeriod);
    G.RunMore(cfg, before, begin);
    forall i | 0 <= i < |members|
      ensures members[i] in cfg.members && members[i] in stores
    {
      assert members[i] in Elements(members);
    }
    hide MetaOf, LiveAcross, G.Run, Elements, Marks;
    MarksCollect(cfg, before + [begin], g, members, decode, stores);
    assert {} + LiveAcross(decode, stores, members) == LiveAcross(decode, stores, members);
  }

  /**
   Whatever an uninterrupted `RunGC` does, up to where it stops, is what some begin, mark and sweep steps do, so
   it deletes nothing that the step system protects.
   */
  lemma CollectionIsRun(cfg: G.Config, before: seq<G.Step>, g: nat, gracePeriod: int, members: seq<Node>,
                        swept: seq<Node>, decode: Decoder, stores: map<Node, Store>, after: Files)
    requires CanCollect(cfg, G.Run(cfg, before), g, gracePeriod, members, decode, stores)
    requires OnlyOrphansGone(G.Run(cfg, before).files, after, Elements(swept), LiveAcross(decode, stores, members),
                             G.Run(cfg, before).now - gracePeriod)
    ensures G.Run(cfg, before + [G.BeginCollection(g, gracePeriod)] + Marks(g, members)
            + Sweeps(g, swept, after)).files == after
  {
    hide *;
    CollectionMarked(cfg, before, g, gracePeriod, members, decode, stores);
    var marked := before + [G.BeginCollection(g, gracePeriod)] + Marks(g, members);
    SweepsDelete(cfg, marked, g, swept, Elements(swept), after);
    NothingElseGone(G.Run(cfg, before).files, after, swept, LiveAcross(decode, stores, members),
                    G.Run(cfg, before).now - gracePeriod);
  }

  lemma NothingElseGone(files: Files, after: Files, swept: seq<Node>, live: set<ChunkId>, cutoff: int)
    requires OnlyOrphansGone(files, after, Elements(swept), live, cutoff)
    ensures SweptDownTo(files, swept, after) == after
  {
    hide Orphan;
  }
}
