/**
 Objects as lists of content-addressed chunks (internal/object/store.go, internal/node/chunk.go,
 internal/chunk/store.go, internal/chunk/chunker.go).

 The content hash is an arbitrary function; that it separates the chunks in question is a hypothesis
 of the round trip. So is the hash of object names in metadata keys. The metadata codec is taken to decode
 what it encoded, and the metadata register to return what was stored.
 */
module Objects {
  import opened Versions
  import opened Requests
  import opened Sequences

  type Bytes = seq<Byte>
  type Node = string
  type ChunkId = string

  datatype ChunkInfo = ChunkInfo(id: ChunkId, size: nat)

  datatype Metadata = Metadata(name: string, size: nat, chunkSize: int, chunks: seq<ChunkInfo>)

  type Files = map<(Node, ChunkId), Bytes>

  /** How metadata becomes the bytes of a value, and how an object's name becomes its key. */
  datatype MetadataFormat = MetadataFormat(
    encode: Metadata -> Bytes, decode: Bytes -> Option<Metadata>, digest: string -> string)

  ghost predicate Faithful(f: MetadataFormat) {
    forall m :: f.decode(f.encode(m)) == Some(m)
  }

  /** `metadataKey`. */
  function MetadataKey(f: MetadataFormat, name: string): string {
    "object:meta:" + f.digest(name)
  }

  /** What the metadata register answers for a name: nothing, bytes that do not decode, or metadata. */
  function MetadataAt(f: MetadataFormat, metadata: map<string, Value>, name: string): (found: Option<Option<Metadata>>)
  {
    var key := MetadataKey(f, name);
    if key !in metadata || metadata[key].deleted then None else Some(f.decode(metadata[key].data))
  }

  // ------------------------------------------------------------------ chunking

  /** The stream cut into pieces of `size` bytes, the last one shorter. */
  function Split(data: Bytes, size: nat): seq<Bytes>
    requires size > 0
  {
    if |data| == 0 then []
    else if |data| <= size then [data]
    else [data[..size]] + Split(data[size..], size)
  }

  function Join(chunks: seq<Bytes>): Bytes {
    if chunks == [] then [] else Join(chunks[..|chunks| - 1]) + chunks[|chunks| - 1]
  }

  lemma {:induction false} JoinCons(c: Bytes, chunks: seq<Bytes>)
    ensures Join([c] + chunks) == c + Join(chunks)
  {
    if chunks == [] {
      assert [c] + chunks == [c] && [c][..0] == [];
      assert Join([c]) == c;
    } else {
      var n := |chunks| - 1;
      JoinCons(c, chunks[..n]);
      JoinLast([c] + chunks);
      JoinLast(chunks);
      assert ([c] + chunks)[..|chunks|] == [c] + chunks[..n];
      hide Join;
      assert c + Join(chunks[..n]) + chunks[n] == c + (Join(chunks[..n]) + chunks[n]);
    }
  }

  lemma JoinOne(c: Bytes)
    ensures Join([c]) == c
  {
    assert [c][..0] == [];
  }

  lemma JoinNone()
    ensures Join([]) == []
  {
  }

  lemma JoinLast(chunks: seq<Bytes>)
    requires chunks != []
    ensures Join(chunks) == Join(chunks[..|chunks| - 1]) + chunks[|chunks| - 1]
  {
  }

  /** Chunking loses and reorders nothing, and no chunk is empty or oversized. */
  lemma {:induction false} SplitJoin(data: Bytes, size: nat)
    requires size > 0
    ensures Join(Split(data, size)) == data
    ensures forall c :: c in Split(data, size) ==> 0 < |c| <= size
    decreases |data|
  {
    hide Join;
    if |data| > size {
      SplitJoin(data[size..], size);
      JoinCons(data[..size], Split(data[size..], size));
    } else if |data| > 0 {
      JoinOne(data);
    } else {
      JoinNone();
    }
  }

  /** `n` is a whole number of chunks of `size` bytes. */
  predicate WholeChunks(n: nat, size: nat)
    requires size > 0
  {
    n == 0 || (n >= size && WholeChunks(n - size, size))
  }

  /** Splitting behind a whole number of full chunks. */
  lemma {:induction false} SplitAppend(a: Bytes, b: Bytes, size: nat)
    requires size > 0 && WholeChunks(|a|, size)
    ensures Split(a + b, size) == Split(a, size) + Split(b, size)
    decreases |a|
  {
    if a == [] {
      assert a + b == b;
    } else {
      SplitAppend(a[size..], b, size);
      if |a| == size {
        assert a[size..] == [] && a[..size] == a;
        if b == [] {
          assert a + b == a;
        }
      }
      assert (a + b)[..size] == a[..size] && (a + b)[size..] == a[size..] + b;
    }
  }

  function Infos(id: Bytes -> ChunkId, chunks: seq<Bytes>): (r: seq<ChunkInfo>)
    ensures |r| == |chunks|
  {
    if chunks == [] then []
    else Infos(id, chunks[..|chunks| - 1]) + [ChunkInfo(id(chunks[|chunks| - 1]), |chunks[|chunks| - 1]|)]
  }

  lemma {:induction false} InfosAt(id: Bytes -> ChunkId, chunks: seq<Bytes>, i: nat)
    requires i < |chunks|
    ensures Infos(id, chunks)[i] == ChunkInfo(id(chunks[i]), |chunks[i]|)
  {
    if i < |chunks| - 1 {
      InfosAt(id, chunks[..|chunks| - 1], i);
    }
  }

  lemma InfosSnoc(id: Bytes -> ChunkId, chunks: seq<Bytes>, c: Bytes)
    ensures Infos(id, chunks + [c]) == Infos(id, chunks) + [ChunkInfo(id(c), |c|)]
  {
    assert (chunks + [c])[..|chunks|] == chunks;
  }

  function TotalSize(chunks: seq<ChunkInfo>): nat {
    if chunks == [] then 0 else TotalSize(chunks[..|chunks| - 1]) + chunks[|chunks| - 1].size
  }

  lemma {:induction false} TotalIsLength(id: Bytes -> ChunkId, chunks: seq<Bytes>)
    ensures TotalSize(Infos(id, chunks)) == |Join(chunks)|
  {
    if chunks != [] {
      TotalIsLength(id, chunks[..|chunks| - 1]);
    }
  }

  // ------------------------------------------------------------------ reading a stream

  datatype ReadError = NoError | Eof | UnexpectedEof | Failure

  /** A byte stream that ends, or breaks after its last byte. */
  class Reader {
    const data: Bytes
    const broken: bool
    var pos: nat

    ghost predicate Valid()
      reads this
    {
      pos <= |data|
    }

    constructor (data: Bytes, broken: bool)
      ensures Valid() && pos == 0 && this.data == data && this.broken == broken
    {
      this.data, this.broken, pos := data, broken, 0;
    }

    /** `io.ReadFull`. */
    method ReadFull(buf: array<Byte>) returns (n: nat, err: ReadError)
      requires Valid()
      modifies this`pos, buf
      ensures Valid() && n <= buf.Length && pos == old(pos) + n
      ensures buf[..n] == data[old(pos)..pos]
      ensures n == buf.Length || pos == |data|
      ensures err == if n == buf.Length then NoError else if broken then Failure else if n == 0 then Eof
              else UnexpectedEof
    {
      n := if |data| - pos < buf.Length then |data| - pos else buf.Length;
      var i := 0;
      while i < n
        invariant 0 <= i <= n && pos == old(pos)
        invariant forall j :: 0 <= j < i ==> buf[j] == data[pos + j]
      {
        buf[i] := data[pos + i];
        i := i + 1;
      }
      pos := pos + n;
      err := if n == buf.Length then NoError else if broken then Failure else if n == 0 then Eof else UnexpectedEof;
    }
  }

  // ------------------------------------------------------------------ chunk copies

  /** `Store.Put` on one node: a valid copy is kept, anything else is replaced. */
  function PutCopy(id: Bytes -> ChunkId, files: Files, n: Node, data: Bytes): Files {
    if (n, id(data)) in files && id(files[(n, id(data))]) == id(data) then files else files[(n, id(data)) := data]
  }

  predicate ValidCopy(id: Bytes -> ChunkId, files: Files, n: Node, c: ChunkId) {
    (n, c) in files && id(files[(n, c)]) == c
  }

  /** Acknowledged copies of each chunk: a write quorum of valid copies on owners. */
  ghost predicate Stored(id: Bytes -> ChunkId, owners: ChunkId -> seq<Node>, writeQuorum: nat, files: Files,
                         chunks: seq<ChunkInfo>, acked: seq<set<Node>>)
  {
    && |acked| == |chunks|
    && forall i :: 0 <= i < |chunks| ==>
         && |acked[i]| >= writeQuorum
         && acked[i] <= Elements(owners(chunks[i].id))
         && forall r :: r in acked[i] ==> ValidCopy(id, files, r, chunks[i].id)
  }

  /** What one read request meets: the files at that moment, and whether the node answers. */
  datatype Moment = Moment(files: Files, up: bool)

  /** The moments of the requests for one chunk, one per node; nodes come, go and change between them. */
  type View = Node -> Moment

  /** The node answers with a copy that matches the identifier. */
  predicate Replies(id: Bytes -> ChunkId, view: View, r: Node, c: ChunkId) {
    view(r).up && ValidCopy(id, view(r).files, r, c)
  }

  /** What reading a chunk yields: the copy of the first owner that answers with a matching one. */
  function Fetch(id: Bytes -> ChunkId, owners: seq<Node>, view: View, c: ChunkId): Option<Bytes> {
    if owners == [] then None
    else if Replies(id, view, owners[0], c) then Some(view(owners[0]).files[(owners[0], c)])
    else Fetch(id, owners[1..], view, c)
  }

  lemma {:induction false} FetchFindsValid(id: Bytes -> ChunkId, owners: seq<Node>, view: View, c: ChunkId)
    ensures var d := Fetch(id, owners, view, c);
            && (d.Some? ==> id(d.value) == c && exists r :: (r, c) in view(r).files && view(r).files[(r, c)] == d.value)
            && (d.Some? <==> exists r :: r in owners && Replies(id, view, r, c))
    decreases |owners|
  {
    if owners != [] {
      if !Replies(id, view, owners[0], c) {
        FetchFindsValid(id, owners[1..], view, c);
        if r :| r in owners && Replies(id, view, r, c) {
          assert r in owners[1..];
        }
        if r :| r in owners[1..] && Replies(id, view, r, c) {
          assert r in owners;
        }
      } else {
        assert owners[0] in owners && (owners[0], c) in view(owners[0]).files;
      }
    }
  }

  /** Only the copies of `c` change, and a copy that was valid stays. */
  ghost predicate KeepsValid(id: Bytes -> ChunkId, was: Files, files: Files) {
    forall n, c :: ValidCopy(id, was, n, c) ==> ValidCopy(id, files, n, c) && files[(n, c)] == was[(n, c)]
  }

  lemma PutCopyKeeps(id: Bytes -> ChunkId, files: Files, n: Node, data: Bytes)
    ensures KeepsValid(id, files, PutCopy(id, files, n, data))
    ensures ValidCopy(id, PutCopy(id, files, n, data), n, id(data))
  {
  }

  class Cluster {
    const id: Bytes -> ChunkId
    const owners: ChunkId -> seq<Node>
    const writeQuorum: nat
    var files: Files
    const format: MetadataFormat
    /** What the metadata register holds under each key. */
    var metadata: map<string, Value>

    constructor (id: Bytes -> ChunkId, owners: ChunkId -> seq<Node>, writeQuorum: nat, files: Files,
                 format: MetadataFormat)
      ensures this.id == id && this.owners == owners && this.writeQuorum == writeQuorum && this.files == files &&
              this.format == format && metadata == map[]
    {
      this.id, this.owners, this.writeQuorum, this.files := id, owners, writeQuorum, files;
      this.format := format;
      metadata := map[];
    }

    /** `putChunkReplica`. */
    method PutChunkReplica(r: Node, data: Bytes, outcome: Outcome) returns (ok: bool)
      modifies this`files
      ensures ok == (outcome == Applied)
      ensures files == if outcome == NotApplied then old(files) else PutCopy(id, old(files), r, data)
    {
      if outcome != NotApplied {
        files := PutCopy(id, files, r, data);
      }
      return outcome == Applied;
    }

    /** A write quorum of the chunk's owners acknowledges it. */
    ghost predicate Accepted(data: Bytes, outcome: Node -> Outcome) {
      && owners(id(data)) != []
      && |Ackers(owners(id(data)), outcome)| >= writeQuorum
    }

    /** `PutChunk`: the chunk is stored once a write quorum of its owners acknowledged it. */
    method PutChunk(data: Bytes, outcome: Node -> Outcome) returns (c: Option<ChunkId>, ghost acked: set<Node>)
      requires Distinct(owners(id(data)))
      modifies this`files
      ensures KeepsValid(id, old(files), files)
      ensures acked == Ackers(owners(id(data)), outcome)
      ensures forall r :: r in acked ==> ValidCopy(id, files, r, id(data))
      ensures c == if Accepted(data, outcome) then Some(id(data)) else None
      ensures acked == set r | r in owners(id(data)) && outcome(r) == Applied
      ensures c.Some? <==> owners(id(data)) != [] && |acked| >= writeQuorum
    {
      hide PutCopy, ValidCopy, KeepsValid, Distinct, Ackers;
      KeepsValidReflexive(id, files);
      var replicas := owners(id(data));
      acked := {};
      NoAckers(outcome);
      if |replicas| == 0 {
        AckersAre(replicas, outcome);
        return None, acked;
      }
      var success := 0;
      var j := 0;
      while j < |replicas|
        invariant 0 <= j <= |replicas| && success == |acked|
        invariant KeepsValid(id, old(files), files)
        invariant acked == Ackers(replicas[..j], outcome)
        invariant forall r :: r in acked ==> ValidCopy(id, files, r, id(data))
      {
        var r := replicas[j];
        PutCopyKeeps(id, files, r, data);
        KeepsValidTransitive(id, old(files), files, PutCopy(id, files, r, data));
        AckersMore(replicas, j, outcome);
        var ok := PutChunkReplica(r, data, outcome(r));
        if ok {
          success := success + 1;
          acked := acked + {r};
        }
        j := j + 1;
      }
      assert replicas[..j] == replicas;
      c := if success < writeQuorum then None else Some(id(data));
      AckersAre(replicas, outcome);
    }

    /** `GetChunk`: owners in order, skipping the unreachable, missing and corrupt ones. */
    method GetChunk(c: ChunkId, view: View) returns (data: Option<Bytes>)
      ensures data == Fetch(id, owners(c), view, c)
    {
      var replicas := owners(c);
      var i := 0;
      while i < |replicas|
        invariant 0 <= i <= |replicas|
        invariant Fetch(id, replicas, view, c) == Fetch(id, replicas[i..], view, c)
      {
        var answer := GetChunkReplica(replicas[i], c, view(replicas[i]));
        if answer.Some? && id(answer.value) == c {
          return answer;
        }
        assert replicas[i..][1..] == replicas[i + 1..];
        i := i + 1;
      }
      return None;
    }

    /** `getChunkReplica`: one read request; a corrupt copy is an error on either side. */
    method GetChunkReplica(r: Node, c: ChunkId, moment: Moment) returns (data: Option<Bytes>)
      ensures data.Some? <==> moment.up && ValidCopy(id, moment.files, r, c)
      ensures data.Some? ==> id(data.value) == c && data.value == moment.files[(r, c)]
    {
      if !moment.up || (r, c) !in moment.files {
        return None;
      }
      var found := moment.files[(r, c)];
      if id(found) != c {
        return None;
      }
      return Some(found);
    }

    /** `repairChunk`: every other owner without a valid copy is sent the verified data. */
    method RepairChunk(c: ChunkId, data: Bytes, source: Node, reachable: Node -> bool, outcome: Node -> Outcome)
      requires id(data) == c
      modifies this`files
      ensures KeepsValid(id, old(files), files)
      ensures forall r :: r in owners(c) && r != source && outcome(r) == Applied ==>
                ValidCopy(id, files, r, c) || (reachable(r) && ValidCopy(id, old(files), r, c))
    {
      hide PutCopy, ValidCopy, KeepsValid;
      KeepsValidReflexive(id, files);
      var replicas := owners(c);
      var j := 0;
      while j < |replicas|
        invariant 0 <= j <= |replicas|
        invariant KeepsValid(id, old(files), files)
        invariant forall i :: 0 <= i < j && replicas[i] != source && outcome(replicas[i]) == Applied ==>
                    ValidCopy(id, files, replicas[i], c)
      {
        var r := replicas[j];
        PutCopyKeeps(id, files, r, data);
        KeepsValidTransitive(id, old(files), files, PutCopy(id, files, r, data));
        if r != source && !(reachable(r) && ValidCopy(id, files, r, c)) {
          var _ := PutChunkReplica(r, data, outcome(r));
        }
        j := j + 1;
      }
    }

    /** Every chunk of the stream is accepted; `outcome` says what becomes of the requests for chunk `i`. */
    function ForChunk(outcome: (nat, Node) -> Outcome, i: nat): Node -> Outcome {
      n => outcome(i, n)
    }

    lemma NoneRefused(data: Bytes, chunkSize: nat, outcome: (nat, Node) -> Outcome)
      requires chunkSize > 0
      requires var chunks := Split(data, chunkSize); forall i :: 0 <= i < |chunks| ==>
                 Accepted(chunks[i], ForChunk(outcome, i))
      ensures AllAccepted(data, chunkSize, outcome)
    {
    }

    lemma OneRefused(data: Bytes, chunkSize: nat, outcome: (nat, Node) -> Outcome, i: nat)
      requires chunkSize > 0 && i < |Split(data, chunkSize)| &&
               !Accepted(Split(data, chunkSize)[i], ForChunk(outcome, i))
      ensures !AllAccepted(data, chunkSize, outcome)
    {
    }

    ghost predicate AllAccepted(data: Bytes, chunkSize: nat, outcome: (nat, Node) -> Outcome)
      requires chunkSize > 0
    {
      var chunks := Split(data, chunkSize);
      forall i :: 0 <= i < |chunks| ==> Accepted(chunks[i], ForChunk(outcome, i))
    }

    /** `writeChunks`: one reused buffer, one chunk per full or final short read. */
    method WriteChunks(r: Reader, chunkSize: int, outcome: (nat, Node) -> Outcome)
      returns (chunks: seq<ChunkInfo>, ok: bool, ghost acked: seq<set<Node>>)
      requires r.Valid() && r.pos == 0 && forall c :: Distinct(owners(c))
      modifies r`pos, this`files
      ensures KeepsValid(id, old(files), files)
      ensures chunkSize <= 0 ==> !ok
      ensures ok <==> chunkSize > 0 && !r.broken && AllAccepted(r.data, chunkSize, outcome)
      ensures ok ==> chunks == Infos(id, Split(r.data, chunkSize))
      ensures ok ==> Stored(id, owners, writeQuorum, files, chunks, acked)
    {
      hide *;
      KeepsValidReflexive(id, files);
      chunks, acked := [], [];
      if chunkSize <= 0 {
        return chunks, false, acked;
      }
      var buf := new Byte[chunkSize];
      ghost var good := (i: nat, c: Bytes) => Accepted(c, ForChunk(outcome, i));
      NothingStored(id, owners, writeQuorum, files);
      CutBegins(id, r.data, chunkSize);
      GoodBegins(good, r.data, chunkSize);
      while true
        invariant r.Valid() && fresh(buf) && buf.Length == chunkSize
        invariant CutSoFar(id, r.data, chunkSize, r.pos, chunks) && WholeChunks(r.pos, chunkSize)
        invariant AllGood(good, r.data, chunkSize, r.pos)
        invariant KeepsValid(id, old(files), files)
        invariant Stored(id, owners, writeQuorum, files, chunks, acked)
        decreases |r.data| - r.pos
      {
        ghost var was := r.pos;
        var n, err := r.ReadFull(buf);
        if err == Eof {
          CutDone(id, r.data, chunkSize, chunks);
          GoodDone(good, r.data, chunkSize);
          NoneRefused(r.data, chunkSize, outcome);
          return chunks, true, acked;
        }
        if err == Failure {
          return chunks, false, acked;
        }
        var data := buf[..n];
        CutNext(id, r.data, chunkSize, was, n, chunks);
        GoodNext(good, r.data, chunkSize, was, n);
        CutSize(id, r.data, chunkSize, was, chunks);
        ghost var k := |chunks|;
        var stored;
        chunks, acked, stored := StoreChunk(data, ForChunk(outcome, |chunks|), chunks, acked);
        if !stored {
          OneRefused(r.data, chunkSize, outcome, k);
          return chunks, false, acked;
        }
        if err == UnexpectedEof {
          CutDone(id, r.data, chunkSize, chunks);
          GoodDone(good, r.data, chunkSize);
          NoneRefused(r.data, chunkSize, outcome);
          return chunks, true, acked;
        }
      }
    }

    /** Store one chunk and append its description. */
    method StoreChunk(data: Bytes, outcome: Node -> Outcome, chunks: seq<ChunkInfo>, ghost acked: seq<set<Node>>)
      returns (after: seq<ChunkInfo>, ghost afterAcked: seq<set<Node>>, ok: bool)
      requires forall c :: Distinct(owners(c))
      requires Stored(id, owners, writeQuorum, files, chunks, acked)
      modifies this`files
      ensures KeepsValid(id, old(files), files)
      ensures forall was :: KeepsValid(id, was, old(files)) ==> KeepsValid(id, was, files)
      ensures ok <==> Accepted(data, outcome)
      ensures ok ==> after == chunks + [ChunkInfo(id(data), |data|)]
      ensures ok ==> Stored(id, owners, writeQuorum, files, after, afterAcked)
    {
      hide KeepsValid, Stored;
      ghost var a;
      var c;
      c, a := PutChunk(data, outcome);
      forall was | KeepsValid(id, was, old(files)) ensures KeepsValid(id, was, files) {
        KeepsValidTransitive(id, was, old(files), files);
      }
      if c.None? {
        return chunks, acked, false;
      }
      StoredGrows(id, owners, writeQuorum, old(files), files, chunks, acked, ChunkInfo(c.value, |data|), a);
      return chunks + [ChunkInfo(c.value, |data|)], acked + [a], true;
    }

    /**
     `Put`: chunks first, then the metadata that names them. `stored` is the version under which the register
     accepted the metadata, none if it did not.
     */
    method Put(name: string, r: Reader, chunkSize: int, outcome: (nat, Node) -> Outcome, stored: Option<Version>)
      returns (m: Option<Metadata>, ghost acked: seq<set<Node>>)
      requires r.Valid() && r.pos == 0 && forall c :: Distinct(owners(c))
      modifies r`pos, this
      ensures KeepsValid(id, old(files), files)
      ensures m.Some? <==> && chunkSize > 0 && stored.Some? && name != "" && !r.broken
                           && AllAccepted(r.data, chunkSize, outcome)
      ensures m.Some? ==>
                metadata == old(metadata)["object:meta:" + format.digest(name) :=
                                            Value(format.encode(m.value), stored.value, false)]
      ensures m.None? ==> metadata == old(metadata)
      ensures m.Some? ==>
                && m.value == Metadata(name, |r.data|, chunkSize, Infos(id, Split(r.data, chunkSize)))
                && Stored(id, owners, writeQuorum, files, m.value.chunks, acked)
    {
      acked := [];
      if name == "" {
        return None, acked;
      }
      var chunks, ok;
      chunks, ok, acked := WriteChunks(r, chunkSize, outcome);
      if !ok {
        return None, acked;
      }
      var size := 0;
      var i := 0;
      while i < |chunks|
        invariant 0 <= i <= |chunks| && size == TotalSize(chunks[..i])
      {
        assert chunks[..i + 1][..i] == chunks[..i];
        size := size + chunks[i].size;
        i := i + 1;
      }
      assert chunks[..i] == chunks;
      TotalIsLength(id, Split(r.data, chunkSize));
      SplitJoin(r.data, chunkSize);
      if stored.None? {
        return None, acked;
      }
      var value := Metadata(name, size, chunkSize, chunks);
      metadata := metadata[MetadataKey(format, name) := Value(format.encode(value), stored.value, false)];
      return Some(value), acked;
    }

    /**
     `WriteTo`: chunks in metadata order, each length checked, then the
     total. `views(i)` is what reading chunk `i` meets.
     */
    method WriteTo(m: Metadata, views: nat -> View) returns (written: Bytes, ok: bool)
      ensures ok ==> |written| == m.size
      ensures (written, ok) == ReadObject(id, owners, views, m)
    {
      written := [];
      var i := 0;
      while i < |m.chunks|
        invariant 0 <= i <= |m.chunks|
        invariant ReadAll(id, owners, views, m.chunks[..i]) == (written, true)
      {
        assert m.chunks[..i + 1][..i] == m.chunks[..i];
        var data := GetChunk(m.chunks[i].id, views(i));
        if data.None? || |data.value| != m.chunks[i].size {
          StopsAt(id, owners, views, m.chunks, i, written);
          return written, false;
        }
        written := written + data.value;
        i := i + 1;
      }
      assert m.chunks[..i] == m.chunks;
      ok := |written| == m.size;
    }

    /** `Metadata`: fails if the register cannot be read or holds bytes that do not decode. */
    method Lookup(name: string, readable: bool) returns (m: Option<Metadata>, ok: bool)
      ensures var key := "object:meta:" + format.digest(name);
              var present := readable && key in metadata && !metadata[key].deleted;
              && m == (if present then format.decode(metadata[key].data) else None)
              && (ok <==> readable && (present ==> m.Some?))
      ensures readable ==> m == match MetadataAt(format, metadata, name) case None => None case Some(d) => d
    {
      if !readable {
        return None, false;
      }
      var key := MetadataKey(format, name);
      if key !in metadata || metadata[key].deleted {
        return None, true;
      }
      m := format.decode(metadata[key].data);
      return m, m.Some?;
    }

    /** `Delete`: a tombstone for the metadata; the chunks are left to the collector. */
    method Delete(name: string, stored: Option<Version>) returns (ok: bool)
      modifies `metadata
      ensures ok <==> name != "" && stored.Some?
      ensures metadata == if ok then old(metadata)["object:meta:" + format.digest(name) :=
                                                     Value([], stored.value, true)] else old(metadata)
    {
      if name == "" || stored.None? {
        return false;
      }
      metadata := metadata[MetadataKey(format, name) := Value([], stored.value, true)];
      return true;
    }

    /** `Get`: nothing for an unknown name or unreadable metadata, otherwise the object's bytes. */
    method Get(name: string, readable: bool, views: nat -> View) returns (found: bool, written: Bytes, ok: bool)
      ensures var at := MetadataAt(format, metadata, name);
              var described := readable && at.Some? && at.value.Some?;
              && (found <==> described && ReadObject(id, owners, views, at.value.value).1)
              && (ok <==> found || (readable && at.None?))
              && written == if described then ReadObject(id, owners, views, at.value.value).0 else []
    {
      var m;
      m, ok := Lookup(name, readable);
      if m.None? {
        return false, [], ok;
      }
      written, ok := WriteTo(m.value, views);
      found := ok;
    }
  }

  /** The replicas that acknowledge. */
  ghost function Ackers(replicas: seq<Node>, outcome: Node -> Outcome): set<Node> {
    set r | r in replicas && outcome(r) == Applied
  }

  lemma AckersAre(replicas: seq<Node>, outcome: Node -> Outcome)
    ensures Ackers(replicas, outcome) == set r | r in replicas && outcome(r) == Applied
  {
  }

  lemma NoAckers(outcome: Node -> Outcome)
    ensures Ackers([], outcome) == {}
  {
  }

  lemma AckersMore(replicas: seq<Node>, j: nat, outcome: Node -> Outcome)
    requires j < |replicas| && Distinct(replicas)
    ensures replicas[j] !in Ackers(replicas[..j], outcome)
    ensures Ackers(replicas[..j + 1], outcome) ==
              if outcome(replicas[j]) == Applied then Ackers(replicas[..j], outcome) + {replicas[j]}
                else Ackers(replicas[..j], outcome)
  {
    assert replicas[..j + 1] == replicas[..j] + [replicas[j]];
  }

  lemma NothingStored(id: Bytes -> ChunkId, owners: ChunkId -> seq<Node>, writeQuorum: nat, files: Files)
    ensures Stored(id, owners, writeQuorum, files, [], [])
  {
  }

  lemma KeepsValidReflexive(id: Bytes -> ChunkId, a: Files)
    ensures KeepsValid(id, a, a)
  {
  }

  lemma KeepsValidTransitive(id: Bytes -> ChunkId, a: Files, b: Files, c: Files)
    ensures KeepsValid(id, a, b) && KeepsValid(id, b, c) ==> KeepsValid(id, a, c)
    ensures KeepsValid(id, b, c) ==> forall n, e :: ValidCopy(id, b, n, e) ==> ValidCopy(id, c, n, e)
  {
  }

  lemma StoredGrows(id: Bytes -> ChunkId, owners: ChunkId -> seq<Node>, writeQuorum: nat, before: Files, files: Files,
                    chunks: seq<ChunkInfo>, acked: seq<set<Node>>, info: ChunkInfo, a: set<Node>)
    requires Stored(id, owners, writeQuorum, before, chunks, acked) && KeepsValid(id, before, files)
    requires |a| >= writeQuorum && a <= Elements(owners(info.id)) &&
             forall r :: r in a ==> ValidCopy(id, files, r, info.id)
    ensures Stored(id, owners, writeQuorum, files, chunks + [info], acked + [a])
  {
  }

  /** `chunks` describes the first `pos` bytes of the stream. */
  ghost predicate CutSoFar(id: Bytes -> ChunkId, data: Bytes, size: nat, pos: nat, chunks: seq<ChunkInfo>)
    requires size > 0
  {
    pos <= |data| && chunks == Infos(id, Split(data[..pos], size))
  }

  lemma CutBegins(id: Bytes -> ChunkId, data: Bytes, size: nat)
    requires size > 0
    ensures CutSoFar(id, data, size, 0, []) && WholeChunks(0, size)
  {
    assert data[..0] == [];
  }

  /** One more read extends the description by one chunk. */
  lemma CutNext(id: Bytes -> ChunkId, data: Bytes, size: nat, pos: nat, n: nat, chunks: seq<ChunkInfo>)
    requires size > 0 && 0 < n <= size && pos + n <= |data|
    requires CutSoFar(id, data, size, pos, chunks) && WholeChunks(pos, size)
    ensures CutSoFar(id, data, size, pos + n, chunks + [ChunkInfo(id(data[pos..pos + n]), n)])
    ensures n == size ==> WholeChunks(pos + n, size)
  {
    var next := data[pos..pos + n];
    assert data[..pos + n] == data[..pos] + next;
    SplitAppend(data[..pos], next, size);
    assert Split(next, size) == [next];
    hide Split;
    InfosSnoc(id, Split(data[..pos], size), next);
  }

  lemma CutSize(id: Bytes -> ChunkId, data: Bytes, size: nat, pos: nat, chunks: seq<ChunkInfo>)
    requires size > 0 && CutSoFar(id, data, size, pos, chunks)
    ensures |chunks| == |Split(data[..pos], size)|
  {
    hide Split;
  }

  /** Every chunk read so far is good. */
  ghost predicate AllGood(good: (nat, Bytes) -> bool, data: Bytes, size: nat, pos: nat)
    requires size > 0
  {
    pos <= |data| &&
    var chunks := Split(data[..pos], size);
    forall i :: 0 <= i < |chunks| ==> good(i, chunks[i])
  }

  lemma GoodBegins(good: (nat, Bytes) -> bool, data: Bytes, size: nat)
    requires size > 0
    ensures AllGood(good, data, size, 0)
  {
    assert data[..0] == [];
  }

  /** The slices around one read of `n` bytes at `pos`. */
  lemma ReadSlices(data: Bytes, pos: nat, n: nat)
    requires pos + n <= |data|
    ensures data[..pos + n] == data[..pos] + data[pos..pos + n]
    ensures data == data[..pos] + data[pos..]
    ensures data[pos..][..n] == data[pos..pos + n]
    ensures n == |data| - pos ==> data[pos..] == data[pos..pos + n]
  {
  }

  /** The first chunk of what is left is the chunk just read. */
  lemma FirstChunk(rest: Bytes, size: nat, n: nat)
    requires size > 0 && 0 < n <= size && n <= |rest| && (n == size || n == |rest|)
    ensures Split(rest, size) != [] && Split(rest, size)[0] == rest[..n]
    ensures Split(rest[..n], size) == [rest[..n]]
  {
    if |rest| <= size {
      assert n == |rest| && rest[..n] == rest;
    }
  }

  /** One more read adds one chunk, which is a chunk of the whole stream if it is full or the last. */
  lemma NextChunk(data: Bytes, size: nat, pos: nat, n: nat)
    requires size > 0 && 0 < n <= size && pos + n <= |data| && WholeChunks(pos, size)
    requires n == size || pos + n == |data|
    ensures Split(data[..pos + n], size) == Split(data[..pos], size) + [data[pos..pos + n]]
    ensures var k := |Split(data[..pos], size)|; k < |Split(data, size)| && Split(data, size)[k] == data[pos..pos + n]
  {
    hide Split;
    ReadSlices(data, pos, n);
    FirstChunk(data[pos..], size, n);
    SplitAppend(data[..pos], data[pos..pos + n], size);
    SplitAppend(data[..pos], data[pos..], size);
  }

  lemma GoodNext(good: (nat, Bytes) -> bool, data: Bytes, size: nat, pos: nat, n: nat)
    requires size > 0 && 0 < n <= size && pos + n <= |data| && WholeChunks(pos, size)
    requires n == size || pos + n == |data|
    requires AllGood(good, data, size, pos)
    ensures var k, chunks := |Split(data[..pos], size)|, Split(data, size);
            && k < |chunks| && chunks[k] == data[pos..pos + n]
            && (good(k, chunks[k]) ==> AllGood(good, data, size, pos + n))
  {
    hide Split;
    NextChunk(data, size, pos, n);
  }

  lemma GoodDone(good: (nat, Bytes) -> bool, data: Bytes, size: nat)
    requires size > 0 && AllGood(good, data, size, |data|)
    ensures var chunks := Split(data, size); forall i :: 0 <= i < |chunks| ==> good(i, chunks[i])
  {
    assert data[..|data|] == data;
  }

  lemma CutDone(id: Bytes -> ChunkId, data: Bytes, size: nat, chunks: seq<ChunkInfo>)
    requires size > 0 && CutSoFar(id, data, size, |data|, chunks)
    ensures chunks == Infos(id, Split(data, size))
  {
    assert data[..|data|] == data;
  }

  // ------------------------------------------------------------------ reading back

  /** One chunk of an object, with its recorded length checked. */
  function ReadOne(id: Bytes -> ChunkId, owners: ChunkId -> seq<Node>, view: View, info: ChunkInfo): Option<Bytes> {
    var data := Fetch(id, owners(info.id), view, info.id);
    if data.Some? && |data.value| == info.size then data else None
  }

  /** The bytes written before the first unreadable chunk, and whether there was none. */
  function ReadAll(id: Bytes -> ChunkId, owners: ChunkId -> seq<Node>, views: nat -> View, chunks: seq<ChunkInfo>)
    : (Bytes, bool)
  {
    if chunks == [] then ([], true)
    else
      var n := |chunks| - 1;
      var (written, ok) := ReadAll(id, owners, views, chunks[..n]);
      var next := ReadOne(id, owners, views(n), chunks[n]);
      if ok && next.Some? then (written + next.value, true) else (written, false)
  }

  function ReadObject(id: Bytes -> ChunkId, owners: ChunkId -> seq<Node>, views: nat -> View, m: Metadata)
    : (Bytes, bool)
  {
    var (written, ok) := ReadAll(id, owners, views, m.chunks);
    (written, ok && |written| == m.size)
  }

  /** The object can be read exactly if every chunk is found with its recorded size and the sizes add up. */
  lemma ReadObjectIff(id: Bytes -> ChunkId, owners: ChunkId -> seq<Node>, views: nat -> View, m: Metadata)
    ensures ReadObject(id, owners, views, m).1 <==>
              && (forall i :: 0 <= i < |m.chunks| ==>
                    var data := Fetch(id, owners(m.chunks[i].id), views(i), m.chunks[i].id);
                    data.Some? && |data.value| == m.chunks[i].size)
              && TotalSize(m.chunks) == m.size
  {
    ReadAllIff(id, owners, views, m.chunks);
    hide ReadAll, TotalSize, Fetch;
  }

  lemma {:induction false} ReadAllIff(id: Bytes -> ChunkId, owners: ChunkId -> seq<Node>, views: nat -> View,
                                      chunks: seq<ChunkInfo>)
    ensures ReadAll(id, owners, views, chunks).1 <==>
              forall i :: 0 <= i < |chunks| ==>
                var data := Fetch(id, owners(chunks[i].id), views(i), chunks[i].id);
                data.Some? && |data.value| == chunks[i].size
    ensures ReadAll(id, owners, views, chunks).1 ==> |ReadAll(id, owners, views, chunks).0| == TotalSize(chunks)
  {
    hide Fetch;
    if chunks != [] {
      ReadAllIff(id, owners, views, chunks[..|chunks| - 1]);
    }
  }

  lemma {:induction false} StopsAt(id: Bytes -> ChunkId, owners: ChunkId -> seq<Node>, views: nat -> View,
                                   chunks: seq<ChunkInfo>, i: nat, written: Bytes)
    requires i < |chunks| && ReadAll(id, owners, views, chunks[..i]) == (written, true)
    requires ReadOne(id, owners, views(i), chunks[i]).None?
    ensures ReadAll(id, owners, views, chunks) == (written, false)
    decreases |chunks|
  {
    var n := |chunks| - 1;
    hide ReadOne;
    if i < n {
      assert chunks[..n][..i] == chunks[..i];
      StopsAt(id, owners, views, chunks[..n], i, written);
    }
  }

  /** The acknowledged owners whose copy is missing, corrupt or unreachable when asked. */
  ghost function Bad(id: Bytes -> ChunkId, view: View, c: ChunkId, acked: set<Node>): set<Node> {
    set r | r in acked && !Replies(id, view, r, c)
  }

  /** Fewer than a write quorum of the acknowledged copies of every chunk are bad when that chunk is read. */
  ghost predicate MostlyReadable(id: Bytes -> ChunkId, writeQuorum: nat, views: nat -> View, chunks: seq<ChunkInfo>,
                                 acked: seq<set<Node>>)
    requires |acked| == |chunks|
  {
    forall i :: 0 <= i < |chunks| ==> |Bad(id, views(i), chunks[i].id, acked[i])| < writeQuorum
  }

  /** No bytes that a read of chunk `i` can meet, other than the chunk itself, carry its identifier. */
  ghost predicate Separates(id: Bytes -> ChunkId, views: nat -> View, chunks: seq<Bytes>) {
    forall i :: 0 <= i < |chunks| ==> SeparatesOne(id, views(i), chunks[i])
  }

  ghost predicate SeparatesOne(id: Bytes -> ChunkId, view: View, chunk: Bytes) {
    forall r :: (r, id(chunk)) in view(r).files && id(view(r).files[(r, id(chunk))]) == id(chunk) ==>
      view(r).files[(r, id(chunk))] == chunk
  }

  lemma ReadsOneBack(id: Bytes -> ChunkId, owners: ChunkId -> seq<Node>, writeQuorum: nat, view: View, chunk: Bytes,
                     acked: set<Node>)
    requires SeparatesOne(id, view, chunk)
    requires |acked| >= writeQuorum && acked <= Elements(owners(id(chunk))) &&
             |Bad(id, view, id(chunk), acked)| < writeQuorum
    ensures ReadOne(id, owners, view, ChunkInfo(id(chunk), |chunk|)) == Some(chunk)
  {
    var c := id(chunk);
    var bad := Bad(id, view, c, acked);
    if acked <= bad {
      SubsetSize(acked, bad);
      assert false;
    }
    var r :| r in acked && r !in bad;
    assert r in owners(c);
    FetchFindsValid(id, owners(c), view, c);
  }

  lemma {:induction false} ReadsAllBack(id: Bytes -> ChunkId, owners: ChunkId -> seq<Node>, views: nat -> View,
                                        chunks: seq<Bytes>)
    requires forall i :: 0 <= i < |chunks| ==>
               ReadOne(id, owners, views(i), ChunkInfo(id(chunks[i]), |chunks[i]|)) == Some(chunks[i])
    ensures ReadAll(id, owners, views, Infos(id, chunks)) == (Join(chunks), true)
  {
    if chunks != [] {
      hide ReadOne;
      var n := |chunks| - 1;
      ReadsAllBack(id, owners, views, chunks[..n]);
      assert Infos(id, chunks)[..n] == Infos(id, chunks[..n]);
    }
  }

  /**
   Object round trip: for every byte stream and positive chunk size, once a put has succeeded, reading
   gives back exactly the stream as long as, when each chunk is read, fewer than a write quorum of its
   acknowledged owner copies are missing, corrupt or unreachable. Whatever else happens to files and nodes,
   before the read and between any two of its requests, does not matter.
   */
  lemma ObjectRoundTrip(id: Bytes -> ChunkId, owners: ChunkId -> seq<Node>, writeQuorum: nat, data: Bytes, size: nat,
                        name: string, put: Files, acked: seq<set<Node>>, views: nat -> View)
    requires size > 0
    requires Stored(id, owners, writeQuorum, put, Infos(id, Split(data, size)), acked)
    requires Separates(id, views, Split(data, size))
    requires MostlyReadable(id, writeQuorum, views, Infos(id, Split(data, size)), acked)
    ensures ReadObject(id, owners, views, Metadata(name, |data|, size, Infos(id, Split(data, size)))) == (data, true)
  {
    var chunks := Split(data, size);
    forall i | 0 <= i < |chunks|
      ensures ReadOne(id, owners, views(i), ChunkInfo(id(chunks[i]), |chunks[i]|)) == Some(chunks[i])
    {
      InfosAt(id, chunks, i);
      assert SeparatesOne(id, views(i), chunks[i]);
      ReadsOneBack(id, owners, writeQuorum, views(i), chunks[i], acked[i]);
    }
    ReadsAllBack(id, owners, views, chunks);
    SplitJoin(data, size);
  }

  /**
   An upload and a later download. When the upload succeeded and the metadata is found, the bytes written are the
   bytes uploaded, as long as fewer than a write quorum of the acknowledged copies of each chunk have become bad.
   `views` is what the download meets, whatever has happened to files and nodes since.
   */
  method PutThenGet(cluster: Cluster, name: string, r: Reader, chunkSize: int, outcome: (nat, Node) -> Outcome,
                    stored: Option<Version>, readable: bool, views: nat -> View)
    returns (m: Option<Metadata>, found: bool, written: Bytes, ok: bool, ghost acked: seq<set<Node>>)
    requires r.Valid() && r.pos == 0 && Faithful(cluster.format) && forall c :: Distinct(cluster.owners(c))
    modifies r`pos, cluster
    ensures m.Some? <==> && chunkSize > 0 && stored.Some? && name != "" && !r.broken
                         && cluster.AllAccepted(r.data, chunkSize, outcome)
    ensures m.Some? ==>
              Stored(cluster.id, cluster.owners, cluster.writeQuorum, cluster.files, m.value.chunks, acked)
    ensures m.Some? && readable && Separates(cluster.id, views, Split(r.data, chunkSize)) &&
            MostlyReadable(cluster.id, cluster.writeQuorum, views, m.value.chunks, acked) ==>
              found && ok && written == r.data
    ensures m.None? && readable && MetadataAt(cluster.format, old(cluster.metadata), name).None? ==>
              !found && ok && written == []
  {
    hide *;
    ghost var before := cluster.metadata;
    m, acked := cluster.Put(name, r, chunkSize, outcome, stored);
    ghost var put := cluster.files;
    if m.Some? {
      StoredIsFound(cluster.format, before, cluster.metadata, name, m.value, stored.value);
    }
    found, written, ok := cluster.Get(name, readable, views);
    if m.Some? && Separates(cluster.id, views, Split(r.data, chunkSize)) &&
      MostlyReadable(cluster.id, cluster.writeQuorum, views, m.value.chunks, acked) {
      ObjectRoundTrip(cluster.id, cluster.owners, cluster.writeQuorum, r.data, chunkSize, name, put, acked, views);
    }
  }

  /** A deleted object is not found, which is no error. */
  method DeleteThenGet(cluster: Cluster, name: string, stored: Option<Version>, views: nat -> View)
    returns (deleted: bool, found: bool, written: Bytes, ok: bool)
    modifies cluster`metadata
    ensures deleted <==> name != "" && stored.Some?
    ensures deleted ==> !found && ok && written == []
  {
    deleted := cluster.Delete(name, stored);
    found, written, ok := cluster.Get(name, true, views);
  }

  /** Metadata stored under its key is what a lookup of the name finds. */
  lemma StoredIsFound(f: MetadataFormat, was: map<string, Value>, metadata: map<string, Value>, name: string,
                      m: Metadata, version: Version)
    requires Faithful(f)
    requires metadata == was["object:meta:" + f.digest(name) := Value(f.encode(m), version, false)]
    ensures MetadataAt(f, metadata, name) == Some(Some(m))
  {
  }

  // ------------------------------------------------------------------ the second chunking loop

  /** One node's chunk store, as `WriteFromReader` uses it. */
  class LocalStore {
    const id: Bytes -> ChunkId
    const node: Node
    var files: Files

    constructor (id: Bytes -> ChunkId, node: Node)
      ensures this.id == id && this.node == node && files == map[]
    {
      this.id, this.node, files := id, node, map[];
    }

    method Put(data: Bytes, fails: bool) returns (c: Option<ChunkId>)
      modifies this
      ensures c == if fails then None else Some(id(data))
      ensures files == if fails then old(files) else PutCopy(id, old(files), node, data)
    {
      if fails {
        return None;
      }
      files := PutCopy(id, files, node, data);
      return Some(id(data));
    }

    /**
     `WriteFromReader`. The read error is overwritten by the store's result before the loop tests it, so a
     short read never ends the loop; the next read, which finds the end of the stream, does. The chunk list
     is nevertheless the one `WriteChunks` produces.
     */
    method WriteFromReader(r: Reader, chunkSize: int, fails: nat -> bool) returns (chunks: seq<ChunkInfo>, ok: bool)
      requires r.Valid() && r.pos == 0
      modifies r`pos, this
      ensures ok <==> chunkSize > 0 && !r.broken && forall i :: 0 <= i < |Split(r.data, chunkSize)| ==> !fails(i)
      ensures ok ==> chunks == Infos(id, Split(r.data, chunkSize))
      ensures KeepsValid(id, old(files), files)
    {
      hide *;
      KeepsValidReflexive(id, files);
      chunks := [];
      if chunkSize <= 0 {
        return chunks, false;
      }
      var buf := new Byte[chunkSize];
      ghost var short := false;
      ghost var good := (i: nat, c: Bytes) => !fails(i);
      CutBegins(id, r.data, chunkSize);
      GoodBegins(good, r.data, chunkSize);
      while true
        invariant r.Valid() && fresh(buf) && buf.Length == chunkSize
        invariant if short then r.pos == |r.data| && !r.broken else WholeChunks(r.pos, chunkSize)
        invariant CutSoFar(id, r.data, chunkSize, r.pos, chunks)
        invariant AllGood(good, r.data, chunkSize, r.pos)
        invariant KeepsValid(id, old(files), files)
        decreases |r.data| - r.pos
      {
        ghost var was := r.pos;
        var n, err := r.ReadFull(buf);
        if err == Eof {
          CutDone(id, r.data, chunkSize, chunks);
          GoodDone(good, r.data, chunkSize);
          forall i | 0 <= i < |Split(r.data, chunkSize)|
            ensures !fails(i)
          {
            assert good(i, Split(r.data, chunkSize)[i]);
          }
          return chunks, true;
        }
        if err != NoError && err != UnexpectedEof {
          return chunks, false;
        }
        var data := buf[..n];
        GoodNext(good, r.data, chunkSize, was, n);
        CutSize(id, r.data, chunkSize, was, chunks);
        ghost var before := files;
        var c := Put(data, fails(|chunks|));
        err := if c.None? then Failure else NoError;
        PutCopyKeeps(id, before, node, data);
        KeepsValidTransitive(id, old(files), before, files);
        KeepsValidReflexive(id, before);
        if err != NoError {
          return chunks, false;
        }
        CutNext(id, r.data, chunkSize, was, n, chunks);
        chunks := chunks + [ChunkInfo(c.value, n)];
        short := n < chunkSize;
        if err == UnexpectedEof {
          return chunks, true;
        }
      }
    }
  }
}
