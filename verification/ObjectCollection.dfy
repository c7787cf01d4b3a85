/**
 Uploads and garbage collection together (internal/object/store.go, internal/node/gc.go): the collector recognises
 exactly the values under which the object layer stores its metadata, so it spares the chunks of every upload whose
 metadata some marked member holds.
 */
module ObjectCollection {
  import opened Versions
  import opened Requests
  import opened Sequences
  import C = Collector
  import O = Objects

  /** The collector's view of the metadata format: the chunks an object refers to. */
  function ChunkIds(f: O.MetadataFormat): C.Decoder {
    data => match f.decode(data)
            case None => None
            case Some(m) => Some(seq(|m.chunks|, i requires 0 <= i < |m.chunks| => m.chunks[i].id))
  }

  /** This store holds the metadata as a successful upload leaves it. */
  predicate HoldsUpload(f: O.MetadataFormat, store: C.Store, name: string, m: O.Metadata, version: Version) {
    var key := "object:meta:" + f.digest(name);
    key in store && store[key] == Value(f.encode(m), version, false)
  }

  /** A live value under a metadata key refers to the chunk. */
  predicate Marks(decode: C.Decoder, key: string, value: Value, id: C.ChunkId) {
    "object:meta:" <= key && !value.deleted && decode(value.data).Some? && id in decode(value.data).value
  }

  lemma SamePrefix(key: string)
    ensures C.METADATA_KEY_PREFIX <= key <==> "object:meta:" <= key
  {
    assert C.METADATA_KEY_PREFIX == "object:meta:";
  }

  /** A chunk is marked exactly by a live value whose key begins like a metadata key. */
  lemma OnlyMetadataMarks(decode: C.Decoder, store: C.Store, id: C.ChunkId)
    ensures id in C.LiveIn(decode, store) <==> exists k :: k in store && Marks(decode, k, store[k], id)
  {
    if id in C.LiveIn(decode, store) {
      var k :| k in store && C.References(decode, store, k, id);
      assert C.References(decode, store, k, id);
      SamePrefix(k);
      assert Marks(decode, k, store[k], id);
    }
    if k :| k in store && Marks(decode, k, store[k], id) {
      SamePrefix(k);
      assert C.References(decode, store, k, id);
    }
  }

  /** A mark fails exactly if a live value under such a key does not decode. */
  lemma MarkFailsIff(decode: C.Decoder, store: C.Store)
    ensures C.AllDecode(decode, store) <==>
              forall k :: k in store && "object:meta:" <= k && !store[k].deleted ==> decode(store[k].data).Some?
  {
    forall k | k in store
      ensures C.IsMetadata(k, store[k]) <==> "object:meta:" <= k && !store[k].deleted
    {
      SamePrefix(k);
    }
  }

  /** Every chunk of an upload is marked on a member that holds its metadata. */
  lemma UploadIsMarked(f: O.MetadataFormat, store: C.Store, name: string, m: O.Metadata, version: Version)
    requires O.Faithful(f) && HoldsUpload(f, store, name, m, version)
    ensures forall info :: info in m.chunks ==> info.id in C.LiveIn(ChunkIds(f), store)
  {
    var key, decode := "object:meta:" + f.digest(name), ChunkIds(f);
    forall info | info in m.chunks
      ensures info.id in C.LiveIn(decode, store)
    {
      var i :| 0 <= i < |m.chunks| && m.chunks[i] == info;
      assert decode(store[key].data).Some? && decode(store[key].data).value[i] == info.id;
      assert Marks(decode, key, store[key], info.id);
      OnlyMetadataMarks(decode, store, info.id);
    }
  }

  /** Tombstones, and values under other keys, make no difference to a mark, whatever they hold. */
  lemma OthersMarkNothing(decode: C.Decoder, store: C.Store, k: string, v: Value, id: C.ChunkId)
    requires !("object:meta:" <= k) || v.deleted
    ensures id in C.LiveIn(decode, store[k := v]) <==>
              exists j :: j in store && j != k && Marks(decode, j, store[j], id)
  {
    OnlyMetadataMarks(decode, store[k := v], id);
    hide C.LiveIn;
    assert forall j :: j != k && j in store ==> j in store[k := v] && store[k := v][j] == store[j];
    assert !Marks(decode, k, v, id);
  }

  /**
   An upload followed by a collection. Whatever fails in the collection, no file of the upload's chunks disappears
   from any node, however old, if one of the members asked for marks holds the metadata the upload stored.
   */
  method PutThenCollect(objects: O.Cluster, name: string, r: O.Reader, chunkSize: int,
                        outcome: (nat, O.Node) -> Outcome, stored: Option<Version>,
                        nodes: C.Cluster, holder: C.Node, self: C.Node, members: seq<C.Node>, now: int,
                        gracePeriod: int, reachable: C.Node -> bool, orders: map<C.Node, seq<C.Key>>,
                        later: C.Later, listings: map<C.Node, seq<C.ChunkId>>, replies: C.Node -> Outcome,
                        stuck: (C.Node, C.ChunkId) -> bool)
    returns (m: Option<O.Metadata>, ok: bool)
    requires r.Valid() && r.pos == 0 && O.Faithful(objects.format) && forall c :: Distinct(objects.owners(c))
    requires nodes.decode == ChunkIds(objects.format) && holder in members && holder in nodes.stores
    requires self in nodes.configVersions && Distinct(later.members)
    requires forall m :: m in members && m in nodes.stores ==>
               m in orders && Elements(orders[m]) == nodes.stores[m].Keys
    requires C.Listed(nodes.files, later.members, listings)
    modifies r`pos, objects, nodes`files
    ensures m.Some? && stored.Some? &&
            HoldsUpload(objects.format, nodes.stores[holder], name, m.value, stored.value) ==>
              forall n, info :: info in m.value.chunks && (n, info.id) in old(nodes.files) ==>
                (n, info.id) in nodes.files && nodes.files[(n, info.id)] == old(nodes.files)[(n, info.id)]
    ensures m.Some? ==> stored.Some? && HoldsUpload(objects.format, objects.metadata, name, m.value, stored.value)
  {
    hide *;
    ghost var acked, before := [], objects.metadata;
    m, acked := objects.Put(name, r, chunkSize, outcome, stored);
    if m.Some? {
      StoredIsHeld(objects.format, before, objects.metadata, name, m.value, stored.value);
    }
    ghost var was := nodes.files;
    var counts;
    counts, ok := nodes.RunGC(self, members, now, gracePeriod, reachable, orders, later, listings, replies, stuck);
    if m.Some? && stored.Some? && HoldsUpload(objects.format, nodes.stores[holder], name, m.value, stored.value) {
      UploadIsMarked(objects.format, nodes.stores[holder], name, m.value, stored.value);
      SparedEverywhere(nodes.decode, nodes.stores, members, holder, was, nodes.files, Elements(later.members),
                       now - gracePeriod);
    }
  }

  lemma StoredIsHeld(f: O.MetadataFormat, was: map<string, Value>, metadata: map<string, Value>, name: string,
                     m: O.Metadata, version: Version)
    requires metadata == was["object:meta:" + f.digest(name) := Value(f.encode(m), version, false)]
    ensures HoldsUpload(f, metadata, name, m, version)
  {
  }

  lemma SparedEverywhere(decode: C.Decoder, stores: map<C.Node, C.Store>, members: seq<C.Node>, holder: C.Node,
                         was: C.Files, files: C.Files, swept: set<C.Node>, cutoff: int)
    requires holder in members && holder in stores
    requires C.OnlyOrphansGone(was, files, swept, C.LiveAcross(decode, stores, members), cutoff)
    ensures forall n, id :: id in C.LiveIn(decode, stores[holder]) && (n, id) in was ==>
              (n, id) in files && files[(n, id)] == was[(n, id)]
  {
    hide C.LiveIn;
    assert C.LiveIn(decode, stores[holder]) <= C.LiveAcross(decode, stores, members);
  }
}
