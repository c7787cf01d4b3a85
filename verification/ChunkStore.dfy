/**
 One node's chunk directory (internal/chunk/store.go): files named by the hash of what they should hold,
 each with the time it was last written. `id` is the content hash, an arbitrary function.
 */
module ChunkStore {
  import opened Versions
  import opened Collector
  import O = Objects

  type Bytes = seq<Byte>

  datatype File = File(data: Bytes, mtime: int)

  /** The directory after a successful `Put` at time `now`: a good copy keeps its bytes, a bad one is replaced. */
  function PutFile(id: Bytes -> ChunkId, files: map<ChunkId, File>, data: Bytes, now: int): map<ChunkId, File> {
    var k := id(data);
    files[k := File(if k in files && id(files[k].data) == k then files[k].data else data, now)]
  }

  /** This directory as node `n`'s part of the cluster's chunk copies. */
  ghost function CopiesOf(n: O.Node, files: map<ChunkId, File>): (r: O.Files)
    ensures forall m, c :: (m, c) in r <==> m == n && c in files
    ensures forall c :: c in files ==> r[(n, c)] == files[c].data
  {
    var keys := set c | c in files :: (n, c);
    map mc | mc in keys :: files[mc.1].data
  }

  /** To the object layer a `Put` is exactly its `PutCopy`; the time is what garbage collection sees. */
  lemma PutIsPutCopy(id: Bytes -> ChunkId, files: map<ChunkId, File>, n: O.Node, data: Bytes, now: int)
    ensures CopiesOf(n, PutFile(id, files, data, now)) == O.PutCopy(id, CopiesOf(n, files), n, data)
    ensures forall c :: c in PutFile(id, files, data, now) <==> c in files || c == id(data)
  {
    var after, copies := CopiesOf(n, PutFile(id, files, data, now)), CopiesOf(n, files);
    var put := O.PutCopy(id, copies, n, data);
    hide CopiesOf;
    forall mc
      ensures mc in after <==> mc in put
      ensures mc in after ==> after[mc] == put[mc]
    {
      assert mc == (mc.0, mc.1);
    }
  }

  datatype Found = Data(data: Bytes) | NotFound | BadId | Unreadable | Mismatch

  class Directory {
    const id: Bytes -> ChunkId
    var files: map<ChunkId, File>

    ghost function Times(): map<ChunkId, int>
      reads this
    {
      map c | c in files :: files[c].mtime
    }

    constructor (id: Bytes -> ChunkId, files: map<ChunkId, File>)
      ensures this.id == id && this.files == files
    {
      this.id, this.files := id, files;
    }

    /**
     `Put` at time `now`. A good copy is kept and only its time renewed, a bad one is replaced; either way the
     chunk is intact, its time is `now`, and nothing else changed. A failure changes nothing.
     */
    method Put(data: Bytes, now: int, unreadable: bool, fails: bool) returns (c: Option<ChunkId>)
      modifies `files
      ensures c.None? <==> fails || (id(data) in old(files) && unreadable)
      ensures c.None? ==> files == old(files)
      ensures c.Some? ==>
                && c.value == id(data) && c.value in files && id(files[c.value].data) == c.value
                && (c.value !in old(files) || id(old(files)[c.value].data) != c.value ==> files[c.value].data == data)
                && Times() == old(Times())[c.value := now]
                && files == PutFile(id, old(files), data, now)
      ensures forall k :: k in old(files) && (k != id(data) || id(old(files)[k].data) == k) ==>
                k in files && files[k].data == old(files)[k].data
      ensures forall k :: k in files ==> k in old(files) || k == id(data)
    {
      var k := id(data);
      if k in files {
        if unreadable {
          return None;
        }
        if id(files[k].data) == k {
          if fails {
            return None;
          }
          files := files[k := files[k].(mtime := now)];
          return Some(k);
        }
      }
      if fails {
        return None;
      }
      files := files[k := File(data, now)];
      return Some(k);
    }

    /** `Get` returns only data that has the hash asked for. */
    method Get(c: ChunkId, unreadable: bool) returns (found: Found)
      ensures found.Data? <==> ValidId(c) && c in files && id(files[c].data) == c && !unreadable
      ensures found.Data? ==> id(found.data) == c && found.data == files[c].data
      ensures found.BadId? <==> !ValidId(c)
      ensures found.NotFound? <==> ValidId(c) && c !in files
      ensures found.Mismatch? <==> ValidId(c) && c in files && !unreadable && id(files[c].data) != c
      ensures found.Unreadable? <==> ValidId(c) && c in files && unreadable
    {
      if !ValidId(c) {
        return BadId;
      }
      if c !in files {
        return NotFound;
      }
      if unreadable {
        return Unreadable;
      }
      if id(files[c].data) != c {
        return Mismatch;
      }
      return Data(files[c].data);
    }

    /** `Delete`: a chunk that is not there counts as deleted. */
    method Delete(c: ChunkId, fails: bool) returns (ok: bool)
      modifies `files
      ensures ok <==> ValidId(c) && (c !in old(files) || !fails)
      ensures files == if ok then old(files) - {c} else old(files)
    {
      if !ValidId(c) {
        return false;
      }
      if c !in files {
        return true;
      }
      if fails {
        return false;
      }
      files := files - {c};
      return true;
    }
  }
}
