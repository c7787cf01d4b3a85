/**
 The mutable store object (internal/store/memory.go): maps in memory, a log object and a snapshot file.
 Each method is proved to perform the operation of the same name in `DurableStore` and to keep disk and
 memory in step.
 */
module MemoryStore {
  import opened Versions
  import opened Wal
  import opened DurableStore

  class Memory {
    const env: Env
    const wal: WAL
    const snapshotThreshold: int
    const snapshotFits: Store -> bool  // whether the encoded snapshot is within its size limit
    var data: map<string, Value>
    var maxVersionCounter: nat
    var snapshotFile: Store

    ghost predicate Valid()
      reads this, wal
    {
      wal.Valid() && wal.crc == env.crc
    }

    function Contents(): Store
      reads this
    {
      Store(data, maxVersionCounter)
    }

    function OnDisk(): Disk
      reads this, wal
    {
      Disk(snapshotFile, wal.file)
    }

    /** A restart now would give back the current contents. */
    ghost predicate Durable()
      reads this, wal
    {
      Valid() && wal.hasHeader && Consistent(env, OnDisk(), Contents())
    }

    /** The disk after the size check that follows a logged write. */
    function Settled(d: Disk, s: Store): Disk {
      if |d.log| - |FILE_HEADER| >= snapshotThreshold && snapshotFits(s) then DiskAfter(env, d, s, SnapshotOp) else d
    }

    constructor (env: Env, wal: WAL, snapshotThreshold: int, snapshotFits: Store -> bool, snapshot: Store)
      requires wal.Valid() && wal.crc == env.crc
      ensures Valid() && this.env == env && this.wal == wal
      ensures Contents() == snapshot && snapshotFile == snapshot
    {
      this.env, this.wal := env, wal;
      this.snapshotThreshold, this.snapshotFits := snapshotThreshold, snapshotFits;
      data, maxVersionCounter, snapshotFile := snapshot.data, snapshot.maxCounter, snapshot;
    }

    method Get(key: string) returns (v: Option<Value>)
      ensures v == Lookup(Contents(), key)
    {
      v := if key in data then Some(data[key]) else None;
    }

    /** Version-guarded write: log first, then memory; a stale write succeeds and changes nothing. */
    method Set(key: string, value: Value) returns (ok: bool)
      requires Valid()
      modifies this, wal
      ensures Valid()
      ensures Contents() == After(env, old(Contents()), SetOp(key, value))
      ensures ok <==> (key in old(data) && CompareVersion(value.version, old(data)[key].version) <= 0)
                      || Fits(env.codec.encode(SetEntry(key, value)))
      ensures ok ==> key in data && CompareVersion(value.version, data[key].version) <= 0
      ensures data == if Fits(env.codec.encode(SetEntry(key, value))) &&
                         (key !in old(data) || CompareVersion(value.version, old(data)[key].version) > 0)
                      then old(data)[key := value] else old(data)
      ensures old(wal.hasHeader) ==>
                OnDisk() == if Logged(env, old(Contents()), SetOp(key, value)).None? then old(OnDisk())
                            else Settled(DiskAfter(env, old(OnDisk()), old(Contents()), SetOp(key, value)), Contents())
      ensures old(Durable()) ==> Durable()
    {
      ghost var before, disk, op := Contents(), OnDisk(), SetOp(key, value);
      if key in data && CompareVersion(value.version, data[key].version) <= 0 {
        return true;
      }
      var appended := wal.Append(env.codec.encode(SetEntry(key, value)));
      if !appended {
        return false;
      }
      data := data[key := value];
      if value.version.counter > maxVersionCounter {
        maxVersionCounter := value.version.counter;
      }
      CompareVersionSeparates(value.version, value.version);
      if old(Durable()) {
        StepDurable(env, disk, before, op);
      }
      var _ := MaybeSnapshot();
      return true;
    }

    /** Deletes only the copy that still has the given version. */
    method DeleteIfMatch(key: string, version: Version) returns (deleted: bool, ok: bool)
      requires Valid()
      modifies this, wal
      ensures Valid()
      ensures Contents() == After(env, old(Contents()), DeleteOp(key, version))
      ensures deleted <==> key in old(data) && old(data)[key].version == version
                           && Fits(env.codec.encode(DeleteEntry(key, version)))
      ensures data == if deleted then old(data) - {key} else old(data)
      ensures maxVersionCounter == old(maxVersionCounter)
      ensures ok <==> deleted || key !in old(data) || old(data)[key].version != version
      ensures old(wal.hasHeader) ==>
                OnDisk() == if Logged(env, old(Contents()), DeleteOp(key, version)).None? then old(OnDisk())
                            else Settled(DiskAfter(env, old(OnDisk()), old(Contents()), DeleteOp(key, version)),
                                         Contents())
      ensures old(Durable()) ==> Durable()
    {
      ghost var before, disk, op := Contents(), OnDisk(), DeleteOp(key, version);
      if key !in data {
        return false, true;
      }
      CompareVersionSeparates(data[key].version, version);
      if CompareVersion(data[key].version, version) != 0 {
        return false, true;
      }
      var appended := wal.Append(env.codec.encode(DeleteEntry(key, version)));
      if !appended {
        return false, false;
      }
      data := data - {key};
      if old(Durable()) {
        StepDurable(env, disk, before, op);
      }
      var _ := MaybeSnapshot();
      return true, true;
    }

    /** Snapshot once the log's records occupy the threshold. */
    method MaybeSnapshot() returns (ok: bool)
      requires Valid()
      modifies this`snapshotFile, wal
      ensures Valid()
      ensures old(wal.hasHeader) ==> wal.hasHeader && OnDisk() == Settled(old(OnDisk()), Contents())
      ensures old(wal.hasHeader) ==>
                if |old(wal.file)| - 8 >= snapshotThreshold && snapshotFits(Contents())
                then snapshotFile == Contents() && wal.file == FILE_HEADER
                else snapshotFile == old(snapshotFile) && wal.file == old(wal.file)
      ensures old(Durable()) ==> Durable()
    {
      var size := wal.Size();
      if size < snapshotThreshold {
        return true;
      }
      ok := SaveSnapshot();
    }

    /** Writes the snapshot, then truncates the log to its header. */
    method SaveSnapshot() returns (ok: bool)
      requires Valid()
      modifies this`snapshotFile, wal
      ensures Valid() && ok == snapshotFits(Contents())
      ensures ok ==> OnDisk() == DiskAfter(env, old(OnDisk()), Contents(), SnapshotOp) && Durable()
      ensures !ok ==> OnDisk() == old(OnDisk()) && wal.hasHeader == old(wal.hasHeader)
    {
      if !snapshotFits(Store(data, maxVersionCounter)) {
        return false;
      }
      snapshotFile := Store(data, maxVersionCounter);
      wal.Truncate();
      FreshSnapshot(env, Contents());
      return true;
    }
  }

  lemma StepDurable(env: Env, d: Disk, s: Store, op: Op)
    requires Consistent(env, d, s)
    ensures Consistent(env, DiskAfter(env, d, s, op), After(env, s, op))
  {
    hide ConsistentBy;
    var es :| ConsistentBy(env, d, s, es);
    OpKeepsConsistent(env, d, s, es, op);
  }

  lemma FreshSnapshot(env: Env, s: Store)
    ensures Consistent(env, Disk(s, FILE_HEADER), s)
  {
    assert Payloads(env, []) == [] && EncodeAll(LogFormat(env), []) == [];
    assert FILE_HEADER + [] == FILE_HEADER;
    assert ConsistentBy(env, Disk(s, FILE_HEADER), s, []);
  }

  lemma NoEntries(env: Env, s: Store)
    ensures ApplyAll(s, Decoded(env.codec, [])) == s
  {
  }

  lemma NextEntry(env: Env, s: Store, records: seq<Bytes>, i: nat)
    requires i < |records| && forall j :: 0 <= j < |records| ==> env.codec.decode(records[j]).Some?
    ensures ApplyAll(s, Decoded(env.codec, records[..i + 1])) ==
            Apply(ApplyAll(s, Decoded(env.codec, records[..i])), env.codec.decode(records[i]).value)
  {
    var done, entry := Decoded(env.codec, records[..i]), env.codec.decode(records[i]).value;
    assert records[..i + 1][..i] == records[..i];
    assert Decoded(env.codec, records[..i + 1]) == done + [entry];
    assert (done + [entry])[..|done|] == done;
  }

  /** Load the snapshot, open the log, replay every record with the unguarded writes. */
  method OpenMemory(env: Env, disk: Disk, snapshotThreshold: int, snapshotFits: Store -> bool)
    returns (m: Memory?)
    ensures m == null <==> Open(env, disk).NotOpened?
    ensures m != null ==> fresh(m) && fresh(m.wal) && m.Valid() && m.env == env
    ensures m != null ==> Open(env, disk) == Recovered(m.Contents(), m.OnDisk())
  {
    var usable := OpenFile(disk.log);
    if usable.Refused? {
      return null;
    }
    var wal := new WAL(env.crc, usable.file, usable.hasHeader);
    m := new Memory(env, wal, snapshotThreshold, snapshotFits, disk.snapshot);
    ghost var f := Format(usable.hasHeader, env.crc);
    ScanAccepted(f, env.codec, usable.file[|Base(f)|..]);
    var records, repaired, ok := wal.Replay(Accepts(env.codec));
    if !ok {
      return null;
    }
    ReplayInto(m, records);
  }

  /** The replay callback, applied to every record in turn. */
  method ReplayInto(m: Memory, records: seq<Bytes>)
    requires forall i :: 0 <= i < |records| ==> m.env.codec.decode(records[i]).Some?
    modifies m
    ensures m.Contents() == ApplyAll(old(m.Contents()), Decoded(m.env.codec, records))
    ensures m.snapshotFile == old(m.snapshotFile)
  {
    hide ApplyAll, Decoded;
    ghost var start := m.Contents();
    NoEntries(m.env, start);
    var i := 0;
    assert records[..0] == [];
    while i < |records|
      invariant 0 <= i <= |records| && m.snapshotFile == old(m.snapshotFile)
      invariant m.Contents() == ApplyAll(start, Decoded(m.env.codec, records[..i]))
    {
      NextEntry(m.env, start, records, i);
      match m.env.codec.decode(records[i]).value {
        case SetEntry(key, value) =>
          m.data := m.data[key := value];
          if value.version.counter > m.maxVersionCounter {
            m.maxVersionCounter := value.version.counter;
          }
        case DeleteEntry(key, version) =>
          if key in m.data && CompareVersion(m.data[key].version, version) == 0 {
            m.data := m.data - {key};
          }
      }
      i := i + 1;
    }
    assert records[..i] == records;
  }
}
