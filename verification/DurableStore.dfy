/**
 The durable key-value store (internal/store/memory.go): guarded writes, the log they leave,
 snapshots, and recovery after a crash.

 The entry codec is an arbitrary pair of functions whose round trip is assumed. A crash leaves
 a prefix of the bytes being written; the snapshot file is replaced atomically by its rename.
 */
module DurableStore {
  import opened Sequences
  import opened Versions
  import opened Wal

  datatype Entry = SetEntry(key: string, value: Value) | DeleteEntry(key: string, version: Version)

  datatype Codec = Codec(encode: Entry -> Bytes, decode: Bytes -> Option<Entry>)

  /** Decoding returns what was encoded, and no entry encodes to nothing. */
  ghost predicate Faithful(c: Codec) {
    forall e :: c.decode(c.encode(e)) == Some(e) && c.encode(e) != []
  }

  datatype Env = Env(codec: Codec, crc: Bytes -> Word)

  /** What a snapshot holds and what the maps in memory hold. */
  datatype Store = Store(data: map<string, Value>, maxCounter: nat)

  /** Unguarded write, as replay performs it (`ForceSet`). */
  function ForceSet(s: Store, key: string, value: Value): Store {
    Store(s.data[key := value], Max(s.maxCounter, value.version.counter))
  }

  function DeleteMatching(s: Store, key: string, version: Version): Store {
    if key in s.data && CompareVersion(s.data[key].version, version) == 0
    then Store(s.data - {key}, s.maxCounter)
    else s
  }

  function Apply(s: Store, e: Entry): Store {
    match e
    case SetEntry(key, value) => ForceSet(s, key, value)
    case DeleteEntry(key, version) => DeleteMatching(s, key, version)
  }

  function ApplyAll(s: Store, es: seq<Entry>): Store {
    if es == [] then s else Apply(ApplyAll(s, es[..|es| - 1]), es[|es| - 1])
  }

  // ------------------------------------------------------------------ replay is idempotent

  function Lookup(s: Store, key: string): Option<Value> {
    if key in s.data then Some(s.data[key]) else None
  }

  /** What a log does to one key. */
  function Effect(es: seq<Entry>, key: string, v: Option<Value>): Option<Value> {
    if es == [] then v
    else
      var w := Effect(es[..|es| - 1], key, v);
      match es[|es| - 1]
      case SetEntry(k, value) => if k == key then Some(value) else w
      case DeleteEntry(k, version) =>
        if k == key && w.Some? && CompareVersion(w.value.version, version) == 0 then None else w
  }

  predicate Writes(es: seq<Entry>, key: string) {
    exists i :: 0 <= i < |es| && es[i].SetEntry? && es[i].key == key
  }

  lemma WritesSplit(es: seq<Entry>, key: string)
    requires es != []
    ensures var last := es[|es| - 1];
            Writes(es, key) <==> (last.SetEntry? && last.key == key) || Writes(es[..|es| - 1], key)
  {
    var init := es[..|es| - 1];
    assert es == init + [es[|es| - 1]];
    if Writes(init, key) {
      var i :| 0 <= i < |init| && init[i].SetEntry? && init[i].key == key;
      assert es[i] == init[i];
    }
    if Writes(es, key) {
      var i :| 0 <= i < |es| && es[i].SetEntry? && es[i].key == key;
      assert i < |init| ==> init[i] == es[i];
    }
  }

  lemma {:induction false} EffectIsReplay(s: Store, es: seq<Entry>, key: string)
    ensures Lookup(ApplyAll(s, es), key) == Effect(es, key, Lookup(s, key))
  {
    if es != [] {
      EffectIsReplay(s, es[..|es| - 1], key);
    }
  }

  /** A log that writes the key forgets the old value; one that does not keeps it or deletes it. */
  lemma {:induction false} EffectForgets(es: seq<Entry>, key: string, v: Option<Value>, w: Option<Value>)
    ensures Writes(es, key) ==> Effect(es, key, v) == Effect(es, key, w)
    ensures !Writes(es, key) ==> Effect(es, key, v) == v || Effect(es, key, v) == None
    ensures !Writes(es, key) ==> Effect(es, key, None) == None
  {
    if es != [] {
      var init, last := es[..|es| - 1], es[|es| - 1];
      EffectForgets(init, key, v, w);
      EffectForgets(init, key, None, w);
      WritesSplit(es, key);
    }
  }

  lemma {:induction false} CounterBounds(s: Store, es: seq<Entry>)
    ensures s.maxCounter <= ApplyAll(s, es).maxCounter
    ensures forall i :: 0 <= i < |es| && es[i].SetEntry? ==> es[i].value.version.counter <= ApplyAll(s, es).maxCounter
  {
    if es != [] {
      CounterBounds(s, es[..|es| - 1]);
      assert forall i :: 0 <= i < |es| - 1 ==> es[..|es| - 1][i] == es[i];
    }
  }

  lemma {:induction false} CounterStays(s: Store, es: seq<Entry>)
    requires forall i :: 0 <= i < |es| && es[i].SetEntry? ==> es[i].value.version.counter <= s.maxCounter
    ensures ApplyAll(s, es).maxCounter == s.maxCounter
  {
    if es != [] {
      assert forall i :: 0 <= i < |es| - 1 ==> es[..|es| - 1][i] == es[i];
      CounterStays(s, es[..|es| - 1]);
    }
  }

  /** Replaying a whole log over the state it produced changes nothing, although replay is unguarded. */
  lemma ReplayIdempotent(s: Store, es: seq<Entry>)
    ensures ApplyAll(ApplyAll(s, es), es) == ApplyAll(s, es)
  {
    var once := ApplyAll(s, es);
    var twice := ApplyAll(once, es);
    forall key ensures Lookup(twice, key) == Lookup(once, key) {
      EffectIsReplay(s, es, key);
      EffectIsReplay(once, es, key);
      EffectForgets(es, key, Lookup(s, key), Lookup(once, key));
    }
    SameLookups(twice, once);
    CounterBounds(s, es);
    CounterStays(once, es);
  }

  lemma SameLookups(a: Store, b: Store)
    requires forall key :: Lookup(a, key) == Lookup(b, key)
    ensures a.data == b.data
  {
    forall key ensures (key in a.data <==> key in b.data) && (key in a.data ==> a.data[key] == b.data[key]) {
      assert Lookup(a, key) == Lookup(b, key);
    }
  }

  // ------------------------------------------------------------------ operations and their disk images

  datatype Op = SetOp(key: string, value: Value) | DeleteOp(key: string, version: Version) | SnapshotOp

  /** The log entry an operation writes: none when it is stale, does not match, or does not fit in a record. */
  function Logged(env: Env, s: Store, op: Op): Option<Entry> {
    match op
    case SetOp(key, value) =>
      if key in s.data && CompareVersion(value.version, s.data[key].version) <= 0 then None
      else FitEntry(env, SetEntry(key, value))
    case DeleteOp(key, version) =>
      if key !in s.data || CompareVersion(s.data[key].version, version) != 0 then None
      else FitEntry(env, DeleteEntry(key, version))
    case SnapshotOp => None
  }

  function FitEntry(env: Env, e: Entry): Option<Entry> {
    if Fits(env.codec.encode(e)) then Some(e) else None
  }

  /** The store after a completed operation. */
  function After(env: Env, s: Store, op: Op): Store {
    match Logged(env, s, op)
    case None => s
    case Some(e) => Apply(s, e)
  }

  /**
   Reading after a write: the key never goes back to an older version, holds at least the written one if that
   could be logged, and is either the old value or the written one; other keys read as before.
   */
  lemma GetAfterSet(env: Env, s: Store, key: string, value: Value, other: string)
    ensures var was, now := Lookup(s, key), Lookup(After(env, s, SetOp(key, value)), key);
            && (was.Some? ==> now.Some? && Leq(was.value.version, now.value.version))
            && (Fits(env.codec.encode(SetEntry(key, value))) ==> now.Some? && Leq(value.version, now.value.version))
            && now == if Fits(env.codec.encode(SetEntry(key, value))) &&
                         (was.None? || !Leq(value.version, was.value.version)) then Some(value) else was
    ensures other != key ==> Lookup(After(env, s, SetOp(key, value)), other) == Lookup(s, other)
  {
    VersionsTotallyOrdered();
    if key in s.data {
      CompareVersionSeparates(value.version, s.data[key].version);
      CompareVersionSeparates(s.data[key].version, s.data[key].version);
    }
    CompareVersionSeparates(value.version, value.version);
  }

  /**
   Reading after a conditional delete: the key is gone exactly if its version was the one named and the deletion
   could be logged, otherwise it reads as before; so do all other keys.
   */
  lemma GetAfterDelete(env: Env, s: Store, key: string, version: Version, other: string)
    ensures var was, now := Lookup(s, key), Lookup(After(env, s, DeleteOp(key, version)), key);
            now == if was.Some? && was.value.version == version && Fits(env.codec.encode(DeleteEntry(key, version)))
                   then None else was
    ensures other != key ==> Lookup(After(env, s, DeleteOp(key, version)), other) == Lookup(s, other)
    ensures After(env, s, DeleteOp(key, version)).maxCounter == s.maxCounter
  {
    if key in s.data {
      CompareVersionSeparates(s.data[key].version, version);
    }
  }

  /** The same for an entry met during replay, whatever was logged before it. */
  lemma ReplayedEntry(s: Store, e: Entry, other: string)
    ensures Lookup(Apply(s, e), e.key) ==
              if e.SetEntry? then Some(e.value)
              else if Lookup(s, e.key).Some? && Lookup(s, e.key).value.version == e.version then None
              else Lookup(s, e.key)
    ensures other != e.key ==> Lookup(Apply(s, e), other) == Lookup(s, other)
    ensures Apply(s, e).maxCounter ==
              if e.SetEntry? && e.value.version.counter > s.maxCounter then e.value.version.counter else s.maxCounter
  {
    if e.key in s.data && e.DeleteEntry? {
      CompareVersionSeparates(s.data[e.key].version, e.version);
    }
  }

  datatype Disk = Disk(snapshot: Store, log: Bytes)

  function LogFormat(env: Env): Format {
    Format(true, env.crc)
  }

  function Payloads(env: Env, es: seq<Entry>): (r: seq<Bytes>)
    ensures |r| == |es|
  {
    if es == [] then [] else Payloads(env, es[..|es| - 1]) + [env.codec.encode(es[|es| - 1])]
  }

  /** The bytes an operation appends to the log. */
  function Written(env: Env, s: Store, op: Op): Bytes {
    match Logged(env, s, op)
    case None => []
    case Some(e) => if Fits(env.codec.encode(e)) then EncodeRecord(LogFormat(env), env.codec.encode(e)) else []
  }

  /** The disk after a completed operation. */
  function DiskAfter(env: Env, d: Disk, s: Store, op: Op): Disk {
    if op.SnapshotOp? then Disk(s, FILE_HEADER) else Disk(d.snapshot, d.log + Written(env, s, op))
  }

  /** Where a crash can interrupt an operation. */
  datatype CrashPoint =
    | InAppend(bytes: nat)      // so many bytes of the record reached the file
    | BeforeRename              // snapshot written to its temporary file only
    | AfterRename               // new snapshot in place, log not yet truncated
    | InTruncate(bytes: nat)    // log truncated, so many bytes of the new file header written

  predicate Possible(env: Env, s: Store, op: Op, p: CrashPoint) {
    match p
    case InAppend(n) => !op.SnapshotOp? && n <= |Written(env, s, op)|
    case InTruncate(n) => op.SnapshotOp? && n <= |FILE_HEADER|
    case _ => op.SnapshotOp?
  }

  function CrashDisk(env: Env, d: Disk, s: Store, op: Op, p: CrashPoint): Disk
    requires Possible(env, s, op, p)
  {
    match p
    case InAppend(n) => Disk(d.snapshot, d.log + Written(env, s, op)[..n])
    case BeforeRename => d
    case AfterRename => Disk(s, d.log)
    case InTruncate(n) => Disk(s, FILE_HEADER[..n])
  }

  /** Any prefix of a record, or of a new file header, can be all that reaches the disk. */
  lemma EveryPrefixIsPossible(env: Env, s: Store, op: Op, n: nat)
    ensures Possible(env, s, op, InAppend(n)) <==>
              !op.SnapshotOp? &&
              n <= if Logged(env, s, op).None? then 0 else 8 + |env.codec.encode(Logged(env, s, op).value)|
    ensures Possible(env, s, op, InTruncate(n)) <==> op.SnapshotOp? && n <= 8
    ensures Possible(env, s, op, BeforeRename) && Possible(env, s, op, AfterRename) <==> op.SnapshotOp?
  {
    var e := Logged(env, s, op);
    if e.Some? {
      assert Fits(env.codec.encode(e.value));
    }
  }

  datatype Reopened = Recovered(store: Store, disk: Disk) | NotOpened

  function Accepts(codec: Codec): Bytes -> bool {
    b => codec.decode(b).Some?
  }

  function Decoded(codec: Codec, records: seq<Bytes>): seq<Entry>
    requires forall i :: 0 <= i < |records| ==> codec.decode(records[i]).Some?
  {
    if records == [] then []
    else Decoded(codec, records[..|records| - 1]) + [codec.decode(records[|records| - 1]).value]
  }

  lemma {:induction false} ScanAccepted(f: Format, codec: Codec, b: Bytes)
    ensures forall i :: 0 <= i < |Scan(f, Accepts(codec), b).records| ==>
              codec.decode(Scan(f, Accepts(codec), b).records[i]).Some?
    decreases |b|
  {
    hide ReadRecord;
    if ReadRecord(f, b).Record? && Accepts(codec)(ReadRecord(f, b).data) {
      ScanAccepted(f, codec, b[ReadRecord(f, b).size..]);
    }
  }

  /** `OpenMemory`: load the snapshot, open the log, replay it over the snapshot. */
  function Open(env: Env, d: Disk): Reopened {
    match OpenFile(d.log)
    case Refused => NotOpened
    case Usable(hasHeader, file) =>
      var f := Format(hasHeader, env.crc);
      var r := Scan(f, Accepts(env.codec), file[|Base(f)|..]);
      ScanAccepted(f, env.codec, file[|Base(f)|..]);
      if r.outcome == Failed then NotOpened
      else Recovered(ApplyAll(d.snapshot, Decoded(env.codec, r.records)),
                     Disk(d.snapshot, AfterReplay(f, Accepts(env.codec), file)))
  }

  /** The log is the encoding of `es`, and replaying `es` over the snapshot gives `s`. */
  ghost predicate ConsistentBy(env: Env, d: Disk, s: Store, es: seq<Entry>) {
    && AllFit(Payloads(env, es))
    && d.log == Encode(LogFormat(env), Payloads(env, es))
    && ApplyAll(d.snapshot, es) == s
  }

  ghost predicate Consistent(env: Env, d: Disk, s: Store) {
    exists es :: ConsistentBy(env, d, s, es)
  }

  lemma {:induction false} PayloadsDecode(env: Env, es: seq<Entry>)
    requires Faithful(env.codec)
    ensures forall i :: 0 <= i < |es| ==> Payloads(env, es)[i] == env.codec.encode(es[i])
    ensures forall r :: r in Payloads(env, es) ==> Accepts(env.codec)(r)
    ensures Decoded(env.codec, Payloads(env, es)) == es
  {
    if es != [] {
      var n := |es| - 1;
      PayloadsDecode(env, es[..n]);
      assert Payloads(env, es)[..n] == Payloads(env, es[..n]);
      assert env.codec.decode(env.codec.encode(es[n])) == Some(es[n]);
      assert es == es[..n] + [es[n]];
    }
  }

  lemma {:induction false} PayloadsPrefix(env: Env, es: seq<Entry>, k: nat)
    requires k <= |es|
    ensures Payloads(env, es[..k]) == Payloads(env, es)[..k]
    decreases |es|
  {
    if k < |es| {
      PayloadsPrefix(env, es[..|es| - 1], k);
      assert es[..|es| - 1][..k] == es[..k];
    } else {
      assert es[..k] == es;
    }
  }

  // ------------------------------------------------------------------ recovery

  /** A clean restart gives back exactly the store and leaves the disk alone. */
  lemma RecoverConsistent(env: Env, d: Disk, s: Store, es: seq<Entry>)
    requires Faithful(env.codec) && ConsistentBy(env, d, s, es)
    ensures Open(env, d) == Recovered(s, d)
  {
    hide Scan, EncodeAll, Decoded, Payloads, Faithful, ApplyAll;
    var f, payloads := LogFormat(env), Payloads(env, es);
    PayloadsDecode(env, es);
    OpenAfterCut(f, payloads, |d.log|);
    assert d.log[..|d.log|] == d.log;
    assert d.log[|Base(f)|..] == EncodeAll(f, payloads);
    ReplayRoundTrip(f, Accepts(env.codec), payloads);
  }

  /** Completed operations keep disk and memory in step. */
  lemma OpKeepsConsistent(env: Env, d: Disk, s: Store, es: seq<Entry>, op: Op)
    requires ConsistentBy(env, d, s, es)
    ensures Consistent(env, DiskAfter(env, d, s, op), After(env, s, op))
  {
    hide EncodeRecord, Apply, Logged;
    match Logged(env, s, op) {
      case None =>
        if op.SnapshotOp? {
          assert Payloads(env, []) == [] && EncodeAll(LogFormat(env), []) == [];
          assert FILE_HEADER + [] == FILE_HEADER;
          assert ConsistentBy(env, DiskAfter(env, d, s, op), s, []);
        } else {
          assert d.log + [] == d.log;
          assert ConsistentBy(env, DiskAfter(env, d, s, op), s, es);
        }
      case Some(e) =>
        LoggedFits(env, s, op);
        AppendedEncoding(env, es, e);
        assert (es + [e])[..|es|] == es;
        assert ConsistentBy(env, DiskAfter(env, d, s, op), After(env, s, op), es + [e]);
    }
  }

  lemma LoggedFits(env: Env, s: Store, op: Op)
    ensures Logged(env, s, op).Some? ==> Fits(env.codec.encode(Logged(env, s, op).value)) && !op.SnapshotOp?
  {
  }

  lemma AppendedEncoding(env: Env, es: seq<Entry>, e: Entry)
    requires AllFit(Payloads(env, es)) && Fits(env.codec.encode(e))
    ensures Payloads(env, es + [e]) == Payloads(env, es) + [env.codec.encode(e)]
    ensures AllFit(Payloads(env, es + [e]))
    ensures Encode(LogFormat(env), Payloads(env, es + [e])) == Encode(LogFormat(env), Payloads(env, es))
              + EncodeRecord(LogFormat(env), env.codec.encode(e))
  {
    hide EncodeRecord, Frame;
    var f, payload := LogFormat(env), env.codec.encode(e);
    assert (es + [e])[..|es|] == es;
    EncodeAppend(f, Payloads(env, es), [payload]);
    assert EncodeAll(f, [payload]) == EncodeRecord(f, payload) by {
      var one: seq<Bytes> := [payload];
      assert one[1..] == [];
      assert EncodeRecord(f, payload) + [] == EncodeRecord(f, payload);
    }
  }

  /** The crash left the new file header of the log half-written. */
  predicate TornFileHeader(p: CrashPoint) {
    p.InTruncate? && 0 < p.bytes < |FILE_HEADER|
  }

  /** The crash left a record frame without any of its payload. */
  predicate DanglingFrame(p: CrashPoint) {
    p.InAppend? && p.bytes == 8
  }

  /** The interrupted operation survives: its whole record reached the file. */
  predicate Survives(env: Env, s: Store, op: Op, p: CrashPoint) {
    p.InAppend? && p.bytes == |Written(env, s, op)|
  }

  /** A crash in the middle of an append, seen from the log alone. */
  lemma CutAppend(env: Env, es: seq<Entry>, e: Entry, n: nat)
    requires Faithful(env.codec) && AllFit(Payloads(env, es)) && Fits(env.codec.encode(e))
    requires n <= |EncodeRecord(LogFormat(env), env.codec.encode(e))|
    ensures var f, payload, acc := LogFormat(env), env.codec.encode(e), Accepts(env.codec);
            var log := Encode(f, Payloads(env, es)) + EncodeRecord(f, payload)[..n];
            var kept := if n == |EncodeRecord(f, payload)| then es + [e] else es;
            && OpenFile(log) == Usable(true, log)
            && Scan(f, acc, log[8..]).outcome != Failed
            && AllFit(Payloads(env, kept))
            && Scan(f, acc, log[8..]).records == Payloads(env, kept)
            && (AfterReplay(f, acc, log) == Encode(f, Payloads(env, kept)) <==> n != 8)
            && (n == 8 ==> AfterReplay(f, acc, log) == Encode(f, Payloads(env, es)) + Frame(f, payload))
  {
    hide Scan, EncodeAll, EncodeRecord, Frame, Faithful, AfterReplay, OpenFile, Payloads;
    var f, payload := LogFormat(env), env.codec.encode(e);
    var all := Payloads(env, es + [e]);
    AppendedEncoding(env, es, e);
    PayloadsDecode(env, es + [e]);
    NonEmptyPayload(env, e);
    var c := |EncodeAll(f, Payloads(env, es))| + n;
    var log := Encode(f, Payloads(env, es)) + EncodeRecord(f, payload)[..n];
    assert Encode(f, all)[..8 + c] == log;
    WholeBeforeLast(f, Payloads(env, es), payload, n);
    TornTailReplay(f, Accepts(env.codec), all, c);
    OpenAfterCut(f, all, 8 + c);
    assert Payloads(env, es) == all[..|es|];
    assert all[..|all|] == all;
  }

  lemma NonEmptyPayload(env: Env, e: Entry)
    requires Faithful(env.codec)
    ensures env.codec.encode(e) != []
  {
    assert env.codec.decode(env.codec.encode(e)) == Some(e);
  }

  lemma {:induction false} WholeBeforeLast(f: Format, records: seq<Bytes>, last: Bytes, n: nat)
    requires AllFit(records) && Fits(last) && n <= |EncodeRecord(f, last)|
    ensures AllFit(records + [last])
    ensures var c := |EncodeAll(f, records)| + n;
            && Whole(f, records + [last], c) == (if n == |EncodeRecord(f, last)| then |records| + 1 else |records|)
            && (n < |EncodeRecord(f, last)| ==> Left(f, records + [last], c) == n)
    decreases |records|
  {
    hide EncodeRecord;
    if records == [] {
      assert records + [last] == [last];
      var one: seq<Bytes> := [last];
      assert one[1..] == [];
    } else {
      assert (records + [last])[1..] == records[1..] + [last];
      WholeBeforeLast(f, records[1..], last, n);
    }
  }

  /**
   Crash recovery. A crash anywhere inside an operation on a consistent store reopens to the store
   from before or after that operation, and to the one after it exactly when its whole record
   reached the file. Two cuts are exceptions: a half-written file header is refused, and a frame
   without payload reopens correctly but leaves a log that is no longer well formed.
   */
  lemma CrashRecovery(env: Env, d: Disk, s: Store, es: seq<Entry>, op: Op, p: CrashPoint)
    requires Faithful(env.codec) && ConsistentBy(env, d, s, es) && Possible(env, s, op, p)
    ensures var r := Open(env, CrashDisk(env, d, s, op, p));
            && (r.NotOpened? <==> TornFileHeader(p))
            && (r.Recovered? ==> r.store == if Survives(env, s, op, p) then After(env, s, op) else s)
            && (r.Recovered? ==> (Consistent(env, r.disk, r.store) <==> !DanglingFrame(p)))
  {
    match p {
      case InAppend(n) => AppendCrash(env, d, s, es, op, n);
      case BeforeRename => RecoverConsistent(env, d, s, es);
      case AfterRename =>
        ReplayIdempotent(d.snapshot, es);
        assert ConsistentBy(env, Disk(s, d.log), s, es);
        RecoverConsistent(env, Disk(s, d.log), s, es);
      case InTruncate(n) => TruncateCrash(env, s, n);
    }
  }

  lemma TruncateCrash(env: Env, s: Store, n: nat)
    requires Faithful(env.codec) && n <= |FILE_HEADER|
    ensures var r := Open(env, Disk(s, FILE_HEADER[..n]));
            if 0 < n < |FILE_HEADER| then r.NotOpened? else r.Recovered? && r.store == s && Consistent(env, r.disk, s)
  {
    hide Scan, Faithful;
    if n == 0 || n == |FILE_HEADER| {
      assert FILE_HEADER[..|FILE_HEADER|] == FILE_HEADER && FILE_HEADER + [] == FILE_HEADER;
      assert Payloads(env, []) == [] && EncodeAll(LogFormat(env), []) == [];
      assert ConsistentBy(env, Disk(s, FILE_HEADER), s, []);
      RecoverConsistent(env, Disk(s, FILE_HEADER), s, []);
    }
  }

  lemma AppendCrash(env: Env, d: Disk, s: Store, es: seq<Entry>, op: Op, n: nat)
    requires Faithful(env.codec) && ConsistentBy(env, d, s, es) && Possible(env, s, op, InAppend(n))
    ensures var p := InAppend(n);
            var r := Open(env, CrashDisk(env, d, s, op, p));
            && r.Recovered?
            && r.store == (if Survives(env, s, op, p) then After(env, s, op) else s)
            && (Consistent(env, r.disk, r.store) <==> !DanglingFrame(p))
  {
    hide Open, EncodeRecord, Faithful, Logged, Apply, ApplyAll, ConsistentBy, Fits;
    match Logged(env, s, op) {
      case None =>
        assert d.log + [] == d.log;
        RecoverConsistent(env, d, s, es);
        assert n == 0;
      case Some(e) =>
        LoggedFits(env, s, op);
        LoggedCrash(env, d, s, es, e, n);
    }
  }

  lemma LoggedCrash(env: Env, d: Disk, s: Store, es: seq<Entry>, e: Entry, n: nat)
    requires Faithful(env.codec) && ConsistentBy(env, d, s, es) && Fits(env.codec.encode(e))
    requires n <= |EncodeRecord(LogFormat(env), env.codec.encode(e))|
    ensures var record := EncodeRecord(LogFormat(env), env.codec.encode(e));
            var r := Open(env, Disk(d.snapshot, d.log + record[..n]));
            && r.Recovered?
            && r.store == (if n == |record| then Apply(s, e) else s)
            && (Consistent(env, r.disk, r.store) <==> n != 8)
  {
    hide Scan, EncodeAll, EncodeRecord, Frame, Faithful, AfterReplay, Payloads, Apply, Fits, Consistent;
    var f, payload := LogFormat(env), env.codec.encode(e);
    var log := d.log + EncodeRecord(f, payload)[..n];
    var kept := if n == |EncodeRecord(f, payload)| then es + [e] else es;
    CutAppend(env, es, e, n);
    PayloadsDecode(env, kept);
    assert ApplyAll(d.snapshot, es + [e]) == Apply(s, e) by {
      assert (es + [e])[..|es|] == es;
    }
    hide ApplyAll;
    var r := Open(env, Disk(d.snapshot, log));
    assert r == Recovered(ApplyAll(d.snapshot, kept), Disk(d.snapshot, AfterReplay(f, Accepts(env.codec), log)));
    if n != 8 {
      ConsistentFrom(env, r.disk, r.store, kept);
    } else {
      NonEmptyPayload(env, e);
      DanglingIsIllFormed(env, r.disk, es, payload);
    }
  }

  lemma ConsistentFrom(env: Env, d: Disk, s: Store, es: seq<Entry>)
    requires ConsistentBy(env, d, s, es)
    ensures Consistent(env, d, s)
  {
  }

  /** A log that ends in a bare frame is the encoding of no entry list. */
  lemma DanglingIsIllFormed(env: Env, d: Disk, es: seq<Entry>, payload: Bytes)
    requires Faithful(env.codec) && AllFit(Payloads(env, es)) && Fits(payload) && payload != []
    requires d.log == Encode(LogFormat(env), Payloads(env, es)) + Frame(LogFormat(env), payload)
    ensures forall t :: !Consistent(env, d, t)
  {
    hide EncodeAll, Frame, Faithful, Payloads, ReadRecord, ApplyAll;
    var f, acc := LogFormat(env), Accepts(env.codec);
    var head := EncodeAll(f, Payloads(env, es));
    assert d.log[8..] == head + Frame(f, payload);
    PayloadsDecode(env, es);
    ScanThrough(f, acc, Payloads(env, es), Frame(f, payload));
    ReadFrame(f, payload);
    assert Scan(f, acc, Frame(f, payload)) == Scanned([], 0, Clean);
    assert Scan(f, acc, d.log[8..]).valid == |head|;
    forall t ensures !Consistent(env, d, t) {
      if Consistent(env, d, t) {
        var fs :| ConsistentBy(env, d, t, fs);
        PayloadsDecode(env, fs);
        assert d.log[8..] == EncodeAll(f, Payloads(env, fs));
        ReplayRoundTrip(f, acc, Payloads(env, fs));
        assert false;
      }
    }
  }

  lemma ReadFrame(f: Format, payload: Bytes)
    requires Fits(payload) && payload != []
    ensures ReadRecord(f, Frame(f, payload)) == CleanEnd
  {
    ReadCut(f, payload, FrameSize(f));
    FrameIsPrefix(f, payload);
  }

  // ------------------------------------------------------------------ crashes during recovery

  /** Where a crash can interrupt a restart after it has written something. */
  datatype RecoveryPoint =
    | InFileHeader(bytes: nat)  // an empty log gets its file header, so many bytes of it written
    | AfterRepair               // a torn tail is cut off

  function RecoveryDisk(env: Env, d: Disk, q: RecoveryPoint): Disk {
    match q
    case InFileHeader(n) => if d.log == [] && n <= |FILE_HEADER| then Disk(d.snapshot, FILE_HEADER[..n]) else d
    case AfterRepair =>
      match Open(env, d)
      case Recovered(_, e) => e
      case NotOpened => d
  }

  /** The disk after restarts that crashed at these points, one after the other. */
  function Interrupted(env: Env, d: Disk, qs: seq<RecoveryPoint>): Disk {
    if qs == [] then d else RecoveryDisk(env, Interrupted(env, d, qs[..|qs| - 1]), qs[|qs| - 1])
  }

  /** What restarts that crash leave: each works on the disk the one before it left. */
  lemma InterruptedMore(env: Env, d: Disk, qs: seq<RecoveryPoint>, n: nat)
    ensures Interrupted(env, d, []) == d
    ensures var e := Interrupted(env, d, qs);
            && Interrupted(env, d, qs + [AfterRepair]) == (if Open(env, e).Recovered? then Open(env, e).disk else e)
            && Interrupted(env, d, qs + [InFileHeader(n)]) ==
                 if e.log == [] && n <= 8 then Disk(e.snapshot, FILE_HEADER[..n]) else e
  {
    assert (qs + [AfterRepair])[..|qs|] == qs && (qs + [InFileHeader(n)])[..|qs|] == qs;
    hide Open;
  }

  predicate TornRecovery(q: RecoveryPoint) {
    q.InFileHeader? && 0 < q.bytes < |FILE_HEADER|
  }

  /** The log is empty or starts with a file header. */
  predicate Headed(d: Disk) {
    OpenFile(d.log).Usable? && OpenFile(d.log).hasHeader
  }

  /**
   Recovery is done once and for all, whatever bytes it found: a second restart reads the same store from the
   repaired disk, unless the repair left a log without file header that is shorter than one.
   */
  lemma RecoverySettles(env: Env, d: Disk)
    requires Open(env, d).Recovered?
    ensures var r := Open(env, d); var again := Open(env, r.disk);
            && (again.NotOpened? <==> 0 < |r.disk.log| < |FILE_HEADER|)
            && (again.Recovered? ==> again.store == r.store)
            && (again.Recovered? && r.disk.log != [] ==> again == r)
            && (Headed(d) ==> Headed(r.disk) && |r.disk.log| >= |FILE_HEADER|)
  {
    var usable := OpenFile(d.log);
    var f, file := Format(usable.hasHeader, env.crc), usable.file;
    var b := file[|Base(f)|..];
    ScanAccepted(f, env.codec, b);
    var scan := Scan(f, Accepts(env.codec), b);
    var r := Open(env, d);
    RepairedScan(f, Accepts(env.codec), file);
    RepairedOpens(d.log, f, r.disk.log);
    EmptyScan(f, Accepts(env.codec), b);
    hide Scan, AfterReplay, OpenFile;
    if r.disk.log == [] {
      EmptyLogOpens(env, r.disk);
    }
  }

  /** What is left of a file scans to the same records and needs no second repair. */
  lemma RepairedScan(f: Format, accepts: Bytes -> bool, file: Bytes)
    requires |Base(f)| <= |file| && Scan(f, accepts, file[|Base(f)|..]).outcome != Failed
    ensures var log, r := AfterReplay(f, accepts, file), Scan(f, accepts, file[|Base(f)|..]);
            && |Base(f)| <= |log| && log[..|Base(f)|] == file[..|Base(f)|] && log <= file
            && Scan(f, accepts, log[|Base(f)|..]) == Scanned(r.records, r.valid, Clean)
            && AfterReplay(f, accepts, log) == log
            && (|log| == |Base(f)| ==> r.valid == 0)
  {
    var b := file[|Base(f)|..];
    ScanValid(f, accepts, b);
    hide Scan;
    if Scan(f, accepts, b).outcome == Torn {
      assert AfterReplay(f, accepts, file)[|Base(f)|..] == b[..Scan(f, accepts, b).valid];
    }
  }

  /** Such a file is opened like the one before, unless it is headerless and shorter than a header. */
  lemma RepairedOpens(was: Bytes, f: Format, log: Bytes)
    requires OpenFile(was).Usable? && f.hasHeader == OpenFile(was).hasHeader
    requires |Base(f)| <= |log| && log <= OpenFile(was).file
    ensures OpenFile(log).Refused? <==> 0 < |log| < |FILE_HEADER|
    ensures |log| >= |FILE_HEADER| ==> OpenFile(log) == Usable(f.hasHeader, log)
    ensures f.hasHeader ==> |log| >= |FILE_HEADER|
  {
    var file := OpenFile(was).file;
    if |log| >= 8 {
      assert log[..4] == file[..4] && log[4..6] == file[4..6];
      if f.hasHeader {
        assert file[..4] == file[..6][..4] && file[4..6] == file[..6][4..6];
      }
    }
  }

  lemma EmptyLogOpens(env: Env, d: Disk)
    requires d.log == []
    ensures Open(env, d) == Recovered(d.snapshot, Disk(d.snapshot, FILE_HEADER))
  {
    var f := LogFormat(env);
    ReadNothing(f);
    assert FILE_HEADER[8..] == [];
    assert Scan(f, Accepts(env.codec), []) == Scanned([], 0, Clean);
  }

  lemma EmptyScan(f: Format, accepts: Bytes -> bool, b: Bytes)
    ensures Scan(f, accepts, b).valid == 0 ==> Scan(f, accepts, b).records == []
  {
  }

  /**
   A crash during recovery is harmless unless it tears a new file header: the next restart gives the same store
   and disk as an uninterrupted one.
   */
  lemma RecoveryCrash(env: Env, d: Disk, q: RecoveryPoint)
    requires Headed(d) && Open(env, d).Recovered?
    ensures var e := RecoveryDisk(env, d, q);
            && (Open(env, e).NotOpened? <==> TornRecovery(q) && d.log == [])
            && (Open(env, e).Recovered? ==> Open(env, e) == Open(env, d) && Headed(e))
  {
    match q {
      case InFileHeader(n) =>
        if d.log == [] && n <= |FILE_HEADER| {
          EmptyLogOpens(env, d);
          if n == |FILE_HEADER| {
            assert FILE_HEADER[..n] == FILE_HEADER;
            RecoverySettles(env, d);
          }
        }
      case AfterRepair => RecoverySettles(env, d);
    }
    hide Open;
  }

  lemma {:induction false} InterruptedSame(env: Env, d: Disk, qs: seq<RecoveryPoint>)
    requires Headed(d) && Open(env, d).Recovered? && forall i :: 0 <= i < |qs| ==> !TornRecovery(qs[i])
    ensures Headed(Interrupted(env, d, qs)) && Open(env, Interrupted(env, d, qs)) == Open(env, d)
  {
    hide Open, Headed, RecoveryDisk, TornRecovery;
    if qs != [] {
      var n := |qs| - 1;
      InterruptedSame(env, d, qs[..n]);
      RecoveryCrash(env, Interrupted(env, d, qs[..n]), qs[n]);
    }
  }

  lemma CrashedHeaded(env: Env, d: Disk, s: Store, es: seq<Entry>, op: Op, p: CrashPoint)
    requires ConsistentBy(env, d, s, es) && Possible(env, s, op, p) && !TornFileHeader(p)
    ensures Headed(CrashDisk(env, d, s, op, p))
  {
    var e := CrashDisk(env, d, s, op, p);
    hide EncodeAll, Payloads, Written;
    if p.InTruncate? {
      assert FILE_HEADER[..|FILE_HEADER|] == FILE_HEADER;
    } else {
      assert e.log[..8] == FILE_HEADER;
      HeaderParts(e.log);
    }
  }

  lemma HeaderParts(log: Bytes)
    requires |log| >= 8
    ensures log[..4] == log[..8][..4] && log[4..6] == log[..8][4..6]
  {
  }

  // ------------------------------------------------------------------ whole runs

  /** `during`: where the restarts before the successful one crashed in their turn. */
  datatype Event = Done(op: Op) | Crashed(op: Op, at: CrashPoint, during: seq<RecoveryPoint>)

  datatype Running = Running(disk: Disk, store: Store) | Down

  /** One event on the real store: a completed operation, or a crash followed by restarts. */
  function Step(env: Env, r: Running, ev: Event): Running {
    match r
    case Down => Down
    case Running(d, s) =>
      match ev
      case Done(op) => Running(DiskAfter(env, d, s, op), After(env, s, op))
      case Crashed(op, p, during) =>
        if !Possible(env, s, op, p) then r
        else match Open(env, Interrupted(env, CrashDisk(env, d, s, op, p), during))
          case NotOpened => Down
          case Recovered(t, e) => Running(e, t)
  }

  function Run(env: Env, r: Running, evs: seq<Event>): Running {
    if evs == [] then r else Step(env, Run(env, r, evs[..|evs| - 1]), evs[|evs| - 1])
  }

  /** The same history without any disk: interrupted operations happen entirely or not at all. */
  function Ideal(env: Env, s: Store, evs: seq<Event>): Store {
    if evs == [] then s
    else
      var t := Ideal(env, s, evs[..|evs| - 1]);
      match evs[|evs| - 1]
      case Done(op) => After(env, t, op)
      case Crashed(op, p, _) => if Possible(env, t, op, p) && Survives(env, t, op, p) then After(env, t, op) else t
  }

  predicate Benign(ev: Event) {
    ev.Crashed? ==>
      !TornFileHeader(ev.at) && !DanglingFrame(ev.at) &&
        forall i :: 0 <= i < |ev.during| ==> !TornRecovery(ev.during[i])
  }

  /**
   Over every run of operations and crashes, also of the restarts themselves, that tears no file header and
   leaves no bare frame, the store always restarts and always equals the crash-free history, so no acknowledged
   operation is ever lost.
   */
  lemma {:induction false} RunsAreIdeal(env: Env, d: Disk, s: Store, evs: seq<Event>)
    requires Faithful(env.codec) && Consistent(env, d, s)
    requires forall i :: 0 <= i < |evs| ==> Benign(evs[i])
    ensures var r := Run(env, Running(d, s), evs);
            && r.Running? && r.store == Ideal(env, s, evs)
            && Consistent(env, r.disk, r.store)
            && Open(env, r.disk) == Recovered(r.store, r.disk)
  {
    hide Consistent, Open, After, DiskAfter, Survives, CrashDisk, Possible, Faithful;
    if evs == [] {
      RecoverAny(env, d, s);
    } else {
      var n := |evs| - 1;
      RunsAreIdeal(env, d, s, evs[..n]);
      var r := Run(env, Running(d, s), evs[..n]);
      StepIsIdeal(env, r.disk, r.store, evs[n]);
      var q := Run(env, Running(d, s), evs);
      assert q == Step(env, r, evs[n]);
      RecoverAny(env, q.disk, q.store);
    }
  }

  lemma RecoverAny(env: Env, d: Disk, s: Store)
    requires Faithful(env.codec) && Consistent(env, d, s)
    ensures Open(env, d) == Recovered(s, d)
  {
    hide Open, ConsistentBy;
    var es :| ConsistentBy(env, d, s, es);
    RecoverConsistent(env, d, s, es);
  }

  lemma StepIsIdeal(env: Env, d: Disk, s: Store, ev: Event)
    requires Faithful(env.codec) && Consistent(env, d, s) && Benign(ev)
    ensures var q := Step(env, Running(d, s), ev);
            && q.Running? && Consistent(env, q.disk, q.store)
            && q.store == match ev
                          case Done(op) => After(env, s, op)
                          case Crashed(op, p, _) =>
                            if Possible(env, s, op, p) && Survives(env, s, op, p) then After(env, s, op) else s
  {
    hide Open, ConsistentBy, After, DiskAfter, Survives, CrashDisk, Possible;
    var es :| ConsistentBy(env, d, s, es);
    match ev {
      case Done(op) => OpKeepsConsistent(env, d, s, es, op);
      case Crashed(op, p, during) =>
        if Possible(env, s, op, p) {
          CrashRecovery(env, d, s, es, op, p);
          CrashedHeaded(env, d, s, es, op, p);
          InterruptedSame(env, CrashDisk(env, d, s, op, p), during);
        }
    }
  }

  /**
   The dangling frame is a real loss: after a crash there and a restart, the next acknowledged
   operation is gone after the following restart, either silently or because the log is refused.
   */
  lemma AcknowledgedOpLost(env: Env, d: Disk, s: Store, es: seq<Entry>, op: Op, next: Op)
    requires Faithful(env.codec) && ConsistentBy(env, d, s, es)
    requires Possible(env, s, op, InAppend(8)) && Logged(env, s, op).Some? && Logged(env, s, next).Some?
    requires var lost := env.codec.encode(Logged(env, s, op).value);
             var record := Written(env, s, next);
             |lost| <= |record| ==> env.crc(record[..|lost|]) != env.crc(lost)
    ensures var r := Run(env, Running(d, s), [Crashed(op, InAppend(8), []), Done(next)]);
            && r.Running? && r.store == After(env, s, next)
            && (Open(env, r.disk).Recovered? ==> Open(env, r.disk).store == s)
            && (Open(env, r.disk).NotOpened? <==>
                 |env.codec.encode(Logged(env, s, op).value)| <= |Written(env, s, next)|)
  {
    hide *;
    LoggedFits(env, s, op);
    LoggedFits(env, s, next);
    var e, e2 := Logged(env, s, op).value, Logged(env, s, next).value;
    LoggedDisks(env, d, s, op, 8);
    DanglingReopens(env, d, s, es, e);
    var bare := Disk(d.snapshot, d.log + Frame(LogFormat(env), env.codec.encode(e)));
    LoggedAfter(env, bare, s, next);
    LostBehindFrame(env, d, s, es, e, e2);
    RunTwo(env, d, s, Crashed(op, InAppend(8), []), Done(next));
    StepsTaken(env, d, s, op, next, bare);
  }

  /** What the crash leaves, and what a completed operation writes. */
  lemma LoggedDisks(env: Env, d: Disk, s: Store, op: Op, n: nat)
    requires Logged(env, s, op).Some? && Fits(env.codec.encode(Logged(env, s, op).value)) &&
             Possible(env, s, op, InAppend(n))
    ensures var record := EncodeRecord(LogFormat(env), env.codec.encode(Logged(env, s, op).value));
            n <= |record| && CrashDisk(env, d, s, op, InAppend(n)) == Disk(d.snapshot, d.log + record[..n])
  {
    hide EncodeRecord, Logged;
  }

  lemma LoggedAfter(env: Env, d: Disk, s: Store, op: Op)
    requires Logged(env, s, op).Some? && Fits(env.codec.encode(Logged(env, s, op).value)) && !op.SnapshotOp?
    ensures var record := EncodeRecord(LogFormat(env), env.codec.encode(Logged(env, s, op).value));
            DiskAfter(env, d, s, op) == Disk(d.snapshot, d.log + record) && Written(env, s, op) == record
  {
    hide EncodeRecord, Logged;
  }

  lemma StepsTaken(env: Env, d: Disk, s: Store, op: Op, next: Op, bare: Disk)
    requires Possible(env, s, op, InAppend(8)) && Open(env, CrashDisk(env, d, s, op, InAppend(8))) == Recovered(s, bare)
    ensures Step(env, Step(env, Running(d, s), Crashed(op, InAppend(8), [])), Done(next)) ==
              Running(DiskAfter(env, bare, s, next), After(env, s, next))
  {
    hide Open, After, DiskAfter, CrashDisk;
    assert Interrupted(env, CrashDisk(env, d, s, op, InAppend(8)), []) == CrashDisk(env, d, s, op, InAppend(8));
  }

  lemma DanglingReopens(env: Env, d: Disk, s: Store, es: seq<Entry>, e: Entry)
    requires Faithful(env.codec) && ConsistentBy(env, d, s, es) && Fits(env.codec.encode(e))
    requires 8 <= |EncodeRecord(LogFormat(env), env.codec.encode(e))|
    ensures Open(env, Disk(d.snapshot, d.log + EncodeRecord(LogFormat(env), env.codec.encode(e))[..8]))
            == Recovered(s, Disk(d.snapshot, d.log + Frame(LogFormat(env), env.codec.encode(e))))
  {
    hide Faithful, Scan, EncodeAll, EncodeRecord, Frame, Payloads, ApplyAll, AfterReplay;
    NonEmptyPayload(env, e);
    CutAppend(env, es, e, 8);
    PayloadsDecode(env, es);
  }

  lemma LostBehindFrame(env: Env, d: Disk, s: Store, es: seq<Entry>, e: Entry, e2: Entry)
    requires Faithful(env.codec) && ConsistentBy(env, d, s, es) && Fits(env.codec.encode(e)) &&
             Fits(env.codec.encode(e2))
    requires var lost, record := env.codec.encode(e), EncodeRecord(LogFormat(env), env.codec.encode(e2));
             |lost| <= |record| ==> env.crc(record[..|lost|]) != env.crc(lost)
    ensures var lost, record := env.codec.encode(e), EncodeRecord(LogFormat(env), env.codec.encode(e2));
            var r := Open(env, Disk(d.snapshot, d.log + Frame(LogFormat(env), lost) + record));
            (r.Recovered? ==> r.store == s) && (r.NotOpened? <==> |lost| <= |record|)
  {
    hide Faithful, Scan, EncodeAll, EncodeRecord, Frame, Payloads, ApplyAll, AfterReplay;
    var f := LogFormat(env);
    var lost, record := env.codec.encode(e), EncodeRecord(f, env.codec.encode(e2));
    var log := d.log + Frame(f, lost) + record;
    NonEmptyPayload(env, e);
    PayloadsDecode(env, es);
    assert log[8..] == EncodeAll(f, Payloads(env, es)) + Frame(f, lost) + record;
    DanglingLosesAppend(f, Accepts(env.codec), Payloads(env, es), lost, env.codec.encode(e2));
    OpenAfterCut(f, Payloads(env, es), |d.log|);
    assert d.log[..|d.log|] == d.log;
    HeaderOpens(d.log, log);
  }

  lemma HeaderOpens(a: Bytes, b: Bytes)
    requires |a| >= 8 && a <= b && OpenFile(a) == Usable(true, a)
    ensures OpenFile(b) == Usable(true, b)
  {
    assert b[..4] == a[..4] && b[4..6] == a[4..6];
  }

  lemma RunTwo(env: Env, d: Disk, s: Store, a: Event, b: Event)
    ensures Run(env, Running(d, s), [a, b]) == Step(env, Step(env, Running(d, s), a), b)
  {
    hide Step;
    assert [a, b][..1] == [a] && [a][..0] == [];
    assert Run(env, Running(d, s), []) == Running(d, s);
    assert Run(env, Running(d, s), [a]) == Step(env, Running(d, s), a);
  }
}
