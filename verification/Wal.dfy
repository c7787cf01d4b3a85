/**
 The write-ahead log file (internal/store/wal.go): record framing, replay and tail repair.

 The file is a byte sequence and the checksum an arbitrary function. A log either starts
 with the 8-byte file header and frames records as length, checksum, payload, or is a
 legacy log without file header that frames records as length, payload.
 */
module Wal {
  import opened Versions

  type Bytes = seq<Byte>

  type Word = w: int | 0 <= w < 0x1_0000_0000

  const FILE_HEADER: Bytes := [0x4D, 0x44, 0x57, 0x4C, 0, 1, 0, 0]
  const MAX_RECORD := 16 * 1024 * 1024

  datatype Format = Format(hasHeader: bool, crc: Bytes -> Word)

  function BigEndian(w: Word): (b: Bytes)
    ensures |b| == 4
  {
    [w / 0x100_0000, w / 0x1_0000 % 0x100, w / 0x100 % 0x100, w % 0x100]
  }

  function FromBigEndian(b: Bytes): Word
    requires |b| == 4
  {
    var b0: int, b1: int, b2: int, b3: int := b[0], b[1], b[2], b[3];
    b0 * 0x100_0000 + b1 * 0x1_0000 + b2 * 0x100 + b3
  }

  /** Words are read back as written, most significant byte first. */
  lemma BigEndianRoundTrip(w: Word)
    ensures FromBigEndian(BigEndian(w)) == w
    ensures var b := BigEndian(w);
            0x100_0000 * (b[0] as int) + 0x1_0000 * (b[1] as int) + 0x100 * (b[2] as int) + (b[3] as int) == w
  {
    var high, low: int := w / 0x1_0000, w % 0x1_0000;
    assert w == high * 0x1_0000 + low;
    assert w / 0x100 % 0x100 == low / 0x100 by {
      assert w / 0x100 == high * 0x100 + low / 0x100;
    }
    assert w % 0x100 == low % 0x100;
    assert w / 0x100_0000 == high / 0x100;
    assert w / 0x1_0000 % 0x100 == high % 0x100;
  }

  function Base(f: Format): Bytes {
    if f.hasHeader then FILE_HEADER else []
  }

  function FrameSize(f: Format): nat {
    if f.hasHeader then 8 else 4
  }

  predicate Fits(data: Bytes) {
    |data| <= MAX_RECORD
  }

  function Frame(f: Format, data: Bytes): (r: Bytes)
    requires Fits(data)
    ensures |r| == FrameSize(f)
  {
    if f.hasHeader then BigEndian(|data|) + BigEndian(f.crc(data)) else BigEndian(|data|)
  }

  function EncodeRecord(f: Format, data: Bytes): (r: Bytes)
    requires Fits(data)
    ensures |r| == FrameSize(f) + |data|
  {
    Frame(f, data) + data
  }

  /** The file header: the letters MDWL, version one in two bytes, and two bytes left at zero. */
  lemma FileHeaderIs()
    ensures |FILE_HEADER| == 8 && FromBigEndian(FILE_HEADER[..4]) == 0x4D44574C
    ensures forall i :: 0 <= i < 4 ==> FILE_HEADER[i] == "MDWL"[i] as int
    ensures 0x100 * (FILE_HEADER[4] as int) + (FILE_HEADER[5] as int) == 1 && FILE_HEADER[6..] == [0, 0]
  {
  }

  /** A record: its length, in logs with a file header its checksum, then the payload. */
  lemma RecordLayout(f: Format, data: Bytes)
    requires |data| <= 0x100_0000
    ensures Fits(data)
    ensures var r := EncodeRecord(f, data);
            && |r| >= 4 && FromBigEndian(r[..4]) == |data|
            && (f.hasHeader ==> |r| >= 8 && FromBigEndian(r[4..8]) == f.crc(data) && r[8..] == data)
            && (!f.hasHeader ==> r[4..] == data)
  {
    BigEndianRoundTrip(|data|);
    BigEndianRoundTrip(f.crc(data));
    var r := EncodeRecord(f, data);
    assert r[..4] == BigEndian(|data|);
    assert f.hasHeader ==> r[4..8] == BigEndian(f.crc(data));
  }

  predicate AllFit(records: seq<Bytes>) {
    forall r :: r in records ==> Fits(r)
  }

  function EncodeAll(f: Format, records: seq<Bytes>): Bytes
    requires AllFit(records)
  {
    if records == [] then [] else EncodeRecord(f, records[0]) + EncodeAll(f, records[1..])
  }

  function Encode(f: Format, records: seq<Bytes>): Bytes
    requires AllFit(records)
  {
    Base(f) + EncodeAll(f, records)
  }

  // ------------------------------------------------------------------ reading

  datatype ReadOutcome = Full | Eof | UnexpectedEof

  /** `io.ReadFull` of `n` bytes with `available` bytes left: end-of-file only when nothing could be read. */
  function ReadFull(available: nat, n: nat): ReadOutcome {
    if n <= available then Full
    else if available == 0 then Eof
    else UnexpectedEof
  }

  datatype RecordOutcome = Record(data: Bytes, size: nat) | CleanEnd | TornTail | Bad

  /** One record at the start of the unread bytes `b`. */
  function ReadRecord(f: Format, b: Bytes): (r: RecordOutcome)
    ensures r.Record? ==> 0 < FrameSize(f) <= r.size <= |b|
  {
    var n := FrameSize(f);
    match ReadFull(|b|, n)
    case Eof => CleanEnd
    case UnexpectedEof => TornTail
    case Full =>
      var length := FromBigEndian(b[..4]);
      if length > MAX_RECORD then Bad
      else
        match ReadFull(|b| - n, length)
        case Eof => CleanEnd
        case UnexpectedEof => TornTail
        case Full =>
          var data := b[n..n + length];
          if f.hasHeader && f.crc(data) != FromBigEndian(b[4..8]) then Bad
          else Record(data, n + length)
  }

  /** What counts as a record: all of it is there, it is not oversized, and the checksum, if any, is right. */
  lemma ReadRecordIff(f: Format, b: Bytes)
    ensures var n := if f.hasHeader then 8 else 4;
            && (ReadRecord(f, b).Record? <==>
                  && |b| >= n && FromBigEndian(b[..4]) <= 0x100_0000 && |b| - n >= FromBigEndian(b[..4])
                  && (f.hasHeader ==> f.crc(b[8..8 + FromBigEndian(b[..4])]) == FromBigEndian(b[4..8])))
            && (ReadRecord(f, b).Record? ==>
                  ReadRecord(f, b) == Record(b[n..n + FromBigEndian(b[..4])], n + FromBigEndian(b[..4])))
            && (ReadRecord(f, b).Bad? <==>
                  && |b| >= n
                  && (FromBigEndian(b[..4]) > 0x100_0000 ||
                      (f.hasHeader && |b| - n >= FromBigEndian(b[..4]) &&
                       f.crc(b[8..8 + FromBigEndian(b[..4])]) != FromBigEndian(b[4..8]))))
  {
    hide FromBigEndian;
  }

  datatype Outcome = Clean | Torn | Failed

  /** What a replay hands over, how many bytes those records occupy, and how the replay ends. */
  datatype Scanned = Scanned(records: seq<Bytes>, valid: nat, outcome: Outcome)

  function Scan(f: Format, accepts: Bytes -> bool, b: Bytes): (r: Scanned)
    ensures r.valid <= |b|
    decreases |b|
  {
    match ReadRecord(f, b)
    case CleanEnd => Scanned([], 0, Clean)
    case TornTail => Scanned([], 0, Torn)
    case Bad => Scanned([], 0, Failed)
    case Record(data, size) =>
      if !accepts(data) then Scanned([], 0, Failed)
      else
        var rest := Scan(f, accepts, b[size..]);
        Scanned([data] + rest.records, size + rest.valid, rest.outcome)
  }

  /** The file after a replay: a torn tail is cut off, anything else stays. */
  function AfterReplay(f: Format, accepts: Bytes -> bool, file: Bytes): Bytes
    requires |Base(f)| <= |file|
  {
    var r := Scan(f, accepts, file[|Base(f)|..]);
    if r.outcome == Torn then file[..|Base(f)| + r.valid] else file
  }

  // ------------------------------------------------------------------ cuts

  /** How many of `records` lie wholly inside the first `c` bytes of their encoding. */
  function Whole(f: Format, records: seq<Bytes>, c: nat): (k: nat)
    requires AllFit(records)
    ensures k <= |records|
  {
    if records == [] || c < FrameSize(f) + |records[0]| then 0
    else 1 + Whole(f, records[1..], c - FrameSize(f) - |records[0]|)
  }

  /** Bytes left after the last whole record. */
  function Left(f: Format, records: seq<Bytes>, c: nat): (n: nat)
    requires AllFit(records)
    ensures n <= c
  {
    if records == [] || c < FrameSize(f) + |records[0]| then c
    else Left(f, records[1..], c - FrameSize(f) - |records[0]|)
  }

  /** The cut falls exactly between the frame and the payload of a non-empty record. */
  predicate Dangling(f: Format, records: seq<Bytes>, c: nat)
    requires AllFit(records)
  {
    var k := Whole(f, records, c);
    k < |records| && Left(f, records, c) == FrameSize(f) && records[k] != []
  }

  lemma ReadEncoded(f: Format, data: Bytes, rest: Bytes)
    requires Fits(data)
    ensures ReadRecord(f, EncodeRecord(f, data) + rest) == Record(data, FrameSize(f) + |data|)
  {
    var b := EncodeRecord(f, data) + rest;
    BigEndianRoundTrip(|data|);
    BigEndianRoundTrip(f.crc(data));
    assert b[..4] == BigEndian(|data|);
    if f.hasHeader {
      assert b[4..8] == BigEndian(f.crc(data));
    }
    assert b[FrameSize(f)..FrameSize(f) + |data|] == data;
  }

  /** A record cut short reads as a clean end at its boundary and right after its frame, as a torn tail elsewhere. */
  lemma ReadCut(f: Format, data: Bytes, c: nat)
    requires Fits(data) && c < FrameSize(f) + |data|
    ensures ReadRecord(f, EncodeRecord(f, data)[..c]) ==
            if c == 0 || c == FrameSize(f) then CleanEnd else TornTail
  {
    var b := EncodeRecord(f, data)[..c];
    if c >= FrameSize(f) {
      BigEndianRoundTrip(|data|);
      assert b[..4] == BigEndian(|data|);
    }
  }

  lemma ReadNothing(f: Format)
    ensures ReadRecord(f, []) == CleanEnd
  {
  }

  lemma {:induction false} ScanCut(f: Format, accepts: Bytes -> bool, records: seq<Bytes>, c: nat)
    requires AllFit(records) && (forall r :: r in records ==> accepts(r))
    requires c <= |EncodeAll(f, records)|
    ensures var k, n := Whole(f, records, c), Left(f, records, c);
            Scan(f, accepts, EncodeAll(f, records)[..c]) ==
            Scanned(records[..k], c - n, if n == 0 || Dangling(f, records, c) then Clean else Torn)
    ensures Whole(f, records, c) == |records| ==> Left(f, records, c) == 0
    decreases |records|
  {
    hide *;
    if records == [] {
      ScanCutNone(f, accepts, c);
    } else if c < FrameSize(f) + |records[0]| {
      ScanCutInside(f, accepts, records, c);
    } else {
      CutBehind(f, records, c);
      assert records[0] in records;
      ScanCut(f, accepts, records[1..], c - FrameSize(f) - |records[0]|);
      ScanFirst(f, accepts, records[0], EncodeAll(f, records[1..])[..c - FrameSize(f) - |records[0]|]);
      CutStep(f, records, c);
    }
  }

  lemma ScanCutNone(f: Format, accepts: Bytes -> bool, c: nat)
    requires c <= |EncodeAll(f, [])|
    ensures Scan(f, accepts, EncodeAll(f, [])[..c]) == Scanned([], 0, Clean)
    ensures c == 0 && Whole(f, [], c) == 0 && Left(f, [], c) == 0
  {
    assert EncodeAll(f, [])[..c] == [];
    ReadNothing(f);
  }

  /** A cut inside the first record. */
  lemma ScanCutInside(f: Format, accepts: Bytes -> bool, records: seq<Bytes>, c: nat)
    requires AllFit(records) && records != [] && c < FrameSize(f) + |records[0]| && c <= |EncodeAll(f, records)|
    ensures Whole(f, records, c) == 0 && Left(f, records, c) == c
    ensures Scan(f, accepts, EncodeAll(f, records)[..c]) ==
              Scanned([], 0, if c == 0 || Dangling(f, records, c) then Clean else Torn)
  {
    hide ReadRecord, EncodeRecord;
    assert EncodeAll(f, records)[..c] == EncodeRecord(f, records[0])[..c];
    hide EncodeAll;
    ReadCut(f, records[0], c);
  }

  /** A cut behind the first record. */
  lemma CutBehind(f: Format, records: seq<Bytes>, c: nat)
    requires AllFit(records) && records != [] && FrameSize(f) + |records[0]| <= c <= |EncodeAll(f, records)|
    ensures Fits(records[0]) && AllFit(records[1..])
    ensures var size := FrameSize(f) + |records[0]|;
            && c - size <= |EncodeAll(f, records[1..])|
            && EncodeAll(f, records)[..c] == EncodeRecord(f, records[0]) + EncodeAll(f, records[1..])[..c - size]
            && Whole(f, records, c) == 1 + Whole(f, records[1..], c - size) &&
               Left(f, records, c) == Left(f, records[1..], c - size)
  {
    hide EncodeRecord;
  }

  /** Scanning a whole record and then anything hands it over and goes on behind it. */
  lemma ScanFirst(f: Format, accepts: Bytes -> bool, data: Bytes, rest: Bytes)
    requires Fits(data) && accepts(data)
    ensures var r := Scan(f, accepts, rest);
            Scan(f, accepts, EncodeRecord(f, data) + rest) ==
              Scanned([data] + r.records, FrameSize(f) + |data| + r.valid, r.outcome)
  {
    hide ReadRecord, EncodeRecord;
    ReadEncoded(f, data, rest);
    assert (EncodeRecord(f, data) + rest)[FrameSize(f) + |data|..] == rest;
  }

  lemma CutStep(f: Format, records: seq<Bytes>, c: nat)
    requires AllFit(records) && records != [] && c >= FrameSize(f) + |records[0]|
    ensures var k := Whole(f, records[1..], c - FrameSize(f) - |records[0]|);
            records[..k + 1] == [records[0]] + records[1..][..k]
    ensures Dangling(f, records, c) <==> Dangling(f, records[1..], c - FrameSize(f) - |records[0]|)
  {
  }

  lemma {:induction false} EncodeAppend(f: Format, a: seq<Bytes>, b: seq<Bytes>)
    requires AllFit(a) && AllFit(b)
    ensures AllFit(a + b) && EncodeAll(f, a + b) == EncodeAll(f, a) + EncodeAll(f, b)
    decreases |a|
  {
    if a == [] {
      assert a + b == b;
    } else {
      assert (a + b)[1..] == a[1..] + b;
      EncodeAppend(f, a[1..], b);
    }
  }

  lemma SliceBehind(a: Bytes, b: Bytes, i: nat, j: nat)
    requires |a| <= i <= j <= |a + b|
    ensures (a + b)[i..j] == b[i - |a|..j - |a|]
    ensures (a + b)[..i] == a + b[..i - |a|]
  {
  }

  /** The whole records before a cut occupy exactly the bytes before what is left. */
  lemma {:induction false} WholeBytes(f: Format, records: seq<Bytes>, c: nat)
    requires AllFit(records) && c <= |EncodeAll(f, records)|
    ensures var k, n := Whole(f, records, c), Left(f, records, c);
            AllFit(records[..k]) && EncodeAll(f, records[..k]) == EncodeAll(f, records)[..c - n]
    ensures var k, n := Whole(f, records, c), Left(f, records, c);
            k < |records| ==>
              n < FrameSize(f) + |records[k]| && EncodeAll(f, records)[c - n..c] == EncodeRecord(f, records[k])[..n]
    decreases |records|
  {
    hide *;
    if records == [] {
      WholeNone(f, c);
    } else if c < FrameSize(f) + |records[0]| {
      WholeInside(f, records, c);
    } else {
      CutBehind(f, records, c);
      WholeBytes(f, records[1..], c - FrameSize(f) - |records[0]|);
      WholeBehind(f, records, c);
    }
  }

  lemma WholeNone(f: Format, c: nat)
    requires c <= |EncodeAll(f, [])|
    ensures Whole(f, [], c) == 0 && Left(f, [], c) == 0 && c == 0 && EncodeAll(f, []) == []
  {
  }

  lemma WholeInside(f: Format, records: seq<Bytes>, c: nat)
    requires AllFit(records) && records != [] && c < FrameSize(f) + |records[0]| && c <= |EncodeAll(f, records)|
    ensures Whole(f, records, c) == 0 && Left(f, records, c) == c && Fits(records[0])
    ensures AllFit(records[..0]) && EncodeAll(f, records[..0]) == []
    ensures EncodeAll(f, records)[..c] == EncodeRecord(f, records[0])[..c]
  {
    hide EncodeRecord;
  }

  /** What holds behind the first record holds with it in front. */
  lemma WholeBehind(f: Format, records: seq<Bytes>, c: nat)
    requires AllFit(records) && records != [] && FrameSize(f) + |records[0]| <= c <= |EncodeAll(f, records)|
    requires var rest, d := records[1..], c - FrameSize(f) - |records[0]|;
             var k, n := Whole(f, rest, d), Left(f, rest, d);
             && AllFit(rest) && d <= |EncodeAll(f, rest)| && n <= d && k <= |rest|
             && AllFit(rest[..k]) && EncodeAll(f, rest[..k]) == EncodeAll(f, rest)[..d - n]
             && (k < |rest| ==>
                  n < FrameSize(f) + |rest[k]| && EncodeAll(f, rest)[d - n..d] == EncodeRecord(f, rest[k])[..n])
    ensures var k, n := Whole(f, records, c), Left(f, records, c);
            && AllFit(records[..k]) && EncodeAll(f, records[..k]) == EncodeAll(f, records)[..c - n]
            && (k < |records| ==>
                 n < FrameSize(f) + |records[k]| && EncodeAll(f, records)[c - n..c] == EncodeRecord(f, records[k])[..n])
  {
    hide *;
    EncodeCons(f, records);
    var first, rest := EncodeRecord(f, records[0]), EncodeAll(f, records[1..]);
    var size := FrameSize(f) + |records[0]|;
    var k, n := Whole(f, records[1..], c - size), Left(f, records[1..], c - size);
    CutBehind(f, records, c);
    CutStep(f, records, c);
    assert records[..k + 1][1..] == records[1..][..k] && records[..k + 1][0] == records[0];
    FitPrefix(records, k + 1);
    EncodeCons(f, records[..k + 1]);
    SliceBehind(first, rest, c - n, c);
  }

  lemma FitPrefix(records: seq<Bytes>, k: nat)
    requires AllFit(records) && k <= |records|
    ensures AllFit(records[..k])
  {
  }

  lemma EncodeCons(f: Format, records: seq<Bytes>)
    requires AllFit(records) && records != []
    ensures Fits(records[0]) && AllFit(records[1..]) &&
            EncodeAll(f, records) == EncodeRecord(f, records[0]) + EncodeAll(f, records[1..])
  {
  }

  /** A cut file without and with its last `n` bytes. */
  lemma CutFile(base: Bytes, all: Bytes, c: nat, n: nat)
    requires n <= c <= |all|
    ensures (base + all)[..|base| + c] == base + all[..c]
    ensures (base + all[..c])[|base|..] == all[..c]
    ensures (base + all[..c])[..|base| + c - n] == base + all[..c - n]
    ensures base + all[..c] == base + all[..c - n] + all[c - n..c]
  {
  }

  /**
   Torn-tail replay. For every record list and every cut of the file at or after the file header,
   replay hands over exactly the records wholly inside the cut and does not fail; it leaves exactly
   their encoding unless the cut dangles, and in that case leaves the payload-less frame behind.
   */
  lemma TornTailReplay(f: Format, accepts: Bytes -> bool, records: seq<Bytes>, c: nat)
    requires AllFit(records) && (forall r :: r in records ==> accepts(r))
    requires c <= |EncodeAll(f, records)|
    ensures var file := Encode(f, records)[..|Base(f)| + c];
            var k := Whole(f, records, c);
            && AllFit(records[..k])
            && Scan(f, accepts, file[|Base(f)|..]).records == records[..k]
            && Scan(f, accepts, file[|Base(f)|..]).outcome != Failed
            && (AfterReplay(f, accepts, file) == Encode(f, records[..k]) <==> !Dangling(f, records, c))
            && (Dangling(f, records, c) ==>
                 AfterReplay(f, accepts, file) == Encode(f, records[..k]) + Frame(f, records[k]))
  {
    hide Scan, EncodeAll, Whole, Left, Frame, EncodeRecord, Base;
    var k, n := Whole(f, records, c), Left(f, records, c);
    var all := EncodeAll(f, records);
    CutFile(Base(f), all, c, n);
    ScanCut(f, accepts, records, c);
    WholeBytes(f, records, c);
    if Dangling(f, records, c) {
      FrameIsPrefix(f, records[k]);
    }
  }

  lemma FrameIsPrefix(f: Format, data: Bytes)
    requires Fits(data)
    ensures EncodeRecord(f, data)[..FrameSize(f)] == Frame(f, data)
  {
  }

  /** Round trip: replaying a well-formed log hands over every record and leaves the file alone. */
  lemma ReplayRoundTrip(f: Format, accepts: Bytes -> bool, records: seq<Bytes>)
    requires AllFit(records) && (forall r :: r in records ==> accepts(r))
    ensures Scan(f, accepts, EncodeAll(f, records)) == Scanned(records, |EncodeAll(f, records)|, Clean)
  {
    var c := |EncodeAll(f, records)|;
    assert EncodeAll(f, records)[..c] == EncodeAll(f, records);
    WholeAll(f, records);
    ScanCut(f, accepts, records, c);
    assert records[..|records|] == records;
  }

  lemma {:induction false} WholeAll(f: Format, records: seq<Bytes>)
    requires AllFit(records)
    ensures Whole(f, records, |EncodeAll(f, records)|) == |records|
    ensures Left(f, records, |EncodeAll(f, records)|) == 0
    decreases |records|
  {
    if records != [] {
      WholeAll(f, records[1..]);
    }
  }

  /**
   What the dangling frame costs: a record appended behind it is never replayed. The next replay
   stops at the dangling frame, either cutting the new record off as a torn tail or failing on the
   checksum (unless the swallowed bytes happen to have the dangling checksum).
   */
  lemma DanglingLosesAppend(f: Format, accepts: Bytes -> bool, kept: seq<Bytes>, lost: Bytes, data: Bytes)
    requires f.hasHeader && AllFit(kept) && (forall r :: r in kept ==> accepts(r))
    requires Fits(lost) && lost != [] && Fits(data)
    requires |lost| <= |EncodeRecord(f, data)| ==> f.crc(EncodeRecord(f, data)[..|lost|]) != f.crc(lost)
    ensures var r := Scan(f, accepts, EncodeAll(f, kept) + Frame(f, lost) + EncodeRecord(f, data));
            && r.records == kept
            && r.outcome == if |lost| > |EncodeRecord(f, data)| then Torn else Failed
  {
    var tail := Frame(f, lost) + EncodeRecord(f, data);
    ReadBehindDangling(f, lost, data);
    hide ReadRecord, EncodeRecord, Frame, EncodeAll;
    assert Scan(f, accepts, tail) == Scanned([], 0, if |lost| > |EncodeRecord(f, data)| then Torn else Failed);
    hide Scan;
    ConcatAssociative(EncodeAll(f, kept), Frame(f, lost), EncodeRecord(f, data));
    ScanThrough(f, accepts, kept, tail);
    assert kept + [] == kept;
  }

  lemma ConcatAssociative(a: Bytes, b: Bytes, c: Bytes)
    ensures a + b + c == a + (b + c)
  {
  }

  lemma ReadBehindDangling(f: Format, lost: Bytes, data: Bytes)
    requires f.hasHeader && Fits(lost) && lost != [] && Fits(data)
    requires |lost| <= |EncodeRecord(f, data)| ==> f.crc(EncodeRecord(f, data)[..|lost|]) != f.crc(lost)
    ensures ReadRecord(f, Frame(f, lost) + EncodeRecord(f, data)) == if |lost| > |EncodeRecord(f, data)| then TornTail
            else Bad
  {
    var next := EncodeRecord(f, data);
    var tail := Frame(f, lost) + next;
    BigEndianRoundTrip(|lost|);
    BigEndianRoundTrip(f.crc(lost));
    assert tail[..4] == BigEndian(|lost|) && tail[4..8] == BigEndian(f.crc(lost));
    if |lost| <= |next| {
      assert tail[8..8 + |lost|] == next[..|lost|];
    }
  }

  /** Scanning whole records followed by anything hands the records over and goes on behind them. */
  lemma {:induction false} ScanThrough(f: Format, accepts: Bytes -> bool, records: seq<Bytes>, tail: Bytes)
    requires AllFit(records) && (forall r :: r in records ==> accepts(r))
    ensures var all, r := EncodeAll(f, records), Scan(f, accepts, tail);
            Scan(f, accepts, all + tail) == Scanned(records + r.records, |all| + r.valid, r.outcome)
    decreases |records|
  {
    hide ReadRecord, EncodeRecord;
    if records == [] {
      assert EncodeAll(f, records) + tail == tail;
    } else {
      var first, rest := EncodeRecord(f, records[0]), EncodeAll(f, records[1..]);
      assert EncodeAll(f, records) + tail == first + (rest + tail);
      ReadEncoded(f, records[0], rest + tail);
      assert (first + (rest + tail))[|first|..] == rest + tail;
      ScanThrough(f, accepts, records[1..], tail);
      hide EncodeAll;
      assert [records[0]] + (records[1..] + Scan(f, accepts, tail).records) == records + Scan(f, accepts, tail).records;
    }
  }

  lemma ReadPrefix(f: Format, b: Bytes, n: nat)
    requires ReadRecord(f, b).Record? && ReadRecord(f, b).size <= n <= |b|
    ensures ReadRecord(f, b[..n]) == ReadRecord(f, b)
  {
    var k := FrameSize(f);
    SameSlice(b, n, 0, 4);
    var length := FromBigEndian(b[..4]);
    SameSlice(b, n, k, k + length);
    if f.hasHeader {
      SameSlice(b, n, 4, 8);
    }
  }

  lemma SameSlice(b: Bytes, n: nat, lo: nat, hi: nat)
    requires lo <= hi <= n <= |b|
    ensures b[..n][lo..hi] == b[lo..hi]
  {
  }

  /**
   The bytes a scan has handed over scan to the same records and end
   cleanly: repairing a tail is done once and for all.
   */
  lemma {:induction false} ScanValid(f: Format, accepts: Bytes -> bool, b: Bytes)
    requires Scan(f, accepts, b).outcome != Failed
    ensures var r := Scan(f, accepts, b); Scan(f, accepts, b[..r.valid]) == Scanned(r.records, r.valid, Clean)
    decreases |b|
  {
    hide ReadRecord;
    var r, read := Scan(f, accepts, b), ReadRecord(f, b);
    if read.Record? {
      ScanValid(f, accepts, b[read.size..]);
      ReadPrefix(f, b, r.valid);
      assert b[..r.valid][read.size..] == b[read.size..][..r.valid - read.size];
    } else {
      ReadNothing(f);
      assert b[..0] == [];
    }
  }

  // ------------------------------------------------------------------ opening

  datatype Opened = Usable(hasHeader: bool, file: Bytes) | Refused

  /** `OpenWAL` on existing file contents. An empty file gets a header; a short one is refused. */
  function OpenFile(file: Bytes): (r: Opened)
    ensures r.Usable? && r.hasHeader ==> FILE_HEADER[..6] <= r.file && |r.file| >= 8
  {
    if |file| == 0 then Usable(true, FILE_HEADER)
    else if |file| < 8 then Refused
    else if file[..4] != FILE_HEADER[..4] then Usable(false, file)
    else if file[4..6] != FILE_HEADER[4..6] then Refused
    else
      assert file[..6] == file[..4] + file[4..6];
      Usable(true, file)
  }

  /** A file is refused if it is too short for a header, or has the right letters and another version. */
  lemma OpenFileIff(file: Bytes)
    ensures var headed := |file| >= 8 && FromBigEndian(file[..4]) == 0x4D44574C;
            && (OpenFile(file).Refused? <==>
                  0 < |file| < 8 || (headed && 0x100 * (file[4] as int) + (file[5] as int) != 1))
            && (OpenFile(file).Usable? ==>
                  && (OpenFile(file).hasHeader <==> file == [] || headed)
                  && OpenFile(file).file == if file == [] then FILE_HEADER else file)
  {
    if |file| >= 8 {
      SameWord(file[..4], FILE_HEADER[..4]);
      assert file[4..6] == FILE_HEADER[4..6] <==> file[4] == 0 && file[5] == 1 by {
        assert file[4..6] == [file[4], file[5]] && FILE_HEADER[4..6] == [0, 1];
      }
    }
  }

  lemma SameWord(a: Bytes, b: Bytes)
    requires |a| == 4 && |b| == 4
    ensures a == b <==> FromBigEndian(a) == FromBigEndian(b)
  {
    if FromBigEndian(a) == FromBigEndian(b) {
      assert a[0] == b[0];
      assert a[1] == b[1];
      assert a[2] == b[2];
    }
  }

  /** Which cuts of a headed log the next start can open: none inside the file header except the empty file. */
  lemma OpenAfterCut(f: Format, records: seq<Bytes>, c: nat)
    requires f.hasHeader && AllFit(records) && c <= |Encode(f, records)|
    ensures OpenFile(Encode(f, records)[..c]).Usable? <==> c == 0 || c >= 8
    ensures c >= 8 ==> OpenFile(Encode(f, records)[..c]) == Usable(true, Encode(f, records)[..c])
  {
    var b := Encode(f, records)[..c];
    if c >= 8 {
      assert b[..4] == FILE_HEADER[..4] && b[4..6] == FILE_HEADER[4..6];
    }
  }

  /** A scan from `base` has handed over `records` and goes on at `offset`. */
  ghost predicate SoFar(f: Format, accepts: Bytes -> bool, file: Bytes, base: nat, offset: nat, records: seq<Bytes>) {
    && base <= offset <= |file|
    && var rest := Scan(f, accepts, file[offset..]);
       Scan(f, accepts, file[base..]) == Scanned(records + rest.records, offset - base + rest.valid, rest.outcome)
  }

  lemma ScanStarts(f: Format, accepts: Bytes -> bool, file: Bytes, base: nat)
    requires base <= |file|
    ensures SoFar(f, accepts, file, base, base, [])
  {
    hide Scan;
    assert [] + Scan(f, accepts, file[base..]).records == Scan(f, accepts, file[base..]).records;
  }

  lemma ScanGoesOn(f: Format, accepts: Bytes -> bool, file: Bytes, base: nat, offset: nat, records: seq<Bytes>)
    requires SoFar(f, accepts, file, base, offset, records)
    requires var read := ReadRecord(f, file[offset..]); read.Record? && accepts(read.data)
    ensures var read := ReadRecord(f, file[offset..]);
            SoFar(f, accepts, file, base, offset + read.size, records + [read.data])
  {
    hide ReadRecord;
    var read := ReadRecord(f, file[offset..]);
    assert file[offset..][read.size..] == file[offset + read.size..];
    var rest := Scan(f, accepts, file[offset + read.size..]);
    assert Scan(f, accepts, file[offset..]) ==
      Scanned([read.data] + rest.records, read.size + rest.valid, rest.outcome);
    hide Scan;
    assert records + ([read.data] + rest.records) == records + [read.data] + rest.records;
  }

  lemma ScanStops(f: Format, accepts: Bytes -> bool, file: Bytes, base: nat, offset: nat, records: seq<Bytes>)
    requires SoFar(f, accepts, file, base, offset, records)
    requires var read := ReadRecord(f, file[offset..]); read.Record? ==> !accepts(read.data)
    ensures var read := ReadRecord(f, file[offset..]);
            Scan(f, accepts, file[base..])
            == Scanned(records, offset - base, if read.CleanEnd? then Clean else if read.TornTail? then Torn
            else Failed)
  {
    hide ReadRecord;
    assert records + [] == records;
  }

  class WAL {
    const crc: Bytes -> Word
    var file: Bytes
    var hasHeader: bool

    function Layout(): Format
      reads this
    {
      Format(hasHeader, crc)
    }

    ghost predicate Valid()
      reads this
    {
      hasHeader ==> |file| >= |FILE_HEADER|
    }

    constructor (crc: Bytes -> Word, file: Bytes, hasHeader: bool)
      requires hasHeader ==> |file| >= |FILE_HEADER|
      ensures Valid() && this.crc == crc && this.file == file && this.hasHeader == hasHeader
    {
      this.crc, this.file, this.hasHeader := crc, file, hasHeader;
    }

    /** Refuses oversized payloads; otherwise the log grows by exactly one encoded record. */
    method Append(data: Bytes) returns (ok: bool)
      requires Valid()
      modifies this`file
      ensures Valid() && ok == Fits(data)
      ensures ok <==> |data| <= 0x100_0000
      ensures file == if ok then old(file) + EncodeRecord(Layout(), data) else old(file)
    {
      if |data| > MAX_RECORD {
        return false;
      }
      if hasHeader {
        file := file + (BigEndian(|data|) + BigEndian(crc(data)));
      } else {
        file := file + BigEndian(|data|);
      }
      file := file + data;
      return true;
    }

    /** Replays from behind the file header; `accepts` stands for the callback's verdict on a record. */
    method Replay(accepts: Bytes -> bool) returns (records: seq<Bytes>, repaired: bool, ok: bool)
      requires Valid()
      modifies this`file
      ensures Valid()
      ensures var r := Scan(Layout(), accepts, old(file)[|Base(Layout())|..]);
              records == r.records && repaired == (r.outcome == Torn) && ok == (r.outcome != Failed)
      ensures file == AfterReplay(Layout(), accepts, old(file))
    {
      hide ReadRecord, Scan, SoFar;
      var base := if hasHeader then 8 else 0;
      var offset := base;
      records := [];
      ScanStarts(Layout(), accepts, file, base);
      while true
        invariant base <= offset <= |file| && file == old(file)
        invariant SoFar(Layout(), accepts, file, base, offset, records)
        decreases |file| - offset
      {
        var read := ReadRecord(Layout(), file[offset..]);
        match read {
          case CleanEnd =>
            ScanStops(Layout(), accepts, file, base, offset, records);
            return records, false, true;
          case TornTail =>
            ScanStops(Layout(), accepts, file, base, offset, records);
            file := file[..offset];
            return records, true, true;
          case Bad =>
            ScanStops(Layout(), accepts, file, base, offset, records);
            return records, false, false;
          case Record(data, size) =>
            if !accepts(data) {
              ScanStops(Layout(), accepts, file, base, offset, records);
              return records, false, false;
            }
            ScanGoesOn(Layout(), accepts, file, base, offset, records);
            records := records + [data];
            offset := offset + size;
        }
      }
    }

    method Truncate()
      modifies this
      ensures Valid() && hasHeader && file == FILE_HEADER
    {
      file := [];
      file := file + FILE_HEADER;
      hasHeader := true;
    }

    /** Bytes the records occupy. */
    method Size() returns (n: int)
      requires Valid()
      ensures n == |file| - |Base(Layout())|
    {
      n := |file|;
      if hasHeader {
        n := n - 8;
      }
      if n < 0 {
        n := 0;
      }
    }
  }
}
