/** The blocks of a save set as they are written: sealed data blocks, and each group's redundancy block. */
module SaveSetStream {
  import opened Bytes
  import opened Crc
  import opened Blocks

  /** How a save set is laid out (a Writer's fixed fields). */
  datatype Layout = Layout(blockSize: nat, group: nat, crc: bool, opSys: uint16, name: bytes)

  predicate ValidLayout(l: Layout) {
    MinBlockSize <= l.blockSize <= MaxBlockSize
  }

  function Flags(l: Layout): uint32 {
    if l.crc then 0 else FlagNoCRC
  }

  function Number(n: nat): uint32 {
    n % 0x1_0000_0000
  }

  /** A record, and the index of the file it was written for: -1 for the summary. */
  datatype Tagged = Tagged(owner: int, rec: Record)

  /** A data block: the file named in its header, its records, and the files whose last record is in it. */
  datatype DataBlock = DataBlock(current: CurrentFile, records: seq<Tagged>, done: seq<bytes>)

  function Recs(ts: seq<Tagged>): (rs: seq<Record>)
    ensures |rs| == |ts|
  {
    seq(|ts|, i requires 0 <= i < |ts| => ts[i].rec)
  }

  /** Where the next record goes. */
  function At(ts: seq<Tagged>): nat {
    HeaderSize + |AllRecordBytes(Recs(ts))|
  }

  /** The records leave room for the null record that ends the block. */
  predicate Fits(l: Layout, ts: seq<Tagged>) {
    At(ts) + RecordHeaderSize <= l.blockSize && AllWritable(Recs(ts))
  }

  // ---- What a block's bytes are ----

  function FreshBytes(l: Layout, number: nat, c: CurrentFile): (r: bytes)
    requires ValidLayout(l)
    ensures |r| == l.blockSize
  {
    WriteHeader(Zeros(l.blockSize), l.opSys, ApplicationData, Number(number), l.blockSize, Flags(l), l.name, c)
  }

  /** A block still being filled. */
  function OpenBytes(l: Layout, number: nat, c: CurrentFile, ts: seq<Tagged>): (r: bytes)
    requires ValidLayout(l) && At(ts) <= l.blockSize
    ensures |r| == l.blockSize
  {
    Put(FreshBytes(l, number, c), HeaderSize, AllRecordBytes(Recs(ts)))
  }

  /** block ended by a null record at offset at. */
  function Nulled(block: bytes, at: nat): (r: bytes)
    requires at + RecordHeaderSize <= |block| < 0x1_0000
    ensures |r| == |block|
  {
    PutWord(PutWord(block, at, |block| - at - RecordHeaderSize), at + 2, RecordNull)
  }

  function DataBytes(l: Layout, number: nat, b: DataBlock): (r: bytes)
    requires ValidLayout(l) && Fits(l, b.records)
    ensures |r| == l.blockSize
  {
    Seal(Nulled(OpenBytes(l, number, b.current, b.records), At(b.records)), l.crc)
  }

  function ParityBytes(l: Layout, number: nat, group: seq<bytes>): (r: bytes)
    requires ValidLayout(l) && AllSized(group, l.blockSize)
    ensures |r| == l.blockSize
  {
    Seal(Stamp(XorAll(group, l.blockSize), l.opSys, SubsystemBackup, ApplicationXOR, Number(number), Flags(l)), l.crc)
  }

  // ---- What a reader finds in a data block ----

  lemma NulledBytes(block: bytes, at: nat)
    requires at + RecordHeaderSize <= |block| < 0x1_0000
    ensures Word(Nulled(block, at), at + 2) == RecordNull
    ensures forall i :: 0 <= i < |block| && !(at <= i < at + 4) ==> Nulled(block, at)[i] == block[i]
  {
    WordOfPut(PutWord(block, at, |block| - at - RecordHeaderSize), at + 2, RecordNull);
    hide LE;
  }

  /** Up to the checks, a data block is its header, then its records, then a null record. */
  ghost predicate Carries(r: bytes, h: bytes, records: bytes) {
    && |r| == |h| && HeaderSize + |records| + RecordHeaderSize <= |r|
    && (forall i :: 0 <= i < CrcAt || CrcAt + 4 <= i < ChecksumAt ==> r[i] == h[i])
    && Field(r, HeaderSize, |records|) == records && Word(r, HeaderSize + |records| + 2) == RecordNull
  }

  lemma DataBytesAre(l: Layout, number: nat, b: DataBlock)
    requires ValidLayout(l) && Fits(l, b.records)
    ensures Carries(DataBytes(l, number, b), FreshBytes(l, number, b.current), AllRecordBytes(Recs(b.records)))
  {
    hide Seal, Nulled, FreshBytes, AllRecordBytes, AllWritable, Recs, Carries;
    var h, records := FreshBytes(l, number, b.current), AllRecordBytes(Recs(b.records));
    var o := Put(h, HeaderSize, records);
    EndedBytes(h, records, o, Nulled(o, HeaderSize + |records|), l.crc);
  }

  lemma EndedBytes(h: bytes, records: bytes, o: bytes, z: bytes, crc: bool)
    requires HeaderSize + |records| + RecordHeaderSize <= |h| < 0x1_0000
    requires o == Put(h, HeaderSize, records) && z == Nulled(o, HeaderSize + |records|)
    ensures Carries(Seal(z, crc), h, records)
  {
    var at := HeaderSize + |records|;
    hide Seal, Nulled, Word, AgreeOffChecks, Field, Put;
    NulledBytes(o, at);
    FieldOfPut(h, HeaderSize, records, HeaderSize, |records|);
    SealAgrees(z, crc);
    SealedBytes(o, z, Seal(z, crc), at);
    assert forall i :: 0 <= i < HeaderSize ==> o[i] == h[i];
  }

  lemma SealedBytes(o: bytes, z: bytes, r: bytes, at: nat)
    requires HeaderSize <= at && at + RecordHeaderSize <= |o| == |z| && AgreeOffChecks(r, z)
    requires forall i :: 0 <= i < |o| && !(at <= i < at + 4) ==> z[i] == o[i]
    ensures forall i :: 0 <= i < CrcAt || CrcAt + 4 <= i < ChecksumAt ==> r[i] == o[i]
    ensures Field(r, HeaderSize, at - HeaderSize) == Field(o, HeaderSize, at - HeaderSize)
    ensures Word(r, at + 2) == Word(z, at + 2)
  {
    hide Word, Field;
    SameField(r, o, HeaderSize, at - HeaderSize);
    SameWord(r, z, at + 2);
  }

  lemma DataRecords(l: Layout, number: nat, b: DataBlock)
    requires ValidLayout(l) && Fits(l, b.records)
    ensures RecordsFrom(DataBytes(l, number, b), HeaderSize) == Parsed(PaddedRecords(Recs(b.records)), true)
  {
    hide DataBytes, FreshBytes, RecordsFrom, AllRecordBytes, PaddedRecords, Recs, Word;
    DataBytesAre(l, number, b);
    RecordsReadBack(DataBytes(l, number, b), HeaderSize, Recs(b.records));
  }

  lemma DataHeader(l: Layout, number: nat, b: DataBlock)
    requires ValidLayout(l) && Fits(l, b.records)
    ensures var h := ParseHeader(DataBytes(l, number, b));
            && h.size == HeaderSize && h.opSys == l.opSys && h.subsystem == SubsystemBackup
            && h.application == ApplicationData
            && h.number == Number(number) && h.blockSize == l.blockSize && h.flags == Flags(l)
            && h.saveSetName == Cut(l.name, 32) && h.current == Named(b.current)
  {
    HeaderRoundTrip(Zeros(l.blockSize), l.opSys, ApplicationData, Number(number), l.blockSize, Flags(l), l.name,
      b.current);
    hide DataBytes, AllRecordBytes, WriteHeader, Named, Cut, Flags, Recs, Fits;
    DataBytesAre(l, number, b);
    SameHeader(DataBytes(l, number, b), FreshBytes(l, number, b.current));
  }

  lemma SameHeader(a: bytes, b: bytes)
    requires |a| == |b| >= HeaderSize
    requires forall i :: 0 <= i < CrcAt || CrcAt + 4 <= i < ChecksumAt ==> a[i] == b[i]
    ensures ParseHeader(a).(crc := 0, checksum := 0) == ParseHeader(b).(crc := 0, checksum := 0)
  {
    hide Word, Long, Counted;
    SameWord(a, b, 0);
    SameWord(a, b, 2);
    SameWord(a, b, 4);
    SameWord(a, b, 6);
    SameLong(a, b, 8);
    SameWord(a, b, 32);
    SameWord(a, b, 34);
    SameLong(a, b, 40);
    SameLong(a, b, 44);
    SameField(a, b, 48, 32);
    SameCurrent(a, b);
  }

  lemma SameCurrent(a: bytes, b: bytes)
    requires |a| == |b| >= HeaderSize
    requires forall i :: CrcAt + 4 <= i < ChecksumAt ==> a[i] == b[i]
    ensures ParseCurrent(a) == ParseCurrent(b)
  {
    hide Word, Long, Counted;
    SameWord(a, b, 80);
    SameWord(a, b, 82);
    SameWord(a, b, 84);
    SameWord(a, b, 86);
    SameWord(a, b, 88);
    SameWord(a, b, 90);
    SameField(a, b, 92, 128);
    SameWord(a, b, 222);
    SameWord(a, b, 226);
    SameLong(a, b, 228);
  }

  lemma FlagsSay(l: Layout)
    ensures HasCRC(Flags(l)) == l.crc
  {
  }

  lemma DataFlags(l: Layout, number: nat, b: DataBlock)
    requires ValidLayout(l) && Fits(l, b.records)
    ensures HasCRC(Long(DataBytes(l, number, b), 44)) == l.crc
  {
    FlagsSay(l);
    hide DataBytes, HasCRC, Flags, Named, Cut, Fits, Word, Counted, ParseCurrent;
    DataHeader(l, number, b);
  }

  /** A data block passes its checks, and sealing it again changes nothing. */
  lemma DataIntact(l: Layout, number: nat, b: DataBlock, checkCRC: bool)
    requires ValidLayout(l) && Fits(l, b.records)
    ensures Intact(DataBytes(l, number, b), checkCRC)
    ensures Seal(DataBytes(l, number, b), l.crc) == DataBytes(l, number, b)
  {
    var z := Nulled(OpenBytes(l, number, b.current, b.records), At(b.records));
    DataFlags(l, number, b);
    hide OpenBytes, Nulled, Seal, HasCRC, Intact, AgreeOffChecks, Fits, Long, Recs, AllRecordBytes;
    SealAgrees(z, l.crc);
    OffChecks44(Seal(z, l.crc), z);
    SealIntact(z, l.crc, checkCRC);
    SealIgnoresChecks(Seal(z, l.crc), z, l.crc);
  }

  lemma OffChecks44(a: bytes, b: bytes)
    requires AgreeOffChecks(a, b)
    ensures Long(a, 44) == Long(b, 44) && Word(a, 6) == Word(b, 6) && Word(a, 2) == Word(b, 2)
    ensures Word(a, 4) == Word(b, 4)
  {
    hide Long, Word;
    SameLong(a, b, 44);
    SameWord(a, b, 2);
    SameWord(a, b, 4);
    SameWord(a, b, 6);
  }

  lemma ParityHeader(l: Layout, number: nat, group: seq<bytes>, checkCRC: bool)
    requires ValidLayout(l) && AllSized(group, l.blockSize)
    ensures var p := ParityBytes(l, number, group);
            && Word(p, 2) == l.opSys && Word(p, 4) == SubsystemBackup && Word(p, 6) == ApplicationXOR
            && Long(p, 44) == Flags(l)
            && Intact(p, checkCRC)
  {
    var x := XorAll(group, l.blockSize);
    var z := Stamp(x, l.opSys, SubsystemBackup, ApplicationXOR, Number(number), Flags(l));
    SealAgrees(z, l.crc);
    FlagsSay(l);
    StampParses(x, l.opSys, SubsystemBackup, ApplicationXOR, Number(number), Flags(l));
    hide Seal, Stamp, Flags, HasCRC, Intact, AgreeOffChecks, XorAll, Word, Long;
    OffChecks44(Seal(z, l.crc), z);
    SealIntact(z, l.crc, checkCRC);
  }

  // ---- Rebuilding (reader.go) ----

  /** What rebuild makes of the exclusive or of a group's other blocks, p being its redundancy block. */
  function Rebuilt(x: bytes, p: bytes, number: nat): (r: bytes)
    requires |x| == |p| >= HeaderSize
    ensures |r| == |x|
  {
    Seal(Stamp(x, Word(p, 2), Word(p, 4), ApplicationData, Number(number), Long(p, 44)), HasCRC(Long(p, 44)))
  }

  /** The blocks agree on every byte neither a stamp nor a check writes. */
  ghost predicate AgreeOffStamp(a: bytes, b: bytes) {
    && |a| == |b| >= HeaderSize
    && forall i :: (12 <= i < CrcAt || CrcAt + 4 <= i < 44 || 48 <= i < ChecksumAt || HeaderSize <= i < |a|) ==>
         a[i] == b[i]
  }

  lemma StampedAgree(a: bytes, b: bytes, opSys: uint16, subsystem: uint16, application: uint16, number: uint32,
                     flags: uint32)
    requires AgreeOffStamp(a, b)
    requires Word(b, 0) == HeaderSize && Word(b, 2) == opSys && Word(b, 4) == subsystem && Word(b, 6) == application
    requires Long(b, 8) == number && Long(b, 44) == flags
    ensures AgreeOffChecks(Stamp(a, opSys, subsystem, application, number, flags), b)
  {
    var s := Stamp(a, opSys, subsystem, application, number, flags);
    StampFields(a, opSys, subsystem, application, number, flags);
    StampParses(a, opSys, subsystem, application, number, flags);
    hide Stamp, LE, Word, Long, Field;
    SameStamp(s, b);
  }

  lemma SameStamp(a: bytes, b: bytes)
    requires |a| == |b| >= HeaderSize
    requires Word(a, 0) == Word(b, 0) && Word(a, 2) == Word(b, 2) && Word(a, 4) == Word(b, 4)
    requires Word(a, 6) == Word(b, 6)
    requires Long(a, 8) == Long(b, 8) && Long(a, 44) == Long(b, 44)
    ensures forall i :: 0 <= i < 12 || 44 <= i < 48 ==> a[i] == b[i]
  {
    hide Word, Long;
    WordBytes(a, b, 0);
    WordBytes(a, b, 2);
    WordBytes(a, b, 4);
    WordBytes(a, b, 6);
    LongBytes(a, b, 8);
    LongBytes(a, b, 44);
  }

  /** Words are equal only when their bytes are. */
  lemma WordBytes(a: bytes, b: bytes, at: nat)
    requires at + 2 <= |a| && at + 2 <= |b| && Word(a, at) == Word(b, at)
    ensures forall i :: at <= i < at + 2 ==> a[i] == b[i]
  {
    UnsignedInjective(Field(a, at, 2), Field(b, at, 2));
    FieldBytes(a, b, at, 2);
  }

  lemma LongBytes(a: bytes, b: bytes, at: nat)
    requires at + 4 <= |a| && at + 4 <= |b| && Long(a, at) == Long(b, at)
    ensures forall i :: at <= i < at + 4 ==> a[i] == b[i]
  {
    UnsignedInjective(Field(a, at, 4), Field(b, at, 4));
    FieldBytes(a, b, at, 4);
  }

  /**
   * The exclusive or of a group's redundancy block and its other blocks is, but for the stamp and the checks, the block
   * itself.
   */
  lemma OthersAgree(l: Layout, number: nat, group: seq<bytes>, i: nat)
    requires ValidLayout(l) && AllSized(group, l.blockSize) && i < |group|
    ensures var p := ParityBytes(l, number, group);
            var others := group[..i] + group[i + 1..] + [p];
            AllSized(others, l.blockSize) && AgreeOffStamp(XorAll(others, l.blockSize), group[i])
  {
    var n := l.blockSize;
    var p := ParityBytes(l, number, group);
    XorAllBut(group, n, i);
    XorAllAppend(group[..i] + group[i + 1..], p, n);
    ParityAgrees(l, number, group);
    hide ParityBytes, XorAll, AgreeOffStamp, AllSized;
    RestAgrees(XorAll(group, n), group[i], p);
  }

  lemma ParityAgrees(l: Layout, number: nat, group: seq<bytes>)
    requires ValidLayout(l) && AllSized(group, l.blockSize)
    ensures AgreeOffStamp(ParityBytes(l, number, group), XorAll(group, l.blockSize))
  {
    hide Seal, Stamp, Flags, XorAll, AgreeOffStamp, AgreeOffChecks, AllSized;
    var x := XorAll(group, l.blockSize);
    var z := Stamp(x, l.opSys, SubsystemBackup, ApplicationXOR, Number(number), Flags(l));
    SealAgrees(z, l.crc);
    StampAgrees(x, l.opSys, SubsystemBackup, ApplicationXOR, Number(number), Flags(l));
    AgreeingThrough(Seal(z, l.crc), z, x);
  }

  lemma StampAgrees(block: bytes, opSys: uint16, subsystem: uint16, application: uint16, number: uint32, flags: uint32)
    requires |block| >= HeaderSize
    ensures AgreeOffStamp(Stamp(block, opSys, subsystem, application, number, flags), block)
  {
    StampFields(block, opSys, subsystem, application, number, flags);
    hide Stamp, LE, Field;
  }

  lemma AgreeingThrough(a: bytes, b: bytes, c: bytes)
    requires AgreeOffChecks(a, b) && AgreeOffStamp(b, c)
    ensures AgreeOffStamp(a, c)
  {
  }

  lemma RestAgrees(x: bytes, d: bytes, p: bytes)
    requires |x| == |d| == |p| && AgreeOffStamp(p, x)
    ensures AgreeOffStamp(Xor(Xor(x, d), p), d)
  {
    var y := Xor(Xor(x, d), p);
    forall k | 0 <= k < |x| && p[k] == x[k]
      ensures y[k] == d[k]
    {
      XorCancels(x[k], d[k]);
    }
  }

  lemma XorCancels(x: byte, d: byte)
    ensures (x ^ d) ^ x == d
  {
  }

  /** Rebuilding restores the block exactly. */
  lemma RebuildRestores(l: Layout, number: nat, group: seq<bytes>, i: nat, home: nat, b: DataBlock)
    requires ValidLayout(l) && AllSized(group, l.blockSize) && i < |group|
    requires Fits(l, b.records) && group[i] == DataBytes(l, home, b)
    ensures var p := ParityBytes(l, number, group);
            var others := group[..i] + group[i + 1..] + [p];
            AllSized(others, l.blockSize) && Rebuilt(XorAll(others, l.blockSize), p, home) == group[i]
  {
    var p := ParityBytes(l, number, group);
    var others := group[..i] + group[i + 1..] + [p];
    OthersAgree(l, number, group, i);
    ParityHeader(l, number, group, false);
    DataHeader(l, home, b);
    FlagsSay(l);
    DataIntact(l, home, b, false);
    hide ParityBytes, DataBytes, Flags, HasCRC, Intact, Seal, Stamp, XorAll, AgreeOffStamp, AgreeOffChecks, Word, Long,
      Named, ParseCurrent;
    hide Counted, Recs, AllRecordBytes;
    var x := XorAll(others, l.blockSize);
    StampedAgree(x, group[i], l.opSys, SubsystemBackup, ApplicationData, Number(home), Flags(l));
    SealIgnoresChecks(Stamp(x, l.opSys, SubsystemBackup, ApplicationData, Number(home), Flags(l)), group[i], l.crc);
  }
}
