/** A save set's block: its header's fields at their offsets, its records, and the checks that seal it. */
module Blocks {
  import opened Bytes
  import opened Crc

  datatype Option<T> = None | Some(value: T)

  /** The size of a virtual block, the unit of a file's data. */
  const VBNSize: nat := 512

  // ---- The header (block.go) ----

  type FileID = w: seq<uint16> | |w| == 3 witness [0, 0, 0]

  const ApplicationData: uint16 := 1
  const ApplicationXOR: uint16 := 2
  const SubsystemBackup: uint16 := 1
  const StructureLevel: uint16 := 0x0101
  const FlagNoCRC: uint32 := 1
  const MinBlockSize: nat := 2048
  const MaxBlockSize: nat := 65535

  /** The file BACKUP was saving when it began the block. */
  datatype CurrentFile = CurrentFile(
    fid: FileID, did: FileID, name: bytes, recordType: byte, recordAttr: byte, recordSize: uint16,
    bucketSize: byte, vfcSize: byte, maxRecord: uint16, allocation: uint32)

  const NoFile: CurrentFile := CurrentFile([0, 0, 0], [0, 0, 0], [], 0, 0, 0, 0, 0, 0, 0)

  datatype BlockHeader = BlockHeader(
    size: uint16, opSys: uint16, subsystem: uint16, application: uint16, number: uint32, strucLev: uint16,
    volume: uint16, crc: uint32, blockSize: uint32, flags: uint32, saveSetName: bytes, checksum: uint16,
    current: CurrentFile)

  /** The words and longwords read from a block. */
  function Word(block: bytes, at: nat): uint16
    requires at + 2 <= |block|
  {
    UnsignedBound(Field(block, at, 2));
    Powers();
    Unsigned(Field(block, at, 2))
  }

  function Long(block: bytes, at: nat): uint32
    requires at + 4 <= |block|
  {
    UnsignedBound(Field(block, at, 4));
    Powers();
    Unsigned(Field(block, at, 4))
  }

  /** A counted string, cut at the field's end. */
  function Counted(field: bytes): bytes
    requires |field| > 0
  {
    var n := if ValueOf(field[0]) < |field| - 1 then ValueOf(field[0]) else |field| - 1;
    field[1..1 + n]
  }

  function Words3(block: bytes, at: nat): FileID
    requires at + 6 <= |block|
  {
    [Word(block, at), Word(block, at + 2), Word(block, at + 4)]
  }

  function ParseCurrent(block: bytes): CurrentFile
    requires |block| >= HeaderSize
  {
    CurrentFile(Words3(block, 80), Words3(block, 86), Counted(Field(block, 92, 128)), block[220], block[221],
                Word(block, 222), block[224], block[225], Word(block, 226), Long(block, 228))
  }

  function ParseHeader(block: bytes): BlockHeader
    requires |block| >= HeaderSize
  {
    BlockHeader(
      Word(block, 0), Word(block, 2), Word(block, 4), Word(block, 6), Long(block, 8), Word(block, 32),
      Word(block, 34), Long(block, CrcAt), Long(block, 40), Long(block, 44), Counted(Field(block, 48, 32)),
      Word(block, ChecksumAt), ParseCurrent(block))
  }

  // ---- Writing it (writer.go) ----

  function PutWord(block: bytes, at: nat, v: uint16): (r: bytes)
    requires at + 2 <= |block|
    ensures |r| == |block|
  {
    Put(block, at, LE(v, 2))
  }

  function PutLong(block: bytes, at: nat, v: uint32): (r: bytes)
    requires at + 4 <= |block|
    ensures |r| == |block|
  {
    Put(block, at, LE(v, 4))
  }

  function CountedField(s: bytes, width: nat): (r: bytes)
    requires 0 < width <= 128
    ensures 0 < |r| <= width
  {
    var n := if |s| < width - 1 then |s| else width - 1;
    [ByteOf(n)] + s[..n]
  }

  function Cut(s: bytes, width: nat): bytes
    requires width > 0
  {
    if |s| < width then s else s[..width - 1]
  }

  function Triple(id: FileID): (r: bytes)
    ensures |r| == 6
  {
    LE(id[0], 2) + LE(id[1], 2) + LE(id[2], 2)
  }

  /** The fields that say what a block is, and that its redundancy block does not keep for it. */
  function Stamp(block: bytes, opSys: uint16, subsystem: uint16, application: uint16, number: uint32,
                 flags: uint32): (r: bytes)
    requires |block| >= HeaderSize
    ensures |r| == |block|
  {
    var b1 := PutWord(block, 0, HeaderSize);
    var b2 := PutWord(b1, 2, opSys);
    var b3 := PutWord(b2, 4, subsystem);
    var b4 := PutWord(b3, 6, application);
    var b5 := PutLong(b4, 8, number);
    PutLong(b5, 44, flags)
  }

  /** The save set's and the current file's fields. */
  function Label(block: bytes, blockSize: uint32, name: bytes): (r: bytes)
    requires |block| >= HeaderSize
    ensures |r| == |block|
  {
    var b1 := PutWord(block, 32, StructureLevel);
    var b2 := PutWord(b1, 34, 1);
    var b3 := PutLong(b2, 40, blockSize);
    Put(b3, 48, CountedField(name, 32))
  }

  function Describe(block: bytes, c: CurrentFile): (r: bytes)
    requires |block| >= HeaderSize
    ensures |r| == |block|
  {
    var b1 := Put(block, 80, Triple(c.fid) + Triple(c.did));
    var b2 := Put(b1, 92, CountedField(c.name, 128));
    var b3 := Put(b2, 220, [c.recordType, c.recordAttr]);
    var b4 := PutWord(b3, 222, c.recordSize);
    var b5 := Put(b4, 224, [c.bucketSize, c.vfcSize]);
    var b6 := PutWord(b5, 226, c.maxRecord);
    PutLong(b6, 228, c.allocation)
  }

  /** writeHeader. */
  function WriteHeader(block: bytes, opSys: uint16, application: uint16, number: uint32, blockSize: uint32,
                       flags: uint32, name: bytes, c: CurrentFile): (r: bytes)
    requires |block| >= HeaderSize
    ensures |r| == |block|
  {
    Describe(Label(Stamp(block, opSys, SubsystemBackup, application, number, flags), blockSize, name), c)
  }

  // ---- Reading back what was put ----

  lemma WordOfPut(block: bytes, at: nat, v: uint16)
    requires at + 2 <= |block|
    ensures Word(PutWord(block, at, v), at) == v
  {
    FieldOfPut(block, at, LE(v, 2), at, 2);
    Powers();
    UnsignedOfLE(v, 2);
  }

  lemma CountedOfField(field: bytes, s: bytes)
    requires 0 < |field| <= 128 && CountedField(s, |field|) == field[..|CountedField(s, |field|)|]
    ensures Counted(field) == Cut(s, |field|)
  {
  }

  /** The six fields of a stamp, and the bytes it leaves. */
  lemma StampFields(block: bytes, opSys: uint16, subsystem: uint16, application: uint16, number: uint32, flags: uint32)
    requires |block| >= HeaderSize
    ensures var r := Stamp(block, opSys, subsystem, application, number, flags);
            && Field(r, 0, 2) == LE(HeaderSize, 2) && Field(r, 2, 2) == LE(opSys, 2)
            && Field(r, 4, 2) == LE(subsystem, 2) && Field(r, 6, 2) == LE(application, 2)
            && Field(r, 8, 4) == LE(number, 4) && Field(r, 44, 4) == LE(flags, 4)
            && forall i :: 12 <= i < |block| && !(44 <= i < 48) ==> r[i] == block[i]
  {
  }

  lemma LabelFields(block: bytes, blockSize: uint32, name: bytes)
    requires |block| >= HeaderSize
    ensures var r := Label(block, blockSize, name);
            && Field(r, 32, 2) == LE(StructureLevel, 2) && Field(r, 34, 2) == LE(1, 2)
            && Field(r, 40, 4) == LE(blockSize, 4)
            && Field(r, 48, |CountedField(name, 32)|) == CountedField(name, 32)
            && forall i :: 0 <= i < |block| && !(32 <= i < 36) && !(40 <= i < 44) && !(48 <= i < 80) ==>
                 r[i] == block[i]
  {
  }

  lemma DescribeFields(block: bytes, c: CurrentFile)
    requires |block| >= HeaderSize
    ensures var r := Describe(block, c);
            && Field(r, 80, 12) == Triple(c.fid) + Triple(c.did)
            && Field(r, 92, |CountedField(c.name, 128)|) == CountedField(c.name, 128)
            && r[220] == c.recordType && r[221] == c.recordAttr && Field(r, 222, 2) == LE(c.recordSize, 2)
            && r[224] == c.bucketSize && r[225] == c.vfcSize && Field(r, 226, 2) == LE(c.maxRecord, 2)
            && Field(r, 228, 4) == LE(c.allocation, 4)
            && forall i :: 0 <= i < |block| && !(80 <= i < 232) ==> r[i] == block[i]
  {
  }

  /** Fields are equal where the bytes are. */
  lemma SameField(a: bytes, b: bytes, at: nat, n: nat)
    requires |a| == |b| && at + n <= |a| && forall i :: at <= i < at + n ==> a[i] == b[i]
    ensures Field(a, at, n) == Field(b, at, n)
  {
  }

  lemma WordOfField(block: bytes, at: nat, v: uint16)
    requires at + 2 <= |block| && Field(block, at, 2) == LE(v, 2)
    ensures Word(block, at) == v
  {
    Powers();
    UnsignedOfLE(v, 2);
  }

  lemma LongOfField(block: bytes, at: nat, v: uint32)
    requires at + 4 <= |block| && Field(block, at, 4) == LE(v, 4)
    ensures Long(block, at) == v
  {
    Powers();
    UnsignedOfLE(v, 4);
  }

  lemma CountedOfBlock(block: bytes, at: nat, s: bytes, width: nat)
    requires 0 < width <= 128 && at + width <= |block|
    requires Field(block, at, |CountedField(s, width)|) == CountedField(s, width)
    ensures Counted(Field(block, at, width)) == Cut(s, width)
  {
    hide CountedField, Counted, Cut;
    var n := |CountedField(s, width)|;
    assert Field(block, at, width)[..n] == Field(block, at, n);
    CountedOfField(Field(block, at, width), s);
  }

  lemma SubField(block: bytes, at: nat, n: nat, from: nat, m: nat)
    requires at + n <= |block| && from + m <= n
    ensures Field(block, at, n)[from..from + m] == Field(block, at + from, m)
  {
    var x, y := Field(block, at, n)[from..from + m], Field(block, at + from, m);
    assert forall k :: 0 <= k < m ==> x[k] == block[at + from + k] && y[k] == block[at + from + k];
  }

  lemma TripleOfBlock(block: bytes, at: nat, id: FileID)
    requires at + 6 <= |block| && Field(block, at, 6) == Triple(id)
    ensures Words3(block, at) == id
  {
    hide Word, LE;
    assert Triple(id)[0..2] == LE(id[0], 2) && Triple(id)[2..4] == LE(id[1], 2) && Triple(id)[4..6] == LE(id[2], 2);
    SubField(block, at, 6, 0, 2);
    SubField(block, at, 6, 2, 2);
    SubField(block, at, 6, 4, 2);
    WordOfField(block, at, id[0]);
    WordOfField(block, at + 2, id[1]);
    WordOfField(block, at + 4, id[2]);
  }

  lemma StampParses(block: bytes, opSys: uint16, subsystem: uint16, application: uint16, number: uint32, flags: uint32)
    requires |block| >= HeaderSize
    ensures var r := Stamp(block, opSys, subsystem, application, number, flags);
            && Word(r, 0) == HeaderSize && Word(r, 2) == opSys && Word(r, 4) == subsystem && Word(r, 6) == application
            && Long(r, 8) == number && Long(r, 44) == flags
  {
    var r := Stamp(block, opSys, subsystem, application, number, flags);
    StampFields(block, opSys, subsystem, application, number, flags);
    hide Stamp, Word, Long, LE;
    WordOfField(r, 0, HeaderSize);
    WordOfField(r, 2, opSys);
    WordOfField(r, 4, subsystem);
    WordOfField(r, 6, application);
    LongOfField(r, 8, number);
    LongOfField(r, 44, flags);
  }

  lemma LabelParses(block: bytes, blockSize: uint32, name: bytes)
    requires |block| >= HeaderSize
    ensures var r := Label(block, blockSize, name);
            && Word(r, 32) == StructureLevel && Word(r, 34) == 1 && Long(r, 40) == blockSize
            && Counted(Field(r, 48, 32)) == Cut(name, 32)
  {
    var r := Label(block, blockSize, name);
    LabelFields(block, blockSize, name);
    hide Label, Word, Long, LE, Counted, CountedField, Cut;
    WordOfField(r, 32, StructureLevel);
    WordOfField(r, 34, 1);
    LongOfField(r, 40, blockSize);
    CountedOfBlock(r, 48, name, 32);
  }

  /** The current file as its header names it: the name cut to 127 bytes. */
  function Named(c: CurrentFile): CurrentFile {
    c.(name := Cut(c.name, 128))
  }

  lemma DescribeParses(block: bytes, c: CurrentFile)
    requires |block| >= HeaderSize
    ensures ParseCurrent(Describe(block, c)) == Named(c)
  {
    var r := Describe(block, c);
    DescribeFields(block, c);
    hide Describe, Word, Long, LE, Counted, CountedField, Cut, Triple, Words3;
    var ids := Triple(c.fid) + Triple(c.did);
    SubField(r, 80, 12, 0, 6);
    SubField(r, 80, 12, 6, 6);
    assert ids[0..6] == Triple(c.fid) && ids[6..12] == Triple(c.did);
    TripleOfBlock(r, 80, c.fid);
    TripleOfBlock(r, 86, c.did);
    CountedOfBlock(r, 92, c.name, 128);
    WordOfField(r, 222, c.recordSize);
    WordOfField(r, 226, c.maxRecord);
    LongOfField(r, 228, c.allocation);
  }

  /** What a reader parses from a header just written: every field but the checks, the counted strings cut to fit. */
  lemma HeaderRoundTrip(block: bytes, opSys: uint16, application: uint16, number: uint32, blockSize: uint32,
                        flags: uint32, name: bytes, c: CurrentFile)
    requires |block| >= HeaderSize
    ensures var r := WriteHeader(block, opSys, application, number, blockSize, flags, name, c);
            ParseHeader(r) == BlockHeader(HeaderSize, opSys, SubsystemBackup, application, number, StructureLevel, 1,
                                          Long(block, CrcAt), blockSize, flags, Cut(name, 32), Word(block, ChecksumAt),
                                          Named(c))
  {
    var stamped := Stamp(block, opSys, SubsystemBackup, application, number, flags);
    var labelled := Label(stamped, blockSize, name);
    var r := Describe(labelled, c);
    StampParses(block, opSys, SubsystemBackup, application, number, flags);
    LabelParses(stamped, blockSize, name);
    DescribeParses(labelled, c);
    StampFields(block, opSys, SubsystemBackup, application, number, flags);
    LabelFields(stamped, blockSize, name);
    DescribeFields(labelled, c);
    hide Stamp, Label, Describe, Word, Long, LE, Counted, CountedField, Cut, Named, ParseCurrent, Field;
    Carried(stamped, labelled, r);
    KeptThrough(block, stamped, labelled, r);
  }

  lemma KeptThrough(block: bytes, stamped: bytes, labelled: bytes, r: bytes)
    requires |block| == |stamped| == |labelled| == |r| >= HeaderSize
    requires forall i :: 12 <= i < |block| && !(44 <= i < 48) ==> stamped[i] == block[i]
    requires forall i :: 0 <= i < |r| && !(32 <= i < 36) && !(40 <= i < 44) && !(48 <= i < 80) ==>
               labelled[i] == stamped[i]
    requires forall i :: 0 <= i < |r| && !(80 <= i < 232) ==> r[i] == labelled[i]
    ensures Long(r, CrcAt) == Long(block, CrcAt) && Word(r, ChecksumAt) == Word(block, ChecksumAt)
  {
    hide Word, Long;
    SameLong(block, r, CrcAt);
    SameWord(block, r, ChecksumAt);
  }

  lemma SameWord(a: bytes, b: bytes, at: nat)
    requires |a| == |b| && at + 2 <= |a| && forall i :: at <= i < at + 2 ==> a[i] == b[i]
    ensures Word(a, at) == Word(b, at)
  {
    SameField(a, b, at, 2);
  }

  lemma SameLong(a: bytes, b: bytes, at: nat)
    requires |a| == |b| && at + 4 <= |a| && forall i :: at <= i < at + 4 ==> a[i] == b[i]
    ensures Long(a, at) == Long(b, at)
  {
    SameField(a, b, at, 4);
  }

  /** The stamp's and the label's fields are still there after the later ones are put. */
  lemma Carried(stamped: bytes, labelled: bytes, r: bytes)
    requires |stamped| == |labelled| == |r| >= HeaderSize
    requires forall i :: 0 <= i < |r| && !(32 <= i < 36) && !(40 <= i < 44) && !(48 <= i < 80) ==>
               labelled[i] == stamped[i]
    requires forall i :: 0 <= i < |r| && !(80 <= i < 232) ==> r[i] == labelled[i]
    ensures Word(r, 0) == Word(stamped, 0) && Word(r, 2) == Word(stamped, 2) && Word(r, 4) == Word(stamped, 4)
    ensures Word(r, 6) == Word(stamped, 6) && Long(r, 8) == Long(stamped, 8) && Long(r, 44) == Long(stamped, 44)
    ensures Word(r, 32) == Word(labelled, 32) && Word(r, 34) == Word(labelled, 34) && Long(r, 40) == Long(labelled, 40)
    ensures Field(r, 48, 32) == Field(labelled, 48, 32)
  {
    hide Word, Long;
    SameWord(stamped, r, 0);
    SameWord(stamped, r, 2);
    SameWord(stamped, r, 4);
    SameWord(stamped, r, 6);
    SameLong(stamped, r, 8);
    SameLong(stamped, r, 44);
    SameWord(labelled, r, 32);
    SameWord(labelled, r, 34);
    SameLong(labelled, r, 40);
    SameField(labelled, r, 48, 32);
  }

  // ---- The two checks ----

  predicate HasCRC(flags: uint32) {
    flags % 2 == 0
  }

  predicate HeaderIntact(block: bytes)
    requires |block| >= HeaderSize
  {
    Field(block, ChecksumAt, 2) == HeaderChecksum(block)
  }

  predicate CrcIntact(block: bytes)
    requires |block| >= HeaderSize
  {
    HasCRC(Long(block, 44)) ==> Field(block, CrcAt, 4) == DataCRC(block)
  }

  /** intact: the header checksum, and when asked the data CRC, is right. */
  predicate Intact(block: bytes, checkCRC: bool)
    requires |block| >= HeaderSize
  {
    HeaderIntact(block) && (checkCRC ==> CrcIntact(block))
  }

  /** seal: the data CRC, when the save set has them, and the header checksum. */
  function Seal(block: bytes, crc: bool): (r: bytes)
    requires |block| >= HeaderSize
    ensures |r| == |block|
  {
    var b1 := PutLong(block, CrcAt, 0);
    var b2 := if crc then Put(b1, CrcAt, DataCRC(b1)) else b1;
    Put(b2, ChecksumAt, HeaderChecksum(b2))
  }

  /** The blocks agree on every byte the checks cover. */
  predicate AgreeOffChecks(a: bytes, b: bytes) {
    && |a| == |b| >= HeaderSize
    && forall i :: 0 <= i < |a| && !(CrcAt <= i < CrcAt + 4) && !(ChecksumAt <= i < HeaderSize) ==> a[i] == b[i]
  }

  lemma ChecksAgree(a: bytes, b: bytes)
    requires AgreeOffChecks(a, b)
    ensures HeaderChecksum(a) == HeaderChecksum(b) && DataCRC(a) == DataCRC(b)
  {
    hide Crc16, Crc32;
    assert Cleared(a[..HeaderSize]) == Cleared(b[..HeaderSize]);
    assert a[HeaderSize..] == b[HeaderSize..];
  }

  /** A sealed block passes its checks, and differs from the unsealed one in the check fields only. */
  lemma SealPasses(block: bytes, crc: bool)
    requires |block| >= HeaderSize
    ensures AgreeOffChecks(Seal(block, crc), block) && HeaderIntact(Seal(block, crc))
    ensures Field(Seal(block, crc), CrcAt, 4) == if crc then DataCRC(Seal(block, crc)) else LE(0, 4)
  {
    hide HeaderChecksum, DataCRC, LE;
    var b1 := PutLong(block, CrcAt, 0);
    var b2 := if crc then Put(b1, CrcAt, DataCRC(b1)) else b1;
    var r := Put(b2, ChecksumAt, HeaderChecksum(b2));
    ChecksAgree(r, b2);
    ChecksAgree(r, b1);
  }

  lemma SealAgrees(block: bytes, crc: bool)
    requires |block| >= HeaderSize
    ensures AgreeOffChecks(Seal(block, crc), block)
  {
    hide *;
    SealPasses(block, crc);
  }

  lemma SealIgnoresChecks(a: bytes, b: bytes, crc: bool)
    requires AgreeOffChecks(a, b)
    ensures Seal(a, crc) == Seal(b, crc)
  {
    var x, y := Seal(a, crc), Seal(b, crc);
    SealPasses(a, crc);
    SealPasses(b, crc);
    hide Seal, HeaderChecksum, DataCRC, LE, Field, AgreeOffChecks;
    AgreeingChain(x, a, b, y);
    ChecksAgree(x, y);
    AgreeingEverywhere(x, y);
  }

  lemma AgreeingChain(x: bytes, a: bytes, b: bytes, y: bytes)
    requires AgreeOffChecks(x, a) && AgreeOffChecks(a, b) && AgreeOffChecks(y, b)
    ensures AgreeOffChecks(x, y)
  {
  }

  lemma AgreeingEverywhere(x: bytes, y: bytes)
    requires AgreeOffChecks(x, y)
    requires Field(x, CrcAt, 4) == Field(y, CrcAt, 4) && Field(x, ChecksumAt, 2) == Field(y, ChecksumAt, 2)
    ensures x == y
  {
    hide Field;
    FieldBytes(x, y, CrcAt, 4);
    FieldBytes(x, y, ChecksumAt, 2);
  }

  lemma FieldBytes(a: bytes, b: bytes, at: nat, n: nat)
    requires at + n <= |a| && at + n <= |b| && Field(a, at, n) == Field(b, at, n)
    ensures forall i :: at <= i < at + n ==> a[i] == b[i]
  {
    forall i | at <= i < at + n
      ensures a[i] == b[i]
    {
      assert Field(a, at, n)[i - at] == Field(b, at, n)[i - at];
    }
  }

  /** The flags say truly whether a sealed block has a data CRC, so it passes that check too. */
  lemma SealIntact(block: bytes, crc: bool, checkCRC: bool)
    requires |block| >= HeaderSize && (HasCRC(Long(block, 44)) ==> crc)
    ensures Intact(Seal(block, crc), checkCRC)
  {
    SealPasses(block, crc);
    hide Seal, HeaderChecksum, DataCRC, Long, HasCRC;
    SameLong(block, Seal(block, crc), 44);
  }

  // ---- Records (record.go) ----

  const RecordHeaderSize: nat := 16
  const RecordNull: uint16 := 0
  const RecordSummary: uint16 := 1
  const RecordFile: uint16 := 3
  const RecordVBN: uint16 := 4

  datatype Record = Record(kind: uint16, flags: uint32, address: uint32, body: bytes)

  /** What Records returns: the records, and whether the last did not run past the block's end. */
  datatype Parsed = Parsed(records: seq<Record>, ok: bool)

  function RecordAt(block: bytes, at: nat): Record
    requires at + RecordHeaderSize <= |block| && at + RecordHeaderSize + Word(block, at) <= |block|
  {
    var body := at + RecordHeaderSize;
    Record(Word(block, at + 2), Long(block, at + 4), Long(block, at + 8), block[body..body + Word(block, at)])
  }

  function RecordsFrom(block: bytes, at: nat): Parsed
    decreases |block| - at
  {
    if at + RecordHeaderSize > |block| || Word(block, at + 2) == RecordNull then Parsed([], true)
    else if at + RecordHeaderSize + Word(block, at) > |block| then Parsed([], false)
    else
      var rest := RecordsFrom(block, at + RecordHeaderSize + Word(block, at));
      Parsed([RecordAt(block, at)] + rest.records, rest.ok)
  }

  /** Records: the records of a block, up to a null record. */
  method Records(block: bytes) returns (records: seq<Record>, ok: bool)
    ensures Parsed(records, ok) == RecordsFrom(block, HeaderSize)
  {
    hide Word, Long;
    records := [];
    var at := HeaderSize;
    while at + RecordHeaderSize <= |block|
      invariant RecordsFrom(block, HeaderSize) ==
                Parsed(records + RecordsFrom(block, at).records, RecordsFrom(block, at).ok)
      decreases |block| - at
    {
      var size := Word(block, at);
      if Word(block, at + 2) == RecordNull {
        break;
      }
      if at + RecordHeaderSize + size > |block| {
        return records, false;
      }
      records := records + [RecordAt(block, at)];
      at := at + RecordHeaderSize + size;
    }
    ok := true;
  }

  // ---- Writing records (writer.go) ----

  function PaddedSize(n: nat): nat {
    (n + 15) / 16 * 16
  }

  function Padded(body: bytes): (r: bytes)
    ensures |r| == PaddedSize(|body|) && body <= r
  {
    body + Zeros(PaddedSize(|body|) - |body|)
  }

  lemma PaddedZeros(body: bytes) returns (n: nat)
    ensures Padded(body) == body + Zeros(n) && |body| + n == PaddedSize(|body|)
  {
    n := PaddedSize(|body|) - |body|;
  }

  /** The record as a reader finds it. */
  function PaddedRecord(r: Record): Record {
    r.(body := Padded(r.body))
  }

  function PaddedRecords(rs: seq<Record>): (p: seq<Record>)
    ensures |p| == |rs|
  {
    seq(|rs|, i requires 0 <= i < |rs| => PaddedRecord(rs[i]))
  }

  function RecordHeader(r: Record): (b: bytes)
    ensures |b| == RecordHeaderSize
  {
    LE(PaddedSize(|r.body|), 2) + LE(r.kind, 2) + LE(r.flags, 4) + LE(r.address, 4) + Zeros(4)
  }

  function RecordBytes(r: Record): (b: bytes)
    ensures |b| == RecordHeaderSize + PaddedSize(|r.body|)
  {
    RecordHeader(r) + Padded(r.body)
  }

  function AllRecordBytes(rs: seq<Record>): bytes {
    if rs == [] then [] else AllRecordBytes(rs[..|rs| - 1]) + RecordBytes(rs[|rs| - 1])
  }

  /** A record that is not the null record, small enough for its size to fit a word. */
  predicate Writable(r: Record) {
    r.kind != RecordNull && PaddedSize(|r.body|) < 0x1_0000
  }

  predicate AllWritable(rs: seq<Record>) {
    forall i :: 0 <= i < |rs| ==> Writable(rs[i])
  }

  lemma {:induction false} AllRecordBytesFirst(rs: seq<Record>)
    requires rs != []
    ensures AllRecordBytes(rs) == RecordBytes(rs[0]) + AllRecordBytes(rs[1..])
  {
    hide RecordBytes;
    var n := |rs| - 1;
    if n > 0 {
      AllRecordBytesFirst(rs[..n]);
      assert rs[..n][1..] == rs[1..][..n - 1];
      assert rs[1..][n - 1] == rs[n];
    } else {
      assert rs[..0] == [] && rs[1..] == [];
      assert AllRecordBytes(rs) == [] + RecordBytes(rs[0]);
    }
  }

  lemma RecordHeaderFields(r: Record)
    ensures var b := RecordHeader(r);
            && Field(b, 0, 2) == LE(PaddedSize(|r.body|), 2) && Field(b, 2, 2) == LE(r.kind, 2)
            && Field(b, 4, 4) == LE(r.flags, 4) && Field(b, 8, 4) == LE(r.address, 4)
  {
    hide LE, PaddedSize;
  }

  /** A written record reads back, its body padded. */
  lemma RecordReadsBack(block: bytes, at: nat, r: Record)
    requires Writable(r) && at + |RecordBytes(r)| <= |block| && Field(block, at, |RecordBytes(r)|) == RecordBytes(r)
    ensures Word(block, at) == PaddedSize(|r.body|) && Word(block, at + 2) == r.kind
    ensures RecordAt(block, at) == PaddedRecord(r)
  {
    var n := |RecordBytes(r)|;
    hide LE, Word, Long, RecordHeader, PaddedSize, Field, Padded;
    assert RecordBytes(r)[0..0 + 16] == RecordHeader(r) && RecordBytes(r)[16..16 + (n - 16)] == Padded(r.body);
    SubField(block, at, n, 0, 16);
    SubField(block, at, n, 16, n - 16);
    HeaderReadsBack(block, at, r);
    BodyReadsBack(block, at, r);
  }

  lemma HeaderReadsBack(block: bytes, at: nat, r: Record)
    requires Writable(r) && at + 16 <= |block| && Field(block, at, 16) == RecordHeader(r)
    ensures Word(block, at) == PaddedSize(|r.body|) && Word(block, at + 2) == r.kind
    ensures Long(block, at + 4) == r.flags && Long(block, at + 8) == r.address
  {
    RecordHeaderFields(r);
    hide LE, Word, Long, RecordHeader, PaddedSize;
    SubField(block, at, 16, 0, 2);
    SubField(block, at, 16, 2, 2);
    SubField(block, at, 16, 4, 4);
    SubField(block, at, 16, 8, 4);
    WordOfField(block, at, PaddedSize(|r.body|));
    WordOfField(block, at + 2, r.kind);
    LongOfField(block, at + 4, r.flags);
    LongOfField(block, at + 8, r.address);
  }

  lemma BodyReadsBack(block: bytes, at: nat, r: Record)
    requires at + 16 + PaddedSize(|r.body|) <= |block| && Word(block, at) == PaddedSize(|r.body|)
    requires Field(block, at + 16, PaddedSize(|r.body|)) == Padded(r.body)
    ensures block[at + 16..at + 16 + Word(block, at)] == Padded(r.body)
  {
    hide Word, PaddedSize, Padded;
  }

  lemma FirstRecordBytes(block: bytes, at: nat, rs: seq<Record>)
    requires rs != [] && AllWritable(rs) && at + |AllRecordBytes(rs)| <= |block|
    requires Field(block, at, |AllRecordBytes(rs)|) == AllRecordBytes(rs)
    ensures var m, rest := |RecordBytes(rs[0])|, AllRecordBytes(rs[1..]);
            && |AllRecordBytes(rs)| == m + |rest| && Writable(rs[0])
            && Field(block, at, m) == RecordBytes(rs[0]) && Field(block, at + m, |rest|) == rest
  {
    hide RecordBytes, AllRecordBytes, Field;
    AllRecordBytesFirst(rs);
    FieldsOfSum(block, at, RecordBytes(rs[0]), AllRecordBytes(rs[1..]));
  }

  lemma FieldsOfSum(block: bytes, at: nat, x: bytes, y: bytes)
    requires at + |x + y| <= |block| && Field(block, at, |x + y|) == x + y
    ensures Field(block, at, |x|) == x && Field(block, at + |x|, |y|) == y
  {
    hide Field;
    assert (x + y)[0..0 + |x|] == x && (x + y)[|x|..|x| + |y|] == y;
    SubField(block, at, |x| + |y|, 0, |x|);
    SubField(block, at, |x| + |y|, |x|, |y|);
  }

  /** Records written from at on, then a null record, read back as they were written. */
  lemma {:induction false} RecordsReadBack(block: bytes, at: nat, rs: seq<Record>)
    requires AllWritable(rs)
    requires at + |AllRecordBytes(rs)| + RecordHeaderSize <= |block|
    requires Field(block, at, |AllRecordBytes(rs)|) == AllRecordBytes(rs)
    requires Word(block, at + |AllRecordBytes(rs)| + 2) == RecordNull
    ensures RecordsFrom(block, at) == Parsed(PaddedRecords(rs), true)
    decreases |rs|
  {
    hide RecordBytes, Word, Field, PaddedRecord, RecordAt, PaddedSize;
    if rs == [] {
    } else {
      var r, m := rs[0], |RecordBytes(rs[0])|;
      FirstRecordBytes(block, at, rs);
      RecordReadsBack(block, at, r);
      RecordsReadBack(block, at + m, rs[1..]);
      assert PaddedRecords(rs) == [PaddedRecord(r)] + PaddedRecords(rs[1..]);
    }
  }
}

