/**
 Two save sets that lose a block and are read wrong: one of two files with one name, where the first is given data of
 the second, and one of a file whose name is too long for a block header, which loses data that is not lost.
 */
module NamesMixed {
  import opened Bytes
  import opened Crc
  import opened Blocks
  import opened AttributeLists
  import opened SaveSetStream
  import opened Groups
  import opened Packing
  import opened Reading
  import opened Recovery
  import opened Restoring
  import opened Confusion
  import opened SaveSets
  import opened Saving

  // ---- The files ----

  function Named(name: bytes): Attributes {
    EmptyAttributes.(name := name)
  }

  /** n virtual blocks of ones. */
  function Ones(n: nat): (data: bytes)
    ensures |data| == n * VBNSize
  {
    Repeated(1, n * VBNSize)
  }

  function Repeated(b: byte, n: nat): (data: bytes)
    ensures |data| == n
  {
    seq(n, i => b)
  }

  const LongName: bytes := Repeated(65, 128)

  /** Both named A: the first has no data, the second four virtual blocks. */
  const FirstA: Entry := Entry(Named(NameA), 0, [])
  const SecondA: Entry := Entry(Named(NameA), 0, Ones(4))

  /** A file with a name of 128 bytes, and six virtual blocks. */
  const LongNamed: Entry := Entry(Named(LongName), 0, Ones(6))

  const TwoCalls: seq<Call> := [AddFile(FirstA), Call.EndBlock, AddFile(SecondA)]
  const OneCall: seq<Call> := [AddFile(LongNamed)]

  const Small: Layout := LayoutOf(SmallSummary, true)

  // ---- How large their records are ----

  lemma {:induction false} ListBytesSum(a: seq<Attribute>, b: seq<Attribute>)
    ensures |ListBytes(a + b)| == |ListBytes(a)| + |ListBytes(b)|
  {
    hide EntryBytes;
    if a == [] {
      assert a + b == b;
    } else {
      ListBytesSum(a[1..], b);
      assert (a + b)[1..] == a[1..] + b;
    }
  }

  lemma ListOfThree(a: Attribute, b: Attribute, c: Attribute)
    ensures |ListBytes([a, b, c])| == 12 + |a.value| + |b.value| + |c.value|
  {
    hide LE;
    assert [a, b, c][1..] == [b, c];
    ListOfTwo(b, c);
  }

  lemma ListOfTwo(a: Attribute, b: Attribute)
    ensures |ListBytes([a, b])| == 8 + |a.value| + |b.value|
  {
    hide LE;
    assert [a, b][1..] == [b] && [b][1..] == [];
    assert ListBytes([b]) == EntryBytes(b) + ListBytes([]);
  }

  lemma FrontSize(name: bytes)
    ensures |ListBytes(FileFront(Named(name)))| == 12 + |name| + 8 + 12 + 40 + 12 + 10 + 12 + 7
  {
    hide ListBytes, LE, Zeros;
    var f := Named(name);
    ListOfThree(FileNames(f)[0], FileNames(f)[1], FileNames(f)[2]);
    ListOfThree(FileSizes(f)[0], FileSizes(f)[1], FileSizes(f)[2]);
    ListOfThree(FileRights(f)[0], FileRights(f)[1], FileRights(f)[2]);
    ListOfThree(FileKinds(f)[0], FileKinds(f)[1], FileKinds(f)[2]);
    ListBytesSum(FileNames(f), FileSizes(f));
    ListBytesSum(FileNames(f) + FileSizes(f), FileRights(f));
    ListBytesSum(FileNames(f) + FileSizes(f) + FileRights(f), FileKinds(f));
  }

  lemma BackSize(name: bytes)
    ensures |ListBytes(FileBack(Named(name)))| == 12 + 6 + 12 + 18 + 12 + 20 + 8 + 4
  {
    hide ListBytes, LE, Zeros;
    var f := Named(name);
    ListOfThree(FileMarks(f)[0], FileMarks(f)[1], FileMarks(f)[2]);
    ListOfThree(FileDates(f)[0], FileDates(f)[1], FileDates(f)[2]);
    ListOfThree(FileEnds(f)[0], FileEnds(f)[1], FileEnds(f)[2]);
    ListOfTwo(FileDirectory(f)[0], FileDirectory(f)[1]);
    ListBytesSum(FileMarks(f), FileDates(f));
    ListBytesSum(FileMarks(f) + FileDates(f), FileEnds(f));
    ListBytesSum(FileMarks(f) + FileDates(f) + FileEnds(f), FileDirectory(f));
  }

  lemma NameSize(name: bytes)
    ensures |EncodeAttributes(Named(name))| == 207 + |name|
  {
    hide ListBytes, LE, Zeros, FileFront, FileBack;
    var f := Named(name);
    FrontSize(name);
    BackSize(name);
    ListBytesSum(FileFront(f), FileBack(f));
    assert FileStatus(f) == [] && Optional(78, f.acl) == [];
    assert FileList(f) == FileFront(f) + FileBack(f);
  }

  lemma SummarySize()
    ensures |EncodeSummary(SmallSummary)| == 92
  {
    hide ListBytes, LE;
    var s := SmallSummary;
    var who := SummaryWho(s);
    ListOfTwo(SummaryHead(s)[0], SummaryHead(s)[1]);
    ListOfThree(who[0], who[1], who[2]);
    ListOfTwo(who[3], who[4]);
    ListOfThree(SummaryWhere(s)[0], SummaryWhere(s)[1], SummaryWhere(s)[2]);
    ListOfThree(SummaryHow(s)[0], SummaryHow(s)[1], SummaryHow(s)[2]);
    assert who == who[..3] + who[3..] && who[..3] == [who[0], who[1], who[2]] && who[3..] == [who[3], who[4]];
    ListBytesSum(who[..3], who[3..]);
    ListBytesSum(SummaryHead(s), who);
    ListBytesSum(SummaryHead(s) + who, SummaryWhere(s));
    ListBytesSum(SummaryHead(s) + who + SummaryWhere(s), SummaryHow(s));
    assert SummaryList(s) == SummaryHead(s) + who + SummaryWhere(s) + SummaryHow(s);
  }

  // ---- Packing them ----

  lemma TakesFirst(l: Layout, p: Packer, t: Tagged)
    requires !p.failed && p.open.None? && PaddedSize(|t.rec.body|) + HeaderSize + 2 * RecordHeaderSize <= l.blockSize
    ensures PutRecord(l, p, t) == p.(open := Some(DataBlock(p.current, [t], [])))
  {
    EmptyAt();
    hide At, PaddedSize;
    assert [] + [t] == [t];
  }

  lemma TakesNext(l: Layout, p: Packer, t: Tagged)
    requires !p.failed && p.open.Some? && PaddedSize(|t.rec.body|) <= Room(l, p)
    ensures PutRecord(l, p, t) == Taken(p, t)
  {
    hide At, PaddedSize;
  }

  /** A run of m bytes goes into the block, and the rest follows. */
  lemma RunGoes(l: Layout, p: Packer, owner: int, vbn: nat, data: bytes, m: nat)
    requires ValidLayout(l) && !p.failed && data != [] && m > 0 && m % VBNSize == 0
    requires (Room(l, p) / VBNSize * VBNSize == m && m <= |data|)
             || (m == |data| && m <= Room(l, p) / VBNSize * VBNSize)
    ensures AddData(l, p, owner, 0, vbn, data)
            == AddData(l, PutRecord(l, p, Tagged(owner, Record(RecordVBN, 0, Number(vbn), data[..m]))), owner, 0,
              vbn + m / VBNSize, data[m..])
  {
    hide At, PutRecord, Number;
  }

  lemma NoRunGoes(l: Layout, p: Packer, owner: int, vbn: nat, data: bytes)
    requires ValidLayout(l) && !p.failed && data != [] && Room(l, p) / VBNSize == 0 && p.open.Some?
    ensures AddData(l, p, owner, 0, vbn, data) == AddData(l, End(p), owner, 0, vbn, data)
  {
    hide At, PutRecord, Number;
  }

  /** A packer with one block being filled, to at. */
  ghost predicate Filling(p: Packer, closed: seq<DataBlock>, b: DataBlock, current: CurrentFile, at: nat) {
    p == Packer(closed, Some(b), current, false, 0) && At(b.records) == at
  }

  lemma DataRun(closed: seq<DataBlock>, p: Packer, b: DataBlock, current: CurrentFile, at: nat, owner: int, vbn: nat,
                data: bytes, m: nat)
    requires Filling(p, closed, b, current, at) && at + 32 <= 2048 && 0 < m <= |data| && m % VBNSize == 0
    requires (2048 - at - 32) / VBNSize * VBNSize == m || (m == |data| && m <= (2048 - at - 32) / VBNSize * VBNSize)
    ensures var t := Tagged(owner, Record(RecordVBN, 0, Number(vbn), data[..m]));
            var c := b.(records := b.records + [t]);
            && Filling(Taken(p, t), closed, c, current, at + 16 + m)
            && AddData(Small, p, owner, 0, vbn, data)
                 == AddData(Small, Taken(p, t), owner, 0, vbn + m / VBNSize, data[m..])
  {
    hide At, Number, PutRecord, AddData, PaddedSize;
    var t := Tagged(owner, Record(RecordVBN, 0, Number(vbn), data[..m]));
    assert Room(Small, p) == 2048 - at - 32;
    RunGoes(Small, p, owner, vbn, data, m);
    WholePads(m);
    TakesNext(Small, p, t);
    AtAppend(b.records, t);
  }

  lemma FreshRun(closed: seq<DataBlock>, p: Packer, b: DataBlock, current: CurrentFile, at: nat, owner: int, vbn: nat,
                 data: bytes, m: nat)
    requires Filling(p, closed, b, current, at) && at <= 2048 && (at + 32 > 2048 || (2048 - at - 32) / VBNSize == 0)
    requires 0 < m <= |data| && m % VBNSize == 0
    requires m == 1536 || (m == |data| && m <= 1536)
    ensures var t := Tagged(owner, Record(RecordVBN, 0, Number(vbn), data[..m]));
            var c := DataBlock(current, [t], []);
            var q := Packer(closed + [b], Some(c), current, false, 0);
            && Filling(q, closed + [b], c, current, 272 + m)
            && AddData(Small, p, owner, 0, vbn, data) == AddData(Small, q, owner, 0, vbn + m / VBNSize, data[m..])
  {
    hide At, Number, PutRecord, AddData, PaddedSize;
    var t := Tagged(owner, Record(RecordVBN, 0, Number(vbn), data[..m]));
    NoRunGoes(Small, p, owner, vbn, data);
    RunGoes(Small, End(p), owner, vbn, data, m);
    WholePads(m);
    TakesFirst(Small, End(p), t);
    AtAppend([], t);
    EmptyAt();
    assert [] + [t] == [t];
  }

  function SummaryTagged(): Tagged {
    Tagged(-1, SummaryRecord(SmallSummary))
  }

  function FileTagged(owner: int, e: Entry): Tagged {
    Tagged(owner, FileRecord(e))
  }

  /** n virtual blocks of e's data from the vbn-th on. */
  function DataTagged(owner: int, vbn: nat, data: bytes): Tagged {
    Tagged(owner, Record(RecordVBN, 0, Number(vbn), data))
  }

  lemma Begins()
    ensures var b := DataBlock(NoFile, [SummaryTagged()], []);
            Filling(Start(Small, SmallSummary), [], b, NoFile, 368)
  {
    hide At, Encode, PutRecord;
    SummarySize();
    TakesFirst(Small, Packer([], None, NoFile, false, 0), SummaryTagged());
    AtAppend([], SummaryTagged());
    EmptyAt();
    assert [] + [SummaryTagged()] == [SummaryTagged()];
  }

  /** A file's attributes go into the block. */
  lemma FileGoes(closed: seq<DataBlock>, p: Packer, b: DataBlock, current: CurrentFile, at: nat, owner: int, e: Entry,
                 n: nat)
    requires Filling(p, closed, b, current, at) && |EncodeAttributes(e.attrs)| == n && at + 32 + PaddedSize(n) <= 2048
    ensures var t := FileTagged(owner, e);
            var q := PutRecord(Small, p.(current := CurrentOf(e.attrs)), t);
            Filling(q, closed, b.(records := b.records + [t]), CurrentOf(e.attrs), at + 16 + PaddedSize(n))
  {
    hide At, Encode, PutRecord, CurrentOf, PaddedSize;
    var t := FileTagged(owner, e);
    TakesNext(Small, p.(current := CurrentOf(e.attrs)), t);
    AtAppend(b.records, t);
  }

  lemma NothingLeft(p: Packer, owner: int, flags: uint32, vbn: nat, data: bytes)
    requires data == []
    ensures AddData(Small, p, owner, flags, vbn, data) == p
  {
    NothingToAdd(Small, p, owner, flags, vbn);
  }

  // ---- The file of one name with another ----

  /** The three blocks: the summary and the first A; the second A, and three virtual blocks of it; and its fourth. */
  function MixedBlocks(): seq<DataBlock> {
    var current := CurrentOf(SecondA.attrs);
    [DataBlock(NoFile, [SummaryTagged(), FileTagged(0, FirstA)], [NameA]),
     DataBlock(current, [FileTagged(1, SecondA), DataTagged(1, 1, Ones(4)[..1536])], []),
     DataBlock(current, [DataTagged(1, 4, Ones(4)[1536..])], [NameA])]
  }

  lemma FirstAdded()
    ensures var b := DataBlock(NoFile, [SummaryTagged(), FileTagged(0, FirstA)], [NameA]);
            Add(Small, Start(Small, SmallSummary), 0, FirstA) == Packer([], Some(b), CurrentOf(FirstA.attrs), false, 0)
  {
    hide At, Encode, PutRecord, AddData, CurrentOf, SummaryRecord, FileRecord, Start;
    Begins();
    var b := DataBlock(NoFile, [SummaryTagged()], []);
    NameSize(NameA);
    FileGoes([], Start(Small, SmallSummary), b, NoFile, 368, 0, FirstA, 208);
    var q := PutRecord(Small, Start(Small, SmallSummary).(current := CurrentOf(FirstA.attrs)), FileTagged(0, FirstA));
    NothingLeft(q, 0, 0, 1, []);
    assert [SummaryTagged()] + [FileTagged(0, FirstA)] == [SummaryTagged(), FileTagged(0, FirstA)];
    assert [] + [NameA] == [NameA];
    assert Whole([]) == [];
  }

  lemma SecondAdded(closed: seq<DataBlock>)
    ensures var current := CurrentOf(SecondA.attrs);
            Add(Small, Packer(closed, None, current, false, 0), 1, SecondA)
            == Packer(closed + [MixedBlocks()[1]], Some(MixedBlocks()[2]), current, false, 0)
  {
    hide At, Encode, PutRecord, AddData, CurrentOf, SummaryRecord, Number, Ones;
    var current, t := CurrentOf(SecondA.attrs), FileTagged(1, SecondA);
    var p := Packer(closed, None, current, false, 0);
    NameSize(NameA);
    TakesFirst(Small, p, t);
    AtAppend([], t);
    EmptyAt();
    assert [] + [t] == [t];
    var b := DataBlock(current, [t], []);
    var q := Packer(closed, Some(b), current, false, 0);
    var data := Ones(4);
    assert Whole(data) == data;
    DataRun(closed, q, b, current, 480, 1, 1, data, 1536);
    var v := DataTagged(1, 1, data[..1536]);
    var c := b.(records := [t] + [v]);
    assert [t] + [v] == [t, v];
    FreshRun(closed, Taken(q, v), c, current, 2032, 1, 4, data[1536..], 512);
    var w := DataTagged(1, 4, data[1536..][..512]);
    assert data[1536..][..512] == data[1536..] && data[1536..][512..] == [];
    NothingLeft(Packer(closed + [c], Some(DataBlock(current, [w], [])), current, false, 0), 1, 0, 5,
      data[1536..][512..]);
    assert [] + [NameA] == [NameA];
  }

  lemma MixedPacked()
    ensures BlocksOf(Pack(Small, SmallSummary, TwoCalls)) == MixedBlocks() && Files(TwoCalls) == [FirstA, SecondA]
  {
    hide Add, Start, CurrentOf, SummaryRecord, FileRecord, Number, Ones;
    var c := TwoCalls;
    assert c[..2][..1] == c[..1] && c[..1][..0] == [] && c[..2] == c[..|c| - 1];
    assert Files(c[..1]) == [FirstA] by {
      assert Files([]) == [];
    }
    assert Files(c[..2]) == [FirstA];
    CallsOf(Small, SmallSummary, []);
    CallsOf(Small, SmallSummary, c[..1]);
    CallsOf(Small, SmallSummary, c[..2]);
    CallsOf(Small, SmallSummary, c);
    FirstAdded();
    var b := DataBlock(NoFile, [SummaryTagged(), FileTagged(0, FirstA)], [NameA]);
    assert Pack(Small, SmallSummary, c[..1]) == Packer([], Some(b), CurrentOf(FirstA.attrs), false, 0);
    assert Pack(Small, SmallSummary, c[..2]) == Packer([b], None, CurrentOf(FirstA.attrs), false, 0);
    SecondAdded([b]);
  }

  // ---- The file with a long name ----

  /** The three blocks: the summary, the file and two virtual blocks of it; three more; and its sixth. */
  function LongBlocks(): seq<DataBlock> {
    [DataBlock(NoFile, [SummaryTagged(), FileTagged(0, LongNamed), DataTagged(0, 1, Ones(6)[..1024])], []),
     DataBlock(CurrentOf(LongNamed.attrs), [DataTagged(0, 3, Ones(6)[1024..2560])], []),
     DataBlock(CurrentOf(LongNamed.attrs), [DataTagged(0, 6, Ones(6)[2560..])], [LongName])]
  }

  lemma LongAdded()
    ensures Add(Small, Start(Small, SmallSummary), 0, LongNamed)
            == Packer(LongBlocks()[..2], Some(LongBlocks()[2]), CurrentOf(LongNamed.attrs), false, 0)
  {
    hide At, Encode, PutRecord, AddData, CurrentOf, SummaryRecord, Number, Ones, Start;
    Begins();
    var b0 := DataBlock(NoFile, [SummaryTagged()], []);
    var current, t, data := CurrentOf(LongNamed.attrs), FileTagged(0, LongNamed), Ones(6);
    NameSize(LongName);
    FileGoes([], Start(Small, SmallSummary), b0, NoFile, 368, 0, LongNamed, 335);
    var q := PutRecord(Small, Start(Small, SmallSummary).(current := current), t);
    var b1 := b0.(records := [SummaryTagged()] + [t]);
    assert Whole(data) == data;
    DataRun([], q, b1, current, 720, 0, 1, data, 1024);
    var v := DataTagged(0, 1, data[..1024]);
    var c1 := b1.(records := b1.records + [v]);
    assert c1 == LongBlocks()[0];
    FreshRun([], Taken(q, v), c1, current, 1760, 0, 3, data[1024..], 1536);
    assert data[1024..][..1536] == data[1024..2560] && data[1024..][1536..] == data[2560..];
    var c2 := DataBlock(current, [DataTagged(0, 3, data[1024..2560])], []);
    var r := Packer([] + [c1], Some(c2), current, false, 0);
    FreshRun([] + [c1], r, c2, current, 1808, 0, 6, data[2560..], 512);
    LongEnds(c1, c2, current, data[2560..]);
  }

  lemma LongEnds(c1: DataBlock, c2: DataBlock, current: CurrentFile, rest: bytes)
    requires |rest| == 512
    ensures var q := Packer([] + [c1] + [c2], Some(DataBlock(current, [DataTagged(0, 6, rest[..512])], [])), current,
              false, 0);
            && AddData(Small, q, 0, 0, 7, rest[512..]) == q && rest[..512] == rest && [] + [c1] + [c2] == [c1, c2]
            && [] + [LongName] == [LongName]
  {
    hide AddData, Number;
    var q := Packer([] + [c1] + [c2], Some(DataBlock(current, [DataTagged(0, 6, rest[..512])], [])), current, false, 0);
    NothingLeft(q, 0, 0, 7, rest[512..]);
  }

  lemma LongPacked()
    ensures BlocksOf(Pack(Small, SmallSummary, OneCall)) == LongBlocks() && Files(OneCall) == [LongNamed]
  {
    hide Add, Start, CurrentOf, SummaryRecord, FileRecord, Number, Ones;
    assert OneCall[..0] == [];
    assert Files([]) == [];
    CallsOf(Small, SmallSummary, []);
    CallsOf(Small, SmallSummary, OneCall);
    LongAdded();
    assert LongBlocks()[..2] + [LongBlocks()[2]] == LongBlocks();
  }

  // ---- Reading three blocks, the second lost ----

  /**
   * What is decoded: the files kept, the last with the record too that the third block leads with, if it is another's.
   */
  ghost predicate MisreadAs(d: Decoding, files: seq<Entry>, kept: seq<Tagged>, t: Tagged)
    requires InRange(files, Survivors(kept)) && Survivors(kept) != []
  {
    var right := FilesOf(files, Survivors(kept), kept);
    var n := |right| - 1;
    d.files == if t.owner == LastOf(kept) then right
               else right[n := right[n].(runs := right[n].runs + [Run(t.rec.address, t.rec.body)])]
  }

  /** The third block, when it confuses. */
  lemma ThirdTaken(l: Layout, files: seq<Entry>, kept: seq<Tagged>, owner: int, d: Decoding, b: DataBlock, block: bytes)
    requires ValidLayout(l) && BlockSound(l, files, b) && |b.records| == 1 && |block| >= HeaderSize
    requires block == DataBytes(l, 3, b)
    requires Stated(files, kept, owner, d) && d.lastLost && Confused(files, kept, b.records[0])
    requires b.records[0].rec.address > 0
    requires |b.records[0].rec.body| % VBNSize == 0
    ensures InRange(files, Survivors(kept)) && Survivors(kept) != []
    ensures TakeBlock(d, 2, block, false).Some?
    ensures MisreadAs(TakeBlock(d, 2, block, false).value, files, kept, b.records[0])
  {
    hide DataBytes, Resume, Cut, RecordsFrom, CurrentFor, Survivors, Runs, Application, ParseCurrent, Confused, Stated,
      AllWritable, Padded, TakeRecord, FilesOf, InRange;
    var t := b.records[0];
    BlockReads(l, 2, b);
    BeforeConfused(files, kept, owner, d, t);
    StatedFiles(files, kept, owner, d, t);
    var r := Resume(d, Cut(CurrentFor(files, t.owner).name, 128));
    Confusion.FirstTaken(r, 2, b.records);
    assert PaddedRecords(Recs(b.records))[..1] == PaddedRecords(Recs(b.records));
    ThirdRecord(files, kept, d, t);
  }

  lemma StatedFiles(files: seq<Entry>, kept: seq<Tagged>, owner: int, d: Decoding, t: Tagged)
    requires Stated(files, kept, owner, d) && Confused(files, kept, t)
    ensures InRange(files, Survivors(kept)) && Survivors(kept) != [] && d.files == FilesOf(files, Survivors(kept), kept)
  {
    hide Survivors, Runs, NoneBeyond, Behind, Increasing, InStep;
  }

  lemma ThirdRecord(files: seq<Entry>, kept: seq<Tagged>, d: Decoding, t: Tagged)
    requires DecodingSound(d) && d.lastLost && d.reading && Confused(files, kept, t) && t.rec.address > 0
    requires |t.rec.body| % VBNSize == 0
    requires InRange(files, Survivors(kept)) && Survivors(kept) != []
    requires d.files == FilesOf(files, Survivors(kept), kept)
    requires LastFile(d).attrs.name == files[LastOf(kept)].attrs.name
    ensures var r := TakeRecord(Resume(d, Cut(CurrentFor(files, t.owner).name, 128)), 2, 0, PaddedRecord(t.rec));
            r.Some? && MisreadAs(r.value, files, kept, t)
  {
    hide Survivors, Runs, Padded, Cut, CurrentFor, FilesOf;
    WholeBody(t.rec.body);
    var right := FilesOf(files, Survivors(kept), kept);
    var n := |right| - 1;
    var run := Run(t.rec.address, t.rec.body);
    assert right[..n] + [right[n].(runs := right[n].runs + [run])]
             == right[n := right[n].(runs := right[n].runs + [run])];
  }

  /** Three data blocks, of which the second is lost and the third confuses. */
  lemma DecodesMisread(l: Layout, s: Summary, files: seq<Entry>, slots: seq<Slot>, blocks: seq<bytes>, lost: seq<nat>)
    requires SaveSetSound(l, s, files, slots) && Readable(l, slots, blocks, lost) && |slots| == 3
    requires slots[1].Holds? && slots[2].Holds? && |slots[2].block.records| == 1 && 1 !in lost && 2 in lost
    requires 3 !in lost
    requires Confused(files, KeptOf(slots[..2], lost), slots[2].block.records[0])
    requires |slots[2].block.records[0].rec.body| % VBNSize == 0
    ensures AllHeaded(blocks) && Decode(blocks, lost).Some?
    ensures var kept := KeptOf(slots[..2], lost);
            && InRange(files, Survivors(kept)) && Survivors(kept) != []
            && MisreadAs(Decode(blocks, lost).value, files, kept, slots[2].block.records[0])
  {
    hide SaveSetSound, TakeBlocks, TakeBlock, Confused, Stated, KeptOf, RecordsOf, DataBytes, MisreadAs, BlockSound,
      Fits;
    forall m: nat | m < 2
      ensures !ConfusedAt(files, slots, lost, m)
    {
    }
    AllTaken(l, s, files, slots, blocks, lost, 2);
    assert blocks[..3] == blocks;
    StepOf(slots, blocks, lost, 2);
    LeadAddress(l, s, files, slots, 2);
    SlotSound(l, s, files, slots, 2);
    ConfusedKind(files, KeptOf(slots[..2], lost), slots[2].block.records[0]);
    assert ReadableAt(l, slots[2], 3, blocks[2]);
    ThirdTaken(l, files, KeptOf(slots[..2], lost), LastOf(RecordsOf(slots[..2])), TakeBlocks(blocks[..2], lost).value,
      slots[2].block, blocks[2]);
  }

  lemma SlotSound(l: Layout, s: Summary, files: seq<Entry>, slots: seq<Slot>, n: nat)
    requires SaveSetSound(l, s, files, slots) && n < |slots| && slots[n].Holds?
    ensures ValidLayout(l) && BlockSound(l, files, slots[n].block)
  {
    hide BlockSound, Chained, RecordsOf;
  }

  // ---- Three blocks written, and received with the second damaged ----

  /** calls write just these blocks. */
  ghost predicate WritesThree(calls: seq<Call>, blocks: seq<DataBlock>) {
    && Writes(SmallSummary, true, Files(calls)) && AllCountable(Files(calls)) && |blocks| == 3
    && WrittenSlots(SmallSummary, true, calls) == [Holds(blocks[0]), Holds(blocks[1]), Holds(blocks[2])]
    && SlotsFit(Small, WrittenSlots(SmallSummary, true, calls))
  }

  lemma ThreeSlots(blocks: seq<DataBlock>)
    requires |blocks| == 3
    ensures SaveSetSlots(0, blocks) == [Holds(blocks[0]), Holds(blocks[1]), Holds(blocks[2])]
  {
    assert blocks[..2][..1] == blocks[..1] && blocks[..1][..0] == [];
    assert Slots(0, blocks[..1]) == [Holds(blocks[0])];
    assert Slots(0, blocks[..2]) == [Holds(blocks[0]), Holds(blocks[1])];
  }

  lemma ThreeWritten(calls: seq<Call>, blocks: seq<DataBlock>)
    requires BlocksOf(Pack(Small, SmallSummary, calls)) == blocks && |blocks| == 3
    requires RecordsFit(Small, SmallSummary, Files(calls)) && AllCountable(Files(calls))
    ensures WritesThree(calls, blocks)
  {
    hide Pack, Files, RecordsFit, AllCountable, SaveSetSlots, SaveSetSound, SlotsFit, Fed, RecordsOf, Flatten, Total,
      Grouped;
    ThreeSlots(blocks);
    WrittenSound(SmallSummary, true, calls);
  }

  lemma SmallFits(e: Entry)
    requires e.attrs.name == NameA || e.attrs.name == LongName
    requires e.attrs == Named(e.attrs.name) && |e.data| <= 6 * VBNSize && |e.data| % VBNSize == 0
    ensures Fitting(Small, EncodeSummary(SmallSummary)) && Fitting(Small, EncodeAttributes(e.attrs)) && Countable(e)
  {
    hide EncodeSummary, EncodeAttributes;
    SummarySize();
    NameSize(e.attrs.name);
  }

  lemma MixedWritten()
    ensures WritesThree(TwoCalls, MixedBlocks())
  {
    hide Pack, Files, Fitting, EncodeSummary, EncodeAttributes, Countable, Ones, MixedBlocks;
    MixedPacked();
    SmallFits(FirstA);
    SmallFits(SecondA);
    MixedThree();
    ThreeWritten(TwoCalls, MixedBlocks());
  }

  lemma MixedThree()
    ensures |MixedBlocks()| == 3
  {
  }

  lemma LongWritten()
    ensures WritesThree(OneCall, LongBlocks())
  {
    hide Pack, Files, Fitting, EncodeSummary, EncodeAttributes, Countable, Ones, LongBlocks;
    LongPacked();
    SmallFits(LongNamed);
    LongThree();
    ThreeWritten(OneCall, LongBlocks());
  }

  lemma LongThree()
    ensures |LongBlocks()| == 3
  {
  }

  /** Three blocks are received as they were sent, but for the second, whose damage a check shows. */
  ghost predicate SecondDamaged(sent: seq<bytes>, received: seq<bytes>, checkCRC: bool) {
    && |sent| == 3 && |received| == 3 && received[0] == sent[0] && received[2] == sent[2]
    && |sent[1]| == MinBlockSize == |received[1]|
    && Bad(received, 1, checkCRC) && Application(received[1]) == Application(sent[1])
  }

  /** What is received of the blocks calls write. */
  ghost predicate ReceivedSo(calls: seq<Call>, received: seq<bytes>, checkCRC: bool) {
    && SlotsFit(Small, WrittenSlots(SmallSummary, true, calls))
    && SecondDamaged(Stream(Small, WrittenSlots(SmallSummary, true, calls)), received, checkCRC)
  }

  /** The first byte of the second block, inverted, is such damage. */
  lemma Spoiled(calls: seq<Call>, blocks: seq<DataBlock>, checkCRC: bool)
    requires WritesThree(calls, blocks)
    ensures var sent := Stream(Small, WrittenSlots(SmallSummary, true, calls));
            && |sent| == 3 && |sent[1]| >= HeaderSize
            && ReceivedSo(calls, sent[1 := sent[1][0 := 0xFF - sent[1][0]]], checkCRC)
  {
    hide Files, AllCountable, Writes, SaveSetSound, Fed, Flatten, RecordsOf, Total, Stream, WrittenSlots, SlotsFit,
      Intact, Application, Grouped;
    var slots := WrittenSlots(SmallSummary, true, calls);
    WrittenSound(SmallSummary, true, calls);
    SentFacts(Small, slots, 1, checkCRC);
    var block := Stream(Small, slots)[1];
    SpoiledBad(block, checkCRC);
  }

  lemma SpoiledBad(block: bytes, checkCRC: bool)
    requires |block| >= HeaderSize && Intact(block, checkCRC)
    ensures var b := block[0 := 0xFF - block[0]];
            !Intact(b, checkCRC) && Application(b) == Application(block)
  {
    hide HeaderChecksum, CrcIntact, Unsigned;
    var b := block[0 := 0xFF - block[0]];
    assert Field(b, ChecksumAt, 2) == Field(block, ChecksumAt, 2);
    assert Field(b, 6, 2) == Field(block, 6, 2);
    ChecksumDetects(b, block, 0);
  }

  /** Just the second block is lost. */
  lemma SecondGone(c: Case, s: Summary, files: seq<Entry>)
    requires Given(c, s, files) && c.l.group == 0 && |c.slots| == 3 && SecondDamaged(c.sent, c.received, c.checkCRC)
    requires c.slots[1].Holds?
    ensures !Gone(c, 0) && Gone(c, 1) && !Gone(c, 2)
  {
    hide SaveSetSound, FirstSays, SaysSaveSet, Intact, Setting, Application, Alone;
    SettingFacts(c);
    ReceivedFacts(c, 0);
    ReceivedFacts(c, 2);
  }

  lemma SecondLost(c: Case, s: Summary, files: seq<Entry>, r: Repairing)
    requires Given(c, s, files) && c.l.group == 0 && |c.slots| == 3 && SecondDamaged(c.sent, c.received, c.checkCRC)
    requires c.slots[1].Holds?
    requires AllSized(c.received, c.l.blockSize) && c.l.blockSize >= HeaderSize && c.received != []
    requires r == Repair(c.received, c.l.blockSize, c.checkCRC)
    ensures Readable(c.l, c.slots, r.blocks, r.lost) && forall k: nat :: k in r.lost <==> k == 2
  {
    hide Given, SecondDamaged, Repair, Gone, Saved, Readable;
    SecondGone(c, s, files);
    RepairedBlocks(c, s, files, r);
    assert RepairedAt(c, r, 0) && RepairedAt(c, r, 1) && RepairedAt(c, r, 2);
  }

  lemma SecondGiven(calls: seq<Call>, blocks: seq<DataBlock>, received: seq<bytes>, checkCRC: bool)
    requires WritesThree(calls, blocks) && ReceivedSo(calls, received, checkCRC)
    ensures var c := CaseOf(SmallSummary, true, calls, received, checkCRC);
            && Given(c, SmallSummary, Files(calls)) && AllSized(received, MinBlockSize)
            && SaysSaveSet(received[0], MinBlockSize)
            && SecondDamaged(c.sent, received, checkCRC)
  {
    hide Files, AllCountable, Writes, SaveSetSound, Fed, Flatten, RecordsOf, Total, Stream, WrittenSlots, SlotsFit,
      Intact, Application, Grouped, SaysSaveSet, Given, Good;
    WrittenSound(SmallSummary, true, calls);
    SentSays(Small, WrittenSlots(SmallSummary, true, calls));
    WrittenGiven(SmallSummary, true, calls, received, checkCRC);
  }

  /** What is read: the second block is lost, and the third's record misread. */
  ghost predicate ReadsMisread(calls: seq<Call>, received: seq<bytes>, checkCRC: bool, kept: seq<Tagged>, t: Tagged) {
    var ss := Read(Join(received), checkCRC);
    && ss.Some? && (forall k: nat :: k in ss.value.lost <==> k == 2)
    && InRange(Files(calls), Survivors(kept)) && Survivors(kept) != []
    && MisreadAs(Decoding(ss.value.files, false, false, ss.value.summary), Files(calls), kept, t)
  }

  lemma ThirdMisread(calls: seq<Call>, blocks: seq<DataBlock>, received: seq<bytes>, checkCRC: bool, o: nat)
    requires WritesThree(calls, blocks) && ReceivedSo(calls, received, checkCRC)
    requires ThreeBlocks(SmallSummary, Files(calls), o, WrittenSlots(SmallSummary, true, calls))
    requires ConfusedAt(Files(calls), WrittenSlots(SmallSummary, true, calls), [2], 2)
    requires |blocks[2].records| == 1 && |blocks[2].records[0].rec.body| % VBNSize == 0
    ensures ReadsMisread(calls, received, checkCRC, blocks[0].records, blocks[2].records[0])
  {
    hide Files, AllCountable, Writes, SaveSetSound, Fed, Flatten, RecordsOf, Total, Stream, WrittenSlots, SlotsFit,
      SecondDamaged, Grouped, SaysSaveSet, Given, Confused, Repair, Decode, Read, KeptOf, Survivors, MisreadAs,
      Readable, OfOneFile;
    var slots, files := WrittenSlots(SmallSummary, true, calls), Files(calls);
    SecondGiven(calls, blocks, received, checkCRC);
    var c := CaseOf(SmallSummary, true, calls, received, checkCRC);
    GivenSound(c, SmallSummary, files);
    var r := Repair(received, MinBlockSize, checkCRC);
    SecondLost(c, SmallSummary, files, r);
    ReadBlocks(received, MinBlockSize, checkCRC);
    SameKept(slots, r.lost, [2], 2);
    FirstKept(SmallSummary, files, o, slots);
    DecodesMisread(Small, SmallSummary, files, slots, r.blocks, r.lost);
    SameMisread(files, blocks[0].records, blocks[2].records[0], Decode(r.blocks, r.lost).value);
  }

  lemma GivenSound(c: Case, s: Summary, files: seq<Entry>)
    requires Given(c, s, files)
    ensures SaveSetSound(c.l, s, files, c.slots) && |c.received| == |c.slots| > 0
  {
    hide Setting, SaveSetSound, FirstSays, SaysSaveSet;
    SettingFacts(c);
  }

  lemma SameMisread(files: seq<Entry>, kept: seq<Tagged>, t: Tagged, d: Decoding)
    requires InRange(files, Survivors(kept)) && Survivors(kept) != []
    ensures MisreadAs(Decoding(d.files, false, false, d.summary), files, kept, t) <==> MisreadAs(d, files, kept, t)
  {
    hide InRange, Survivors, FilesOf;
  }

  // ---- What becomes of the files ----

  lemma MixedThird(files: seq<Entry>, slots: seq<Slot>)
    requires files == [FirstA, SecondA]
    requires slots == [Holds(MixedBlocks()[0]), Holds(MixedBlocks()[1]), Holds(MixedBlocks()[2])]
    ensures ThreeBlocks(SmallSummary, files, 1, slots) && ConfusedAt(files, slots, [2], 2)
    ensures var ts := MixedBlocks()[2].records; |ts| == 1 && |ts[0].rec.body| % VBNSize == 0
  {
    hide ConfusedAt, EncodeSummary, EncodeAttributes, CurrentOf, Number, Repeated;
    EqualNamesConfuse(SmallSummary, files, slots);
  }

  lemma MixedFiles(files: seq<Entry>, d: Decoding)
    requires files == [FirstA, SecondA]
    requires var kept, t := MixedBlocks()[0].records, MixedBlocks()[2].records[0];
             InRange(files, Survivors(kept)) && Survivors(kept) != [] && MisreadAs(d, files, kept, t)
    ensures d.files == [FileOf(FirstA, [Run(4, Ones(4)[1536..])])]
  {
    hide EncodeSummary, EncodeAttributes, CurrentOf, Ones, Survivors, FileOf;
    var kept := MixedBlocks()[0].records;
    FirstSurvives(SmallSummary, FirstA, kept);
    NoRuns(SummaryTagged(), FileTagged(0, FirstA), 0);
    assert Survivors(kept) == [0];
    FileRuns(FirstA, [Run(4, Ones(4)[1536..])]);
    var right := FilesOf(files, Survivors(kept), kept);
    assert right == [FileOf(FirstA, [])];
    assert right[0 := right[0].(runs := right[0].runs + [Run(4, Ones(4)[1536..])])]
           == [right[0].(runs := right[0].runs + [Run(4, Ones(4)[1536..])])];
  }

  lemma FileRuns(e: Entry, runs: seq<Run>)
    ensures FileOf(e, []).(runs := FileOf(e, []).runs + runs) == FileOf(e, runs)
  {
    assert [] + runs == runs;
  }

  lemma NoRuns(t: Tagged, u: Tagged, owner: int)
    requires t.rec.kind != RecordVBN && u.rec.kind != RecordVBN
    ensures Runs([t, u], owner) == []
  {
    assert [t, u][..1] == [t] && [t][..0] == [];
    assert Runs([t], owner) == [];
  }

  /**
   * Two files named A, the second's first block damaged: the first, which had no data, is read with the last virtual
   * block of the second's.
   */
  lemma MixedRead(received: seq<bytes>, checkCRC: bool)
    requires ReceivedSo(TwoCalls, received, checkCRC)
    ensures Files(TwoCalls) == [FirstA, SecondA] && WritesThree(TwoCalls, MixedBlocks())
    ensures var ss := Read(Join(received), checkCRC);
            && ss.Some? && (forall k: nat :: k in ss.value.lost <==> k == 2)
            && ss.value.files == [FileOf(FirstA, [Run(4, Ones(4)[1536..])])]
  {
    hide ReceivedSo, Ones, Read, Pack, Files, WrittenSlots, SlotsFit, Writes, AllCountable, MixedBlocks, MisreadAs,
      Survivors, ThreeBlocks, ConfusedAt, InRange, FileOf;
    MixedPacked();
    MixedWritten();
    MixedThird(Files(TwoCalls), WrittenSlots(SmallSummary, true, TwoCalls));
    ThirdMisread(TwoCalls, MixedBlocks(), received, checkCRC, 1);
    var ss := Read(Join(received), checkCRC).value;
    MixedFiles(Files(TwoCalls), Decoding(ss.files, false, false, ss.summary));
  }

  lemma LongThird(files: seq<Entry>, slots: seq<Slot>)
    requires files == [LongNamed]
    requires slots == [Holds(LongBlocks()[0]), Holds(LongBlocks()[1]), Holds(LongBlocks()[2])]
    ensures ThreeBlocks(SmallSummary, files, 0, slots) && ConfusedAt(files, slots, [2], 2)
    ensures var ts := LongBlocks()[2].records; |ts| == 1 && |ts[0].rec.body| % VBNSize == 0
  {
    hide ConfusedAt, EncodeSummary, EncodeAttributes, CurrentOf, Number, Repeated;
    LongNameConfuses(SmallSummary, files, slots);
  }

  lemma LongFiles(files: seq<Entry>, d: Decoding)
    requires files == [LongNamed]
    requires var kept, t := LongBlocks()[0].records, LongBlocks()[2].records[0];
             InRange(files, Survivors(kept)) && Survivors(kept) != [] && MisreadAs(d, files, kept, t)
    ensures d.files == [FileOf(LongNamed, [Run(1, Ones(6)[..1024])])]
  {
    hide EncodeSummary, EncodeAttributes, CurrentOf, Ones, Survivors, FileOf;
    var kept := LongBlocks()[0].records;
    FirstSurvives(SmallSummary, LongNamed, kept);
    LongRuns(Ones(6));
    var right := FilesOf(files, Survivors(kept), kept);
    assert right == [FileOf(LongNamed, [Run(1, Ones(6)[..1024])])];
  }

  lemma LongRuns(data: bytes)
    requires |data| == 6 * VBNSize
    ensures var kept := [SummaryTagged(), FileTagged(0, LongNamed), DataTagged(0, 1, data[..1024])];
            && Runs(kept, 0) == [Run(1, data[..1024])]
            && Runs(kept + [DataTagged(0, 6, data[2560..])], 0) == [Run(1, data[..1024]), Run(6, data[2560..])]
  {
    hide EncodeSummary, EncodeAttributes;
    var two := [SummaryTagged(), FileTagged(0, LongNamed)];
    NoRuns(SummaryTagged(), FileTagged(0, LongNamed), 0);
    RunsAppend(two, DataTagged(0, 1, data[..1024]), 0);
    var kept := two + [DataTagged(0, 1, data[..1024])];
    assert kept == [SummaryTagged(), FileTagged(0, LongNamed), DataTagged(0, 1, data[..1024])];
    RunsAppend(kept, DataTagged(0, 6, data[2560..]), 0);
  }

  lemma KeptOfThree(slots: seq<Slot>)
    requires |slots| == 3 && slots[0].Holds? && slots[2].Holds?
    ensures KeptOf(slots, [2]) == slots[0].block.records + slots[2].block.records
  {
    assert slots[..2][..1] == [slots[0]] && [slots[0]][..0] == [];
    assert KeptOf([slots[0]], [2]) == KeptOf([], [2]) + slots[0].block.records;
    assert [] + slots[0].block.records == slots[0].block.records;
  }

  lemma LongLeft(slots: seq<Slot>)
    requires slots == [Holds(LongBlocks()[0]), Holds(LongBlocks()[1]), Holds(LongBlocks()[2])]
    ensures Runs(KeptOf(slots, [2]), 0) == [Run(1, Ones(6)[..1024]), Run(6, Ones(6)[2560..])]
  {
    hide EncodeSummary, EncodeAttributes, CurrentOf, Repeated, KeptOf;
    KeptOfThree(slots);
    LongRuns(Ones(6));
  }

  /**
   * A file with a name of 128 bytes: its sixth virtual block is left out, though the block that holds it is as written.
   */
  lemma LongRead(received: seq<bytes>, checkCRC: bool)
    requires ReceivedSo(OneCall, received, checkCRC)
    ensures Files(OneCall) == [LongNamed] && WritesThree(OneCall, LongBlocks())
    ensures var ss := Read(Join(received), checkCRC);
            && ss.Some? && (forall k: nat :: k in ss.value.lost <==> k == 2)
            && ss.value.files == [FileOf(LongNamed, [Run(1, Ones(6)[..1024])])]
            && Runs(KeptOf(WrittenSlots(SmallSummary, true, OneCall), [2]), 0)
               == [Run(1, Ones(6)[..1024]), Run(6, Ones(6)[2560..])]
  {
    hide ReceivedSo, Ones, Read, Pack, Files, WrittenSlots, SlotsFit, Writes, AllCountable, LongBlocks, MisreadAs,
      Survivors, ThreeBlocks, ConfusedAt, InRange, FileOf, KeptOf, Runs;
    LongPacked();
    LongWritten();
    LongThird(Files(OneCall), WrittenSlots(SmallSummary, true, OneCall));
    LongLeft(WrittenSlots(SmallSummary, true, OneCall));
    ThirdMisread(OneCall, LongBlocks(), received, checkCRC, 0);
    var ss := Read(Join(received), checkCRC).value;
    LongFiles(Files(OneCall), Decoding(ss.files, false, false, ss.summary));
  }
}
