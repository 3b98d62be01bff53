/** A save set written and read back: whole, repaired, or with blocks lost. */
module SaveSets {
  import opened Bytes
  import opened Crc
  import opened Blocks
  import opened AttributeLists
  import opened SaveSetStream
  import opened Groups
  import opened Packing
  import opened Reading
  import opened Recovery
  import opened Restoring
  import opened Confusion
  import opened FileData

  // ---- What a Writer writes ----

  /** The blocks of the save set, after Close. */
  function WrittenSlots(s: Summary, crc: bool, calls: seq<Call>): seq<Slot>
    requires ValidLayout(LayoutOf(s, crc))
  {
    SaveSetSlots(s.groupSize, BlocksOf(Pack(LayoutOf(s, crc), s, calls)))
  }

  /** The block size is one BACKUP allows, and every record fits a block. */
  predicate Writes(s: Summary, crc: bool, files: seq<Entry>) {
    ValidLayout(LayoutOf(s, crc)) && RecordsFit(LayoutOf(s, crc), s, files)
  }

  lemma {:induction false} RecordsOfBlocks(slots: seq<Slot>)
    ensures RecordsOf(slots) == Flatten(BlocksIn(slots))
  {
    if slots != [] {
      RecordsOfBlocks(slots[..|slots| - 1]);
      if slots[|slots| - 1].Holds? {
        FlattenAppend(BlocksIn(slots[..|slots| - 1]), slots[|slots| - 1].block);
      }
    }
  }

  lemma {:induction false} BlockAmong(slots: seq<Slot>, i: nat)
    requires i < |slots| && slots[i].Holds?
    ensures slots[i].block in BlocksIn(slots)
  {
    if i < |slots| - 1 {
      assert slots[..|slots| - 1][i] == slots[i];
      BlockAmong(slots[..|slots| - 1], i);
    }
  }

  lemma SlotsSound(l: Layout, files: seq<Entry>, blocks: seq<DataBlock>, slots: seq<Slot>)
    requires BlocksSound(l, files, blocks) && BlocksIn(slots) == blocks
    ensures SlotsFit(l, slots)
    ensures forall i :: 0 <= i < |slots| && slots[i].Holds? ==> BlockSound(l, files, slots[i].block)
  {
    hide BlocksIn, Fits, CurrentFor;
    forall i | 0 <= i < |slots| && slots[i].Holds?
      ensures BlockSound(l, files, slots[i].block) && SlotFits(l, slots[i])
    {
      BlockAmong(slots, i);
    }
  }

  /** What was written is a save set of the files, in whole groups. */
  lemma WrittenSound(s: Summary, crc: bool, calls: seq<Call>)
    requires Writes(s, crc, Files(calls)) && AllCountable(Files(calls))
    ensures var l, slots := LayoutOf(s, crc), WrittenSlots(s, crc, calls);
            Complete(l, slots) && SaveSetSound(l, s, Files(calls), slots)
    ensures var p := Pack(LayoutOf(s, crc), s, calls);
            RecordsOf(WrittenSlots(s, crc, calls)) == Flatten(BlocksOf(p))
    ensures var n := |Files(calls)|;
            Fed(RecordsOf(WrittenSlots(s, crc, calls)), s, Files(calls), n, Total(Files(calls), n))
  {
    hide Pack, Files, Fed, Flatten, Dones, BlocksIn, BlockSound, Chained, Slots, RecordsOf, RecordsFit, Total, Fits,
      Grouped, CurrentFor;
    var l, files := LayoutOf(s, crc), Files(calls);
    var p, n := Pack(l, s, calls), |Files(calls)|;
    PackSound(l, s, calls, files);
    var blocks := BlocksOf(p);
    var slots := SaveSetSlots(l.group, blocks);
    BlocksInSlots(l.group, blocks);
    ClosedGrouped(l.group, blocks);
    RecordsOfBlocks(slots);
    SlotsSound(l, files, blocks, slots);
    FedChained(Flatten(blocks), s, files, n, Total(files, n));
    FedSome(Flatten(blocks), s, files, n, Total(files, n));
    FirstIsData(l.group, blocks);
  }

  lemma FedSome(ts: seq<Tagged>, s: Summary, files: seq<Entry>, n: nat, at: nat)
    requires Fed(ts, s, files, n, at)
    ensures ts != []
  {
  }

  lemma {:induction false} FirstIsData(g: nat, blocks: seq<DataBlock>)
    requires Flatten(blocks) != []
    ensures SaveSetSlots(g, blocks) != [] && SaveSetSlots(g, blocks)[0].Holds?
  {
    assert blocks != [];
    FirstSlot(g, blocks);
  }

  lemma {:induction false} FirstSlot(g: nat, blocks: seq<DataBlock>)
    requires blocks != []
    ensures Slots(g, blocks) != [] && Slots(g, blocks)[0].Holds?
  {
    if |blocks| > 1 {
      FirstSlot(g, blocks[..|blocks| - 1]);
    }
  }

  // ---- Block 1 ----

  /** Block 1's first record is the summary, which gives the group size. */
  lemma FirstBlockSays(s: Summary, crc: bool, files: seq<Entry>, slots: seq<Slot>)
    requires Complete(LayoutOf(s, crc), slots) && SaveSetSound(LayoutOf(s, crc), s, files, slots)
    ensures FirstSays(Stream(LayoutOf(s, crc), slots)[0], s.groupSize)
  {
    hide Stream, Grouped, SlotsFit, Chained, DataBytes, RecordsFrom, MayFollow, PaddedRecords, BlockSound, FirstSays,
      Recs, RecordsOf;
    hide Fits, PaddedRecord, Writable, AllHeaded;
    var l, b := LayoutOf(s, crc), slots[0].block;
    DataAt(l, slots, 0);
    BlockReads(l, 0, b);
    assert BlockSound(l, files, b);
    FirstSummary(l, s, files, slots);
    FirstPadded(b.records);
    SummarySays(s, DataBytes(l, 1, b), PaddedRecords(Recs(b.records)));
  }

  lemma SummarySays(s: Summary, block: bytes, records: seq<Record>)
    requires |block| >= HeaderSize && RecordsFrom(block, HeaderSize) == Parsed(records, true)
    requires records != [] && records[0] == PaddedRecord(SummaryRecord(s)) && Writable(SummaryRecord(s))
    ensures FirstSays(block, s.groupSize)
  {
    hide RecordsFrom, ParseSummary, EncodeSummary, Padded, PaddedSize;
    SummaryParses(s);
  }

  lemma FirstSummary(l: Layout, s: Summary, files: seq<Entry>, slots: seq<Slot>)
    requires SaveSetSound(l, s, files, slots) && BlockSound(l, files, slots[0].block)
    ensures var ts := slots[0].block.records;
            ts != [] && ts[0].rec == SummaryRecord(s) && Writable(ts[0].rec)
  {
    hide BlockSound, MayFollow, EncodeSummary, RecordsOf;
    SoundSome(l, files, slots[0].block);
    RecordsOfPrefix(slots, 1);
    assert slots[..1][0] == slots[0];
    FirstRecords(slots[..1]);
    var ts := slots[0].block.records;
    assert Recs(ts)[0] == ts[0].rec;
  }

  lemma FirstPadded(ts: seq<Tagged>)
    requires ts != []
    ensures PaddedRecords(Recs(ts)) != [] && PaddedRecords(Recs(ts))[0] == PaddedRecord(ts[0].rec)
  {
  }

  // ---- Images ----

  function Join(blocks: seq<bytes>): bytes {
    if blocks == [] then [] else blocks[0] + Join(blocks[1..])
  }

  lemma {:induction false} ChopJoin(blocks: seq<bytes>, size: nat)
    requires size > 0 && AllSized(blocks, size)
    ensures Chop(Join(blocks), size) == blocks
  {
    if blocks != [] {
      var rest := Join(blocks[1..]);
      ChopJoin(blocks[1..], size);
      assert (blocks[0] + rest)[..size] == blocks[0] && (blocks[0] + rest)[size..] == rest;
    }
  }

  // ---- Reading it back ----

  /** The three fields of block 1 that say the file is a save set, and its block size. */
  predicate SaysSaveSet(block: bytes, size: nat)
    requires |block| >= HeaderSize
  {
    Word(block, 0) == HeaderSize && Word(block, 4) == SubsystemBackup && Long(block, 40) == size
  }

  lemma SaysOfHeader(block: bytes, size: nat)
    requires |block| >= HeaderSize && MinBlockSize <= size <= MaxBlockSize && SaysSaveSet(block, size)
    ensures Plausible(block[..HeaderSize]) && Long(block[..HeaderSize], 40) == size
  {
    hide Word, Long;
    HeaderFields(block);
  }

  lemma HeaderFields(block: bytes)
    requires |block| >= HeaderSize
    ensures Word(block[..HeaderSize], 0) == Word(block, 0) && Word(block[..HeaderSize], 4) == Word(block, 4)
    ensures Long(block[..HeaderSize], 40) == Long(block, 40)
  {
    assert Field(block[..HeaderSize], 0, 2) == Field(block, 0, 2);
    assert Field(block[..HeaderSize], 4, 2) == Field(block, 4, 2);
    assert Field(block[..HeaderSize], 40, 4) == Field(block, 40, 4);
    hide Field, Unsigned;
  }

  /** Reading is repairing and decoding the blocks, once block 1 says what the file is. */
  lemma ReadBlocks(blocks: seq<bytes>, size: nat, checkCRC: bool)
    requires MinBlockSize <= size <= MaxBlockSize && blocks != [] && AllSized(blocks, size)
    requires SaysSaveSet(blocks[0], size)
    ensures var r := Repair(blocks, size, checkCRC);
            var d := Decode(r.blocks, r.lost);
            Read(Join(blocks), checkCRC) ==
            if d.None? then None
            else Some(SaveSet(size, |blocks|, d.value.summary, d.value.files, r.recovered, r.lost))
  {
    hide Repair, Decode, Chop, SaysSaveSet, Word, Long;
    ChopJoin(blocks, size);
    JoinFirst(blocks);
    SaysOfHeader(blocks[0], size);
  }

  lemma JoinFirst(blocks: seq<bytes>)
    requires blocks != [] && |blocks[0]| >= HeaderSize
    ensures |Join(blocks)| >= HeaderSize && Join(blocks)[..HeaderSize] == blocks[0][..HeaderSize]
  {
  }

  /** Where a block was not given up, it can be decoded. */
  lemma RepairedReadable(c: Case, r: Repairing)
    requires Setting(c) && |r.blocks| == |c.slots| && AllHeaded(r.blocks)
    requires forall i: nat :: i < |c.slots| ==> RepairedAt(c, r, i)
    ensures Readable(c.l, c.slots, r.blocks, r.lost)
  {
    hide Setting, ReadableAt, RepairedAt;
    forall i: nat | i < |c.slots| && i + 1 !in r.lost
      ensures ReadableAt(c.l, c.slots[i], i + 1, r.blocks[i])
    {
      RepairedReadableAt(c, r, i);
    }
  }

  lemma RepairedReadableAt(c: Case, r: Repairing, i: nat)
    requires Setting(c) && i < |c.slots| == |r.blocks| && AllHeaded(r.blocks) && RepairedAt(c, r, i) && i + 1 !in r.lost
    ensures ReadableAt(c.l, c.slots[i], i + 1, r.blocks[i])
  {
    hide Stream, Damaged, Grouped, SlotsFit, Saved, Gone, Application, Good, DataBytes;
    ReceivedFacts(c, i);
    if c.slots[i].Holds? {
      DataAt(c.l, c.slots, i);
      if Bad(c.received, i, c.checkCRC) {
        EitherWay(c, i);
      }
    } else {
      hide Fits;
      if Bad(c.received, i, c.checkCRC) {
        EitherWay(c, i);
      } else {
        GoodNotSaved(c, i);
      }
    }
  }

  lemma GoodNotSaved(c: Case, i: nat)
    requires i < |c.received| && !Bad(c.received, i, c.checkCRC)
    ensures !Saved(c, i) && !Gone(c, i)
  {
    hide Alone, Good;
  }

  // ---- The main theorems ----

  /** What was written of files by calls, and what was received of it. */
  function CaseOf(s: Summary, crc: bool, calls: seq<Call>, received: seq<bytes>, checkCRC: bool): Case
    requires ValidLayout(LayoutOf(s, crc)) && SlotsFit(LayoutOf(s, crc), WrittenSlots(s, crc, calls))
  {
    var l, slots := LayoutOf(s, crc), WrittenSlots(s, crc, calls);
    Case(l, slots, Stream(l, slots), received, checkCRC)
  }

  /** What reading gives of a damaged save set. */
  ghost predicate ReadsAs(c: Case, s: Summary, files: seq<Entry>, ss: SaveSet) {
    && ss.blockSize == c.l.blockSize && ss.blocks == |c.slots|
    && (forall i: nat :: i < |c.slots| ==>
         (i + 1 in ss.lost <==> Gone(c, i)) && (i + 1 in ss.recovered <==> Saved(c, i)))
    && DecodesTo(Decoding(ss.files, false, false, ss.summary), s, files, c.slots, ss.lost)
  }

  /** Given a finished save set of files and any detected damage to it that leaves block 1 saying what it is. */
  ghost predicate Given(c: Case, s: Summary, files: seq<Entry>) {
    && Setting(c) && SaveSetSound(c.l, s, files, c.slots) && FirstSays(c.sent[0], c.l.group)
    && |c.received[0]| >= HeaderSize && SaysSaveSet(c.received[0], c.l.blockSize)
  }

  lemma RepairedBlocks(c: Case, s: Summary, files: seq<Entry>, r: Repairing)
    requires Given(c, s, files) && AllSized(c.received, c.l.blockSize) && c.received != []
    requires c.l.blockSize >= HeaderSize
    requires r == Repair(c.received, c.l.blockSize, c.checkCRC)
    ensures if Gone(c, 0) then 1 in r.lost
            else
              && Readable(c.l, c.slots, r.blocks, r.lost) && 1 !in r.lost && Numbers(r.lost, |c.slots|)
              && forall i: nat :: i < |c.slots| ==> RepairedAt(c, r, i)
  {
    hide Setting, SaveSetSound, FirstSays, SaysSaveSet, Repair, Gone, Saved, Readable, Numbers;
    SettingFacts(c);
    RepairExact(c);
    if !Gone(c, 0) {
      assert RepairedAt(c, r, 0);
      RepairedReadable(c, r);
    }
  }

  /** The numbers of the first n blocks that are gone. */
  ghost function GoneBefore(c: Case, n: nat): (lost: seq<nat>)
    requires n <= |c.slots|
  {
    if n == 0 then []
    else
      hide Gone;
      if Gone(c, n - 1) then GoneBefore(c, n - 1) + [n] else GoneBefore(c, n - 1)
  }

  lemma {:induction false} GoneBeforeIs(c: Case, n: nat)
    requires n <= |c.slots|
    ensures forall k: nat :: k in GoneBefore(c, n) <==> 1 <= k <= n && Gone(c, k - 1)
  {
    hide Gone;
    if n > 0 {
      GoneBeforeIs(c, n - 1);
    }
  }

  /** No name is confused, whichever data blocks are gone. */
  ghost predicate NamesTold(c: Case, files: seq<Entry>) {
    Unconfused(files, c.slots, GoneBefore(c, |c.slots|))
  }

  /**
   * Any damage at all that a check shows: reading refuses the save set if block 1 is beyond repair, and otherwise gives
   * its summary and exactly the files and the data not lost, lost being exactly the data blocks damaged with another of
   * their group; exactly where no name is confused.
   */
  lemma ReadDamagedExactly(c: Case, s: Summary, files: seq<Entry>)
    requires Given(c, s, files)
    ensures var ss := Read(Join(c.received), c.checkCRC);
            if Gone(c, 0) then ss.None? else (ss.Some? && ReadsAs(c, s, files, ss.value)) <==> NamesTold(c, files)
  {
    hide Setting, SaveSetSound, FirstSays, SaysSaveSet, Repair, Decode, Read, Gone, Saved, Readable, DecodesTo,
      Unconfused;
    SettingFacts(c);
    var r := Repair(c.received, c.l.blockSize, c.checkCRC);
    RepairedBlocks(c, s, files, r);
    ReadBlocks(c.received, c.l.blockSize, c.checkCRC);
    if Gone(c, 0) {
      RefusesFirst(r.blocks, r.lost);
    } else {
      forall i: nat | i < |c.slots|
        ensures (i + 1 in r.lost <==> Gone(c, i)) && (i + 1 in r.recovered <==> Saved(c, i))
      {
        assert RepairedAt(c, r, i);
      }
      DecodesExactly(c.l, s, files, c.slots, r.blocks, r.lost);
      GoneBeforeIs(c, |c.slots|);
      forall k: nat | 1 <= k <= |c.slots|
        ensures k in r.lost <==> k in GoneBefore(c, |c.slots|)
      {
        var i: nat := k - 1;
        assert RepairedAt(c, r, i);
      }
      SameUnconfused(files, c.slots, r.lost, GoneBefore(c, |c.slots|));
      if Decode(r.blocks, r.lost).Some? {
        SameDecoding(Decode(r.blocks, r.lost).value, s, files, c.slots, r.lost);
      }
    }
  }

  /** In particular where nothing is lost, or no two files have one name and every name fits a block's header. */
  lemma ReadDamaged(c: Case, s: Summary, files: seq<Entry>)
    requires Given(c, s, files)
    requires (exists i: nat :: i < |c.slots| && Gone(c, i)) ==> Distinct(files) && ShortNames(files)
    ensures var ss := Read(Join(c.received), c.checkCRC);
            if Gone(c, 0) then ss.None? else ss.Some? && ReadsAs(c, s, files, ss.value)
  {
    hide Given, Gone, Read, ReadsAs, Distinct, ShortNames, Unconfused;
    ReadDamagedExactly(c, s, files);
    GoneBeforeIs(c, |c.slots|);
    if forall i: nat :: i < |c.slots| ==> !Gone(c, i) {
      NoneGone(c, |c.slots|);
    }
    NothingConfused(files, c.slots, GoneBefore(c, |c.slots|));
  }

  lemma {:induction false} NoneGone(c: Case, n: nat)
    requires n <= |c.slots| && forall i: nat :: i < |c.slots| ==> !Gone(c, i)
    ensures GoneBefore(c, n) == []
  {
    hide Gone;
    if n > 0 {
      NoneGone(c, n - 1);
    }
  }

  /** Confusion depends on which blocks are lost, not on the order they are listed in. */
  lemma SameUnconfused(files: seq<Entry>, slots: seq<Slot>, lost: seq<nat>, also: seq<nat>)
    requires forall k: nat :: 1 <= k <= |slots| ==> (k in lost <==> k in also)
    ensures Unconfused(files, slots, lost) <==> Unconfused(files, slots, also)
  {
    hide Confused, KeptOf, LostBefore;
    forall n: nat
      ensures ConfusedAt(files, slots, lost, n) <==> ConfusedAt(files, slots, also, n)
    {
      if n < |slots| {
        SameKept(slots, lost, also, n);
      }
    }
  }

  lemma {:induction false} SameKept(slots: seq<Slot>, lost: seq<nat>, also: seq<nat>, n: nat)
    requires n <= |slots| && forall k: nat :: 1 <= k <= |slots| ==> (k in lost <==> k in also)
    ensures KeptOf(slots[..n], lost) == KeptOf(slots[..n], also)
    ensures LostBefore(slots, lost, n) == LostBefore(slots, also, n)
  {
    if n > 0 {
      SameKept(slots, lost, also, n - 1);
      assert slots[..n][..n - 1] == slots[..n - 1];
    }
  }

  lemma RefusesFirst(blocks: seq<bytes>, lost: seq<nat>)
    requires AllHeaded(blocks) && 1 in lost
    ensures Decode(blocks, lost).None?
  {
  }

  lemma SameDecoding(d: Decoding, s: Summary, files: seq<Entry>, slots: seq<Slot>, lost: seq<nat>)
    ensures DecodesTo(Decoding(d.files, false, false, d.summary), s, files, slots, lost) <==>
              DecodesTo(d, s, files, slots, lost)
  {
    hide KeptOf, Survivors, FilesOf, InRange, Increasing;
  }

  // ---- Nothing damaged ----

  lemma {:induction false} FedSurvivors(ts: seq<Tagged>, s: Summary, files: seq<Entry>, n: nat, at: nat)
    requires Fed(ts, s, files, n, at)
    ensures |Survivors(ts)| == n && forall i :: 0 <= i < n ==> Survivors(ts)[i] == i
    decreases |ts|
  {
    hide FileRecord, SummaryRecord, DataRecord, Whole;
    var front, t := ts[..|ts| - 1], ts[|ts| - 1];
    if front == [] {
      assert Survivors(front) == [];
      SummaryKind(s);
    } else if t.rec.kind == RecordFile {
      FedSurvivors(front, s, files, n - 1, Total(files, n - 1));
    } else {
      FedSurvivors(front, s, files, n, at - |t.rec.body|);
    }
  }

  lemma SummaryKind(s: Summary)
    ensures SummaryRecord(s).kind == RecordSummary
  {
  }

  lemma {:induction false} AllKept(slots: seq<Slot>)
    ensures KeptOf(slots, []) == RecordsOf(slots)
  {
    if slots != [] {
      AllKept(slots[..|slots| - 1]);
    }
  }

  /** The files as they should be read back. */
  function Originals(files: seq<Entry>, ts: seq<Tagged>): seq<File> {
    seq(|files|, i requires 0 <= i < |files| => FileOf(files[i], Runs(ts, i)))
  }

  lemma AllFiles(files: seq<Entry>, ts: seq<Tagged>)
    requires |Survivors(ts)| == |files| && forall i :: 0 <= i < |files| ==> Survivors(ts)[i] == i
    ensures InRange(files, Survivors(ts)) && FilesOf(files, Survivors(ts), ts) == Originals(files, ts)
  {
    hide Survivors, Runs, FileOf;
  }

  lemma {:induction false} NoneBad(blocks: seq<bytes>, checkCRC: bool, i: nat)
    requires AllHeaded(blocks) && i <= |blocks| && forall k: nat :: k < |blocks| ==> Good(blocks, k, checkCRC)
    ensures BadFrom(blocks, checkCRC, i) == []
    decreases |blocks| - i
  {
    hide Intact;
    if i < |blocks| {
      assert Good(blocks, i, checkCRC);
      NoneBad(blocks, checkCRC, i + 1);
    }
  }

  lemma NothingToRepair(l: Layout, slots: seq<Slot>, checkCRC: bool)
    requires Complete(l, slots)
    ensures var sent := Stream(l, slots);
            sent != [] && Repair(sent, l.blockSize, checkCRC) == Repairing(sent, [], [])
  {
    hide Stream, Good, BadFrom, RepairEach, GroupSize, SlotsFit, Grouped;
    var sent := Stream(l, slots);
    forall k: nat | k < |sent|
      ensures Good(sent, k, checkCRC)
    {
      SentFacts(l, slots, k, checkCRC);
    }
    NoneBad(sent, checkCRC, 0);
  }

  lemma SentReadable(l: Layout, slots: seq<Slot>)
    requires Complete(l, slots)
    ensures Readable(l, slots, Stream(l, slots), [])
  {
    hide Stream, Grouped, Application, ReadableAt;
    var sent := Stream(l, slots);
    forall i: nat | i < |slots|
      ensures ReadableAt(l, slots[i], i + 1, sent[i])
    {
      SentReadableAt(l, slots, i);
    }
  }

  lemma SentReadableAt(l: Layout, slots: seq<Slot>, i: nat)
    requires Complete(l, slots) && i < |slots|
    ensures ReadableAt(l, slots[i], i + 1, Stream(l, slots)[i])
  {
    hide Stream, Grouped, Application, DataBytes, Fits, Intact;
    SentFacts(l, slots, i, false);
    if slots[i].Holds? {
      DataAt(l, slots, i);
    }
  }

  lemma SentSays(l: Layout, slots: seq<Slot>)
    requires Complete(l, slots)
    ensures |Stream(l, slots)| > 0 && SaysSaveSet(Stream(l, slots)[0], l.blockSize)
  {
    hide Stream, Grouped, DataBytes, Fits, Word, Long, ParseCurrent, Counted, Named, Cut, SlotsFit;
    DataAt(l, slots, 0);
    DataHeader(l, 1, slots[0].block);
  }

  /**
   * The round trip: reading what was written gives the summary, every file in order with its attributes and flags, and
   * nothing recovered or lost.
   */
  lemma RoundTrip(s: Summary, crc: bool, calls: seq<Call>, checkCRC: bool)
    requires Writes(s, crc, Files(calls)) && AllCountable(Files(calls))
    ensures var l, slots := LayoutOf(s, crc), WrittenSlots(s, crc, calls);
            && SlotsFit(l, slots)
            && Read(Join(Stream(l, slots)), checkCRC) ==
               Some(SaveSet(s.blockSize, |slots|, KeptSummary(s), Originals(Files(calls), RecordsOf(slots)), [], []))
  {
    hide RecordsFit, AllCountable, WrittenSlots, Stream, SaveSetSound, Repair, Decode, Read, Fed, Grouped, SlotsFit,
      Originals, Join, Total;
    hide Survivors, FilesOf, KeptOf, RecordsOf, SaysSaveSet, Readable, KeptSummary;
    var l, slots, files := LayoutOf(s, crc), WrittenSlots(s, crc, calls), Files(calls);
    WrittenSound(s, crc, calls);
    NothingToRepair(l, slots, checkCRC);
    SentReadable(l, slots);
    SentSays(l, slots);
    ReadBlocks(Stream(l, slots), l.blockSize, checkCRC);
    NothingConfused(files, slots, []);
    DecodeExact(l, s, files, slots, Stream(l, slots), []);
    AllKept(slots);
    FedSurvivors(RecordsOf(slots), s, files, |files|, Total(files, |files|));
    AllFiles(files, RecordsOf(slots));
  }

  /** Any detected damage to what was written that leaves block 1 saying what it is meets ReadDamaged's conditions. */
  lemma WrittenGiven(s: Summary, crc: bool, calls: seq<Call>, received: seq<bytes>, checkCRC: bool)
    requires Writes(s, crc, Files(calls)) && AllCountable(Files(calls))
    requires SlotsFit(LayoutOf(s, crc), WrittenSlots(s, crc, calls))
    requires var c := CaseOf(s, crc, calls, received, checkCRC);
             && Damaged(c.sent, received, s.blockSize, checkCRC) && received != [] && |received[0]| >= HeaderSize
             && SaysSaveSet(received[0], s.blockSize)
    ensures Given(CaseOf(s, crc, calls, received, checkCRC), s, Files(calls))
  {
    hide Writes, AllCountable, WrittenSlots, Stream, SaveSetSound, Damaged, Fed, Grouped, SlotsFit, SaysSaveSet,
      FirstSays, RecordsOf, Total;
    WrittenSound(s, crc, calls);
    FirstBlockSays(s, crc, Files(calls), WrittenSlots(s, crc, calls));
    var c := CaseOf(s, crc, calls, received, checkCRC);
    assert Setting(c);
    SettingFacts(c);
  }

  // ---- The files' data ----

  /** Every run is a piece of w, at the virtual block it says. */
  predicate Consistent(runs: seq<Run>, w: bytes) {
    forall i :: 0 <= i < |runs| ==> Piece(runs[i], w)
  }

  predicate Piece(r: Run, w: bytes) {
    var from := (r.vbn - 1) * VBNSize;
    && 0 < r.vbn && 0 < |r.data| && |r.data| % VBNSize == 0 && from + |r.data| <= |w|
    && r.data == w[from..from + |r.data|]
  }

  /** Every data record among ts holds data of its own file's. */
  predicate AllHold(files: seq<Entry>, ts: seq<Tagged>) {
    forall t :: t in ts && t.rec.kind == RecordVBN ==> 0 <= t.owner < |files| && HoldsData(t, files[t.owner])
  }

  lemma ChainedHolds(s: Summary, files: seq<Entry>, ts: seq<Tagged>)
    requires Chained(s, files, ts)
    ensures AllHold(files, ts)
  {
    hide HoldsData, EncodeSummary;
    forall t | t in ts && t.rec.kind == RecordVBN
      ensures 0 <= t.owner < |files| && HoldsData(t, files[t.owner])
    {
      var k :| 0 <= k < |ts| && ts[k] == t;
      if k > 0 {
        assert MayFollow(files, ts[k], ts[k - 1].owner);
      }
    }
  }

  /** A record is kept just when it is in a block that is not lost. */
  ghost predicate Held(slots: seq<Slot>, lost: seq<nat>, t: Tagged) {
    exists i: nat :: i < |slots| && i + 1 !in lost && slots[i].Holds? && t in slots[i].block.records
  }

  lemma {:induction false} KeptAreHeld(slots: seq<Slot>, lost: seq<nat>, t: Tagged)
    ensures t in KeptOf(slots, lost) <==> Held(slots, lost, t)
  {
    if slots != [] {
      var n := |slots| - 1;
      var front := slots[..n];
      KeptAreHeld(front, lost, t);
      if Held(front, lost, t) {
        var i: nat :| i < |front| && i + 1 !in lost && front[i].Holds? && t in front[i].block.records;
        assert slots[i] == front[i];
      }
      if Held(slots, lost, t) && !(slots[n].Holds? && n + 1 !in lost && t in slots[n].block.records) {
        var i: nat :| i < |slots| && i + 1 !in lost && slots[i].Holds? && t in slots[i].block.records;
        assert front[i] == slots[i];
      }
    }
  }

  lemma KeptHolds(files: seq<Entry>, slots: seq<Slot>, lost: seq<nat>)
    requires AllHold(files, RecordsOf(slots))
    ensures AllHold(files, KeptOf(slots, lost))
  {
    hide HoldsData;
    AllKept(slots);
    forall t | t in KeptOf(slots, lost) && t.rec.kind == RecordVBN
      ensures 0 <= t.owner < |files| && HoldsData(t, files[t.owner])
    {
      KeptAreHeld(slots, lost, t);
      KeptAreHeld(slots, [], t);
    }
  }

  /** t holds virtual block v of a file. */
  predicate HoldsBlock(t: Tagged, owner: int, v: nat) {
    t.rec.kind == RecordVBN && t.owner == owner && t.rec.address <= v < t.rec.address + |t.rec.body| / VBNSize
  }

  lemma {:induction false} RunsCover(ts: seq<Tagged>, owner: int, v: nat)
    ensures Covered(Runs(ts, owner), v) <==> exists t :: t in ts && HoldsBlock(t, owner, v)
  {
    if ts != [] {
      var n := |ts| - 1;
      var front, t := ts[..n], ts[n];
      RunsCover(front, owner, v);
      assert ts == front + [t];
      assert forall u :: u in ts <==> u in front || u == t;
      RunsAppend(front, t, owner);
      if t.rec.kind == RecordVBN && t.owner == owner {
        CoveredLast(Runs(front, owner), Run(t.rec.address, t.rec.body), v);
      }
      assert forall u :: u in front && HoldsBlock(u, owner, v) ==> u in ts;
      assert HoldsBlock(t, owner, v) ==> t in ts;
    }
  }

  lemma CoveredLast(runs: seq<Run>, r: Run, v: nat)
    ensures Covered(runs + [r], v) <==> Covered(runs, v) || r.vbn <= v < r.vbn + RunBlocks(r)
  {
    CoveredNext(runs + [r], |runs|);
    assert (runs + [r])[..|runs| + 1] == runs + [r] && (runs + [r])[..|runs|] == runs;
  }

  lemma {:induction false} RunsConsistent(files: seq<Entry>, ts: seq<Tagged>, owner: int)
    requires AllHold(files, ts) && 0 <= owner < |files|
    ensures Consistent(Runs(ts, owner), Whole(files[owner].data))
  {
    hide Whole;
    if ts != [] {
      var n := |ts| - 1;
      var front, t := ts[..n], ts[n];
      assert forall u :: u in front ==> u in ts;
      hide HoldsData;
      RunsConsistent(files, front, owner);
      if t.rec.kind == RecordVBN && t.owner == owner {
        assert t in ts;
        HeldPiece(t, files[owner]);
      }
    }
  }

  lemma HeldPiece(t: Tagged, e: Entry)
    requires HoldsData(t, e)
    ensures Piece(Run(t.rec.address, t.rec.body), Whole(e.data))
  {
    hide Whole;
  }

  /** Consistent runs lay out w's own bytes where they are, and nothing elsewhere. */
  lemma {:induction false} LaidConsistent(blocks: nat, runs: seq<Run>, w: bytes, k: nat)
    requires Consistent(runs, w) && Addressable(runs) && k < blocks * VBNSize
    requires forall i :: 0 <= i < |runs| ==> runs[i].vbn - 1 <= blocks
    ensures Covered(runs, k / VBNSize + 1) ==> k < |w|
    ensures LaidAll(blocks, runs)[k] == if Covered(runs, k / VBNSize + 1) then w[k] else 0
  {
    if runs != [] {
      var n := |runs| - 1;
      LaidConsistent(blocks, runs[..n], w, k);
      assert runs[..n] + [runs[n]] == runs;
      CoveredLast(runs[..n], runs[n], k / VBNSize + 1);
      assert Piece(runs[n], w);
      hide Piece, Covered, Consistent;
      PieceAt(runs[n], w, k);
    }
  }

  /** Byte k is in a piece just when its virtual block is. */
  lemma PieceAt(r: Run, w: bytes, k: nat)
    requires Piece(r, w)
    ensures var from := (r.vbn - 1) * VBNSize;
            && 0 <= from && (from <= k < from + |r.data| <==> r.vbn <= k / VBNSize + 1 < r.vbn + RunBlocks(r))
            && (from <= k < from + |r.data| ==> k < |w| && r.data[k - from] == w[k])
  {
  }

  lemma {:induction false} ExtentOfConsistent(used: nat, runs: seq<Run>, w: bytes)
    requires Consistent(runs, w)
    ensures used <= Extent(used, runs) <= if used < |w| / VBNSize then |w| / VBNSize else used
  {
    if runs != [] {
      ExtentOfConsistent(used, runs[..|runs| - 1], w);
      assert Piece(runs[|runs| - 1], w);
    }
  }

  lemma {:induction false} ConsistentAddressable(runs: seq<Run>, w: bytes)
    requires Consistent(runs, w) && |w| / VBNSize < 0xFFFF_FFFF
    ensures Addressable(runs)
  {
    forall i | 0 <= i < |runs|
      ensures 0 < runs[i].vbn && runs[i].vbn - 1 + RunBlocks(runs[i]) < 0xFFFF_FFFF
    {
      assert Piece(runs[i], w);
    }
  }

  /** Every virtual block of every file written is in a record. */
  lemma {:induction false} FedCovers(ts: seq<Tagged>, s: Summary, files: seq<Entry>, n: nat, at: nat, o: nat, v: nat)
    requires Fed(ts, s, files, n, at) && AllCountable(files) && o < n
    requires 1 <= v <= (if o == n - 1 then at else |Whole(files[o].data)|) / VBNSize
    ensures Covered(Runs(ts, o), v)
    decreases |ts|
  {
    hide FileRecord, SummaryRecord, Whole, Covered, Number;
    var front, t := ts[..|ts| - 1], ts[|ts| - 1];
    assert front + [t] == ts;
    RunsAppend(front, t, o);
    if t.rec.kind == RecordFile {
      FedCovers(front, s, files, n - 1, Total(files, n - 1), o, v);
    } else {
      var from := at - |t.rec.body|;
      if o < n - 1 || v <= from / VBNSize {
        FedCovers(front, s, files, n, from, o, v);
      }
      if o == n - 1 {
        CoveredLast(Runs(front, o), Run(t.rec.address, t.rec.body), v);
        LastCovers(t, files[o], from, v);
      }
    }
  }

  lemma LastCovers(t: Tagged, e: Entry, from: nat, v: nat)
    requires DataRecord(t, e, from) && Countable(e)
    ensures var r := Run(t.rec.address, t.rec.body);
            from / VBNSize < v <= (from + |t.rec.body|) / VBNSize ==> r.vbn <= v < r.vbn + RunBlocks(r)
  {
    hide Whole;
    assert from / VBNSize < 0xFFFF_FFFF;
  }

  /** The conditions under which a save set of files has been read, those blocks in lost being lost. */
  predicate Left(s: Summary, files: seq<Entry>, slots: seq<Slot>) {
    Chained(s, files, RecordsOf(slots)) && AllCountable(files)
    && Fed(RecordsOf(slots), s, files, |files|, Total(files, |files|))
  }

  /**
   * A virtual block of a file is in one of its runs just when a record holding it is in a block not lost; and every
   * virtual block the file had is held by some record.
   */
  lemma BlockLeft(s: Summary, files: seq<Entry>, slots: seq<Slot>, lost: seq<nat>, owner: nat, v: nat)
    requires Left(s, files, slots) && owner < |files|
    ensures Covered(Runs(KeptOf(slots, lost), owner), v) <==>
              exists t :: Held(slots, lost, t) && HoldsBlock(t, owner, v)
    ensures 1 <= v <= |Whole(files[owner].data)| / VBNSize ==> exists t :: Held(slots, [], t) && HoldsBlock(t, owner, v)
  {
    hide Chained, Held, HoldsBlock, KeptOf, Runs, RecordsOf, Covered, Whole, Fed, AllCountable;
    var kept := KeptOf(slots, lost);
    RunsCover(kept, owner, v);
    forall t
      ensures t in kept <==> Held(slots, lost, t)
      ensures t in RecordsOf(slots) <==> Held(slots, [], t)
    {
      KeptAreHeld(slots, lost, t);
      KeptAreHeld(slots, [], t);
      AllKept(slots);
    }
    if 1 <= v <= |Whole(files[owner].data)| / VBNSize {
      FedCovers(RecordsOf(slots), s, files, |files|, Total(files, |files|), owner, v);
      RunsCover(RecordsOf(slots), owner, v);
    }
  }

  /**
   * The data read of a file that is left: its own bytes wherever a record holding them is in a block not lost, zeros
   * elsewhere; and no more virtual blocks than it had or uses.
   */
  lemma DataLeft(s: Summary, files: seq<Entry>, slots: seq<Slot>, lost: seq<nat>, owner: nat, runs: seq<Run>, k: nat)
    requires Left(s, files, slots) && owner < |files| && runs == Runs(KeptOf(slots, lost), owner)
    requires k < Extent(Used(files[owner].attrs), runs) * VBNSize
    ensures Addressable(runs)
    ensures var w, n := Whole(files[owner].data), Extent(Used(files[owner].attrs), runs);
            && (forall i :: 0 <= i < |runs| ==> runs[i].vbn - 1 <= n)
            && (Covered(runs, k / VBNSize + 1) ==> k < |w|)
            && LaidAll(n, runs)[k] == if Covered(runs, k / VBNSize + 1) then w[k] else 0
  {
    hide KeptOf, Runs, RecordsOf, Covered, Fed, Chained, AllHold, LaidAll, Whole, Used, Consistent;
    var w, n := Whole(files[owner].data), Extent(Used(files[owner].attrs), runs);
    ChainedHolds(s, files, RecordsOf(slots));
    KeptHolds(files, slots, lost);
    RunsConsistent(files, KeptOf(slots, lost), owner);
    assert Countable(files[owner]);
    ConsistentAddressable(runs, w);
    forall i | 0 <= i < |runs|
      ensures runs[i].vbn - 1 <= n
    {
      ExtentReaches(Used(files[owner].attrs), runs, i);
    }
    LaidConsistent(n, runs, w, k);
  }

  /** Of a save set read whole, every file's data is its own, padded to whole blocks, and nothing it had is missing. */
  lemma DataWhole(s: Summary, files: seq<Entry>, slots: seq<Slot>, owner: nat, runs: seq<Run>)
    requires Left(s, files, slots) && owner < |files| && runs == Runs(RecordsOf(slots), owner)
    ensures Addressable(runs)
    ensures forall v: nat :: 1 <= v ==> (Covered(runs, v) <==> v <= |Whole(files[owner].data)| / VBNSize)
    ensures var w, n := Whole(files[owner].data), Extent(Used(files[owner].attrs), runs);
            && (forall i :: 0 <= i < |runs| ==> runs[i].vbn - 1 <= n) && |w| <= n * VBNSize
            && LaidAll(n, runs) == w + Zeros(n * VBNSize - |w|)
  {
    hide KeptOf, Runs, RecordsOf, Fed, Chained, AllHold, LaidAll, Whole, Used, Covered, Consistent, Extent;
    var ts, w := RecordsOf(slots), Whole(files[owner].data);
    ChainedHolds(s, files, ts);
    RunsConsistent(files, ts, owner);
    assert Countable(files[owner]);
    ConsistentAddressable(runs, w);
    forall v: nat | 1 <= v
      ensures Covered(runs, v) <==> v <= |w| / VBNSize
    {
      if v <= |w| / VBNSize {
        FedCovers(ts, s, files, |files|, Total(files, |files|), owner, v);
      } else {
        NotBeyond(runs, w, v);
      }
    }
    LaidWhole(Used(files[owner].attrs), runs, w);
  }

  lemma LaidWhole(used: nat, runs: seq<Run>, w: bytes)
    requires Consistent(runs, w) && Addressable(runs) && |w| % VBNSize == 0
    requires forall v: nat :: 1 <= v ==> (Covered(runs, v) <==> v <= |w| / VBNSize)
    ensures var n := Extent(used, runs);
            && (forall i :: 0 <= i < |runs| ==> runs[i].vbn - 1 <= n) && |w| <= n * VBNSize
            && LaidAll(n, runs) == w + Zeros(n * VBNSize - |w|)
  {
    hide LaidAll, Covered, Consistent, Extent;
    var n := Extent(used, runs);
    forall i | 0 <= i < |runs|
      ensures runs[i].vbn - 1 <= n
    {
      ExtentReaches(used, runs, i);
    }
    if w != [] {
      CoveredExtent(used, runs, |w| / VBNSize);
    }
    var x, y := LaidAll(n, runs), w + Zeros(n * VBNSize - |w|);
    forall k: nat | k < n * VBNSize
      ensures x[k] == y[k]
    {
      LaidConsistent(n, runs, w, k);
      InWhole(k, |w|);
    }
  }

  lemma InWhole(k: nat, n: nat)
    requires n % VBNSize == 0
    ensures k / VBNSize + 1 <= n / VBNSize <==> k < n
  {
  }

  lemma NotBeyond(runs: seq<Run>, w: bytes, v: nat)
    requires Consistent(runs, w) && v > |w| / VBNSize
    ensures !Covered(runs, v)
  {
    forall i | 0 <= i < |runs|
      ensures !(runs[i].vbn <= v < runs[i].vbn + RunBlocks(runs[i]))
    {
      assert Piece(runs[i], w);
    }
  }

  lemma CoveredExtent(used: nat, runs: seq<Run>, v: nat)
    requires Covered(runs, v)
    ensures v <= Extent(used, runs)
  {
    var i :| 0 <= i < |runs| && runs[i].vbn <= v < runs[i].vbn + RunBlocks(runs[i]);
    ExtentReaches(used, runs, i);
  }

  /**
   * From the calls to the bytes: of what was written and read back whole, whatever Data and Missing give for file i is
   * its own data, padded to its last block used, and just the used blocks beyond its data.
   */
  lemma EndToEnd(s: Summary, crc: bool, calls: seq<Call>, checkCRC: bool, i: nat, data: bytes, missing: seq<Range>)
    requires Writes(s, crc, Files(calls)) && AllCountable(Files(calls)) && i < |Files(calls)|
    ensures var l, slots, e := LayoutOf(s, crc), WrittenSlots(s, crc, calls), Files(calls)[i];
            && SlotsFit(l, slots)
            && var ss := Read(Join(Stream(l, slots)), checkCRC);
               && ss.Some? && |ss.value.files| == |Files(calls)|
               && var f := ss.value.files[i];
                  && f.attrs == Kept(e.attrs) && f.flags == e.flags && Addressable(f.runs)
                  && (!HeaderOnly(f) && IsData(f, data) ==>
                        Whole(e.data) <= data && (forall k :: |Whole(e.data)| <= k < |data| ==> data[k] == 0))
                  && (!HeaderOnly(f) && AreMissing(f, missing) ==>
                        forall v: nat :: InRanges(missing, v) <==> |Whole(e.data)| / VBNSize < v <= Used(e.attrs))
                  && (HeaderOnly(f) ==> Whole(e.data) == [])
  {
    hide RecordsFit, AllCountable, SlotsFit, Stream, Read, WrittenSlots, Files, Fed, RecordsOf, Chained, Total, Runs,
      LaidAll, Extent, Covered, Whole, Used, Join, Originals, NoBackup, SaveSetSound, KeptSummary, Complete, Flatten,
      Pack, Maximal, InRanges;
    var l, slots, files := LayoutOf(s, crc), WrittenSlots(s, crc, calls), Files(calls);
    RoundTrip(s, crc, calls, checkCRC);
    WrittenSound(s, crc, calls);
    SoundChained(l, s, files, slots);
    OriginalIs(files, RecordsOf(slots), i);
    var f := Originals(files, RecordsOf(slots))[i];
    DataWhole(s, files, slots, i, f.runs);
    SameUsed(files[i].attrs);
    WholeRuns(f.runs, Whole(files[i].data));
  }

  lemma OriginalIs(files: seq<Entry>, ts: seq<Tagged>, i: nat)
    requires i < |files|
    ensures |Originals(files, ts)| == |files|
    ensures var f := Originals(files, ts)[i];
            f.attrs == Kept(files[i].attrs) && f.flags == files[i].flags && f.runs == Runs(ts, i)
  {
    hide Kept, Runs;
  }

  lemma SameUsed(a: Attributes)
    ensures Used(Kept(a)) == Used(a)
  {
  }

  /** A file with no run has no data. */
  lemma WholeRuns(runs: seq<Run>, whole: bytes)
    requires |whole| % VBNSize == 0 && forall v: nat :: 1 <= v ==> (Covered(runs, v) <==> v <= |whole| / VBNSize)
    ensures runs == [] ==> whole == []
  {
    if runs == [] {
      assert !Covered(runs, 1);
    }
  }
}
