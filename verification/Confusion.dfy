/**
 Where a name makes decode take one file's data for another's, or leave a file's own data out, what it decodes stays
 wrong. So decoding is exact exactly where no name does.
 */
module Confusion {
  import opened Bytes
  import opened Crc
  import opened Blocks
  import opened AttributeLists
  import opened SaveSetStream
  import opened Groups
  import opened Packing
  import opened Reading
  import opened Restoring

  // ---- What a record decoded leaves as it was ----

  /** File j has k runs at least. */
  predicate Over(d: Decoding, j: nat, k: nat) {
    j < |d.files| && |d.files[j].runs| >= k
  }

  /** File j has k runs, and is no longer being read. */
  predicate Frozen(d: Decoding, j: nat, k: nat) {
    j < |d.files| && |d.files[j].runs| == k && (d.reading ==> j + 1 < |d.files|)
  }

  /** Either way it is k runs no more. */
  predicate Strayed(d: Decoding, j: nat, k: nat, over: bool) {
    if over then Over(d, j, k) else Frozen(d, j, k)
  }

  lemma RecordStrays(d: Decoding, i: nat, n: nat, r: Record, j: nat, k: nat, over: bool)
    requires DecodingSound(d) && Strayed(d, j, k, over) && TakeRecord(d, i, n, r).Some?
    ensures Strayed(TakeRecord(d, i, n, r).value, j, k, over)
  {
    hide ParseSummary, ParseAttributes;
  }

  /** From the m-th record of a block on. */
  lemma {:induction false} RecordsStray(d: Decoding, i: nat, records: seq<Record>, m: nat, j: nat, k: nat, over: bool)
    requires DecodingSound(d) && m <= |records| && TakeRecords(d, i, records).Some?
    requires TakeRecords(d, i, records[..m]).Some? ==> Strayed(TakeRecords(d, i, records[..m]).value, j, k, over)
    ensures Strayed(TakeRecords(d, i, records).value, j, k, over)
    decreases |records|
  {
    hide TakeRecord, Strayed;
    if m == |records| {
      assert records[..m] == records;
    } else {
      var n := |records| - 1;
      assert records[..n][..m] == records[..m];
      RecordsStray(d, i, records[..n], m, j, k, over);
      RecordStrays(TakeRecords(d, i, records[..n]).value, i, n, records[n], j, k, over);
    }
  }

  lemma BlockStrays(d: Decoding, i: nat, block: bytes, lost: bool, j: nat, k: nat, over: bool)
    requires DecodingSound(d) && |block| >= HeaderSize && Strayed(d, j, k, over) && TakeBlock(d, i, block, lost).Some?
    ensures Strayed(TakeBlock(d, i, block, lost).value, j, k, over)
  {
    hide TakeRecords, RecordsFrom, Application, ParseCurrent;
    if !lost && Application(block) == ApplicationData {
      var records := RecordsFrom(block, HeaderSize).records;
      var r := Resume(d, ParseCurrent(block).name);
      NoRecords(r, i);
      assert records[..0] == [];
      RecordsStray(r, i, records, 0, j, k, over);
    }
  }

  lemma {:induction false} BlocksStray(blocks: seq<bytes>, lost: seq<nat>, m: nat, j: nat, k: nat, over: bool)
    requires AllHeaded(blocks) && m <= |blocks| && TakeBlocks(blocks, lost).Some?
    requires TakeBlocks(blocks[..m], lost).Some? ==> Strayed(TakeBlocks(blocks[..m], lost).value, j, k, over)
    ensures Strayed(TakeBlocks(blocks, lost).value, j, k, over)
    decreases |blocks|
  {
    hide TakeBlock, Strayed;
    if m == |blocks| {
      assert blocks[..m] == blocks;
    } else {
      var n := |blocks| - 1;
      assert blocks[..n][..m] == blocks[..m];
      BlocksStray(blocks[..n], lost, m, j, k, over);
      BlockStrays(TakeBlocks(blocks[..n], lost).value, n, blocks[n], n + 1 in lost, j, k, over);
    }
  }

  // ---- What should have been decoded ----

  lemma {:induction false} SurvivorsPrefix(kept: seq<Tagged>, more: seq<Tagged>)
    requires kept <= more
    ensures Survivors(kept) <= Survivors(more)
    decreases |more|
  {
    if kept != more {
      SurvivorsPrefix(kept, more[..|more| - 1]);
    }
  }

  lemma {:induction false} RunsGrow(kept: seq<Tagged>, more: seq<Tagged>, owner: int)
    requires kept <= more
    ensures |Runs(kept, owner)| <= |Runs(more, owner)|
    ensures (forall i :: |kept| <= i < |more| ==> more[i].owner > owner) ==> Runs(more, owner) == Runs(kept, owner)
    decreases |more|
  {
    if kept != more {
      RunsGrow(kept, more[..|more| - 1], owner);
    }
  }

  lemma {:induction false} KeptPrefix(slots: seq<Slot>, lost: seq<nat>, n: nat)
    requires n <= |slots|
    ensures KeptOf(slots[..n], lost) <= KeptOf(slots, lost)
    decreases |slots|
  {
    if n == |slots| {
      assert slots[..n] == slots;
    } else {
      KeptPrefix(slots[..|slots| - 1], lost, n);
      assert slots[..|slots| - 1][..n] == slots[..n];
    }
  }

  lemma {:induction false} ChainGrows(s: Summary, files: seq<Entry>, ts: seq<Tagged>, a: nat, b: nat)
    requires Chained(s, files, ts) && a <= b < |ts|
    ensures ts[a].owner <= ts[b].owner
    decreases b
  {
    hide HoldsData, FileRecord;
    if a < b {
      ChainGrows(s, files, ts, a, b - 1);
      assert MayFollow(files, ts[b], ts[b - 1].owner);
    }
  }

  /** Every record in a later block is of that owner's file or a later one's. */
  lemma {:induction false} LaterOwners(s: Summary, files: seq<Entry>, slots: seq<Slot>, lost: seq<nat>, n: nat, o: int)
    requires Chained(s, files, RecordsOf(slots)) && n <= |slots|
    requires var k := |RecordsOf(slots[..n])|; k < |RecordsOf(slots)| ==> RecordsOf(slots)[k].owner == o
    ensures var k, kept := |KeptOf(slots[..n], lost)|, KeptOf(slots, lost);
            forall i :: k <= i < |kept| ==> kept[i].owner >= o
    decreases |slots|
  {
    hide MayFollow, SummaryRecord;
    if n == |slots| {
      assert slots[..n] == slots;
    } else {
      var m := |slots| - 1;
      var front := slots[..m];
      assert front[..n] == slots[..n];
      RecordsOfPrefix(slots, m);
      RecordsOfPrefix(front, n);
      ChainedPrefix(s, files, RecordsOf(slots), RecordsOf(front));
      LaterOwners(s, files, front, lost, n, o);
      LastOwners(s, files, RecordsOf(slots), |RecordsOf(slots[..n])|, o);
      KeptPrefix(front, lost, n);
      assert slots[m].Holds? ==> RecordsOf(slots) == RecordsOf(front) + slots[m].block.records;
      if slots[m].Holds? {
        forall i | 0 <= i < |slots[m].block.records|
          ensures slots[m].block.records[i].owner >= o
        {
          assert slots[m].block.records[i] == RecordsOf(slots)[|RecordsOf(front)| + i];
        }
      }
    }
  }

  lemma LastOwners(s: Summary, files: seq<Entry>, ts: seq<Tagged>, k: nat, o: int)
    requires Chained(s, files, ts) && (k < |ts| ==> ts[k].owner == o)
    ensures forall i :: k <= i < |ts| ==> ts[i].owner >= o
  {
    hide Chained;
    forall i | k <= i < |ts|
      ensures ts[i].owner >= o
    {
      ChainGrows(s, files, ts, k, i);
    }
  }

  // ---- The block that confuses ----

  /** How many runs of the file being read are kept. */
  function RunsKept(kept: seq<Tagged>): nat {
    |Runs(kept, LastOf(kept))|
  }

  /** Before it, the last file is being read, with what is kept of it. */
  lemma BeforeConfused(files: seq<Entry>, kept: seq<Tagged>, owner: int, d: Decoding, t: Tagged)
    requires Stated(files, kept, owner, d) && Confused(files, kept, t)
    ensures d.reading && d.files != [] && |d.files| == |Survivors(kept)|
    ensures LastFile(d).attrs.name == files[LastOf(kept)].attrs.name
    ensures |LastFile(d).runs| == RunsKept(kept)
  {
    hide Survivors, Runs, NoneBeyond, Behind, Increasing;
  }

  lemma FirstStrays(files: seq<Entry>, kept: seq<Tagged>, d: Decoding, t: Tagged, n: nat)
    requires DecodingSound(d) && d.lastLost && d.reading && |d.files| == |Survivors(kept)| && Confused(files, kept, t)
    requires t.rec.address > 0
    requires LastFile(d).attrs.name == files[LastOf(kept)].attrs.name && |LastFile(d).runs| == RunsKept(kept)
    ensures var r := TakeRecord(Resume(d, Cut(CurrentFor(files, t.owner).name, 128)), n, 0, PaddedRecord(t.rec));
            var over := t.owner != LastOf(kept);
            r.Some?
            && Strayed(r.value, |Survivors(kept)| - 1, if over then RunsKept(kept) + 1 else RunsKept(kept), over)
  {
    hide Survivors, Runs, Padded, Cut, CurrentFor;
  }

  lemma FirstTaken(d: Decoding, i: nat, ts: seq<Tagged>)
    requires DecodingSound(d) && ts != []
    ensures var records := PaddedRecords(Recs(ts));
            records != [] && TakeRecords(d, i, records[..1]) == TakeRecord(d, i, 0, PaddedRecord(ts[0].rec))
  {
    hide TakeRecord, Padded;
    var records := PaddedRecords(Recs(ts));
    assert records[..1][..0] == [] && records[..1] == [PaddedRecord(ts[0].rec)];
    NoRecords(d, i);
  }

  lemma BlockConfused(l: Layout, files: seq<Entry>, kept: seq<Tagged>, owner: int, d: Decoding, b: DataBlock, n: nat,
                      block: bytes)
    requires ValidLayout(l) && BlockSound(l, files, b) && |block| >= HeaderSize && block == DataBytes(l, n + 1, b)
    requires Stated(files, kept, owner, d) && d.lastLost && Confused(files, kept, b.records[0])
    requires b.records[0].rec.address > 0
    requires TakeBlock(d, n, block, false).Some?
    ensures Wrong(files, kept, b.records[0], TakeBlock(d, n, block, false).value)
  {
    hide DataBytes, TakeRecord, TakeRecords, Strayed, Resume, Cut, RecordsFrom, CurrentFor, Survivors, Runs,
      Application, ParseCurrent, Confused, Stated, AllWritable, PaddedRecord;
    var t := b.records[0];
    BlockReads(l, n, b);
    BeforeConfused(files, kept, owner, d, t);
    FirstStrays(files, kept, d, t, n);
    var r := Resume(d, Cut(CurrentFor(files, t.owner).name, 128));
    FirstTaken(r, n, b.records);
    var over := t.owner != LastOf(kept);
    RecordsStray(r, n, PaddedRecords(Recs(b.records)), 1,
      |Survivors(kept)| - 1, if over then RunsKept(kept) + 1 else RunsKept(kept), over);
  }

  /** The file being read when t confused it has a run too many, or no more runs. */
  predicate Wrong(files: seq<Entry>, kept: seq<Tagged>, t: Tagged, d: Decoding) {
    && Survivors(kept) != []
    && var over := t.owner != LastOf(kept);
       Strayed(d, |Survivors(kept)| - 1, if over then RunsKept(kept) + 1 else RunsKept(kept), over)
  }

  /** The block, among the save set's. */
  lemma ConfusedStrays(l: Layout, s: Summary, files: seq<Entry>, slots: seq<Slot>, blocks: seq<bytes>, lost: seq<nat>,
                       n: nat, after: Option<Decoding>)
    requires n < |slots| == |blocks| && AllHeaded(blocks) && after == TakeBlocks(blocks[..n + 1], lost) && after.Some?
    requires SaveSetSound(l, s, files, slots) && TakenTo(l, s, files, slots, blocks, lost, n)
    requires ConfusedAt(files, slots, lost, n) && ReadableAt(l, slots[n], n + 1, blocks[n])
    ensures Wrong(files, KeptOf(slots[..n], lost), slots[n].block.records[0], after.value)
  {
    hide SaveSetSound, TakenTo, TakeBlocks, TakeBlock, KeptOf, RecordsOf, DataBytes, LostBefore, Stated, Confused,
      Wrong, BlockSound, Fits;
    TakenFacts(l, s, files, slots, blocks, lost, n, TakeBlocks(blocks[..n], lost));
    StepOf(slots, blocks, lost, n);
    LeadAddress(l, s, files, slots, n);
    ConfusedKind(files, KeptOf(slots[..n], lost), slots[n].block.records[0]);
    BlockConfused(l, files, KeptOf(slots[..n], lost), LastOf(RecordsOf(slots[..n])),
      TakeBlocks(blocks[..n], lost).value, slots[n].block, n,
      blocks[n]);
  }

  lemma TakenFacts(l: Layout, s: Summary, files: seq<Entry>, slots: seq<Slot>, blocks: seq<bytes>, lost: seq<nat>,
                   n: nat, d: Option<Decoding>)
    requires n < |slots| == |blocks| && AllHeaded(blocks) && d == TakeBlocks(blocks[..n], lost)
    requires slots[n].Holds? && SaveSetSound(l, s, files, slots)
    requires TakenTo(l, s, files, slots, blocks, lost, n) && ConfusedAt(files, slots, lost, n)
    ensures ValidLayout(l) && BlockSound(l, files, slots[n].block)
    ensures d.Some? && d.value.lastLost
    ensures Stated(files, KeptOf(slots[..n], lost), LastOf(RecordsOf(slots[..n])), d.value)
  {
    hide TakeBlocks, KeptOf, RecordsOf, Chained, LostBefore, Stated, Confused, BlockSound;
  }

  lemma ConfusedKind(files: seq<Entry>, kept: seq<Tagged>, t: Tagged)
    requires Confused(files, kept, t)
    ensures t.rec.kind == RecordVBN
  {
  }

  /** A data record that leads a block says where it is. */
  lemma LeadAddress(l: Layout, s: Summary, files: seq<Entry>, slots: seq<Slot>, n: nat)
    requires SaveSetSound(l, s, files, slots) && n < |slots| && slots[n].Holds? && slots[n].block.records != []
    ensures var t := slots[n].block.records[0];
            t.rec.kind == RecordVBN ==> t.rec.address > 0 && t.owner >= LastOf(RecordsOf(slots[..n]))
    ensures var k := |RecordsOf(slots[..n])|; k < |RecordsOf(slots)| && RecordsOf(slots)[k] == slots[n].block.records[0]
  {
    hide BlockSound, Chained, SummaryRecord, FileRecord, DataRecord;
    var t, ts := slots[n].block.records[0], RecordsOf(slots[..n]);
    assert slots[..n + 1][..n] == slots[..n];
    RecordsOfPrefix(slots, n + 1);
    assert RecordsOf(slots[..n + 1]) == ts + slots[n].block.records;
    LeadingRecords(l, s, files, slots, n);
    ChainedPrefix(s, files, RecordsOf(slots), RecordsOf(slots[..n + 1]));
    ChainedBlock(s, files, ts, slots[n].block.records, n);
    SummaryIs(s);
  }

  lemma SummaryIs(s: Summary)
    ensures SummaryRecord(s).kind == RecordSummary
  {
  }

  // ---- Decoding is exact just where nothing is confused ----

  /** What is kept of that file in the end is not what was then decoded of it. */
  lemma WrongRuns(files: seq<Entry>, kept: seq<Tagged>, t: Tagged, final: seq<Tagged>, d: Decoding)
    requires Confused(files, kept, t) && Wrong(files, kept, t, d) && kept + [t] <= final && t.owner >= LastOf(kept)
    requires forall i :: |kept| <= i < |final| ==> final[i].owner >= t.owner
    ensures !(InRange(files, Survivors(final)) && d.files == FilesOf(files, Survivors(final), final))
  {
    hide FileOf, CurrentFor, Cut;
    var j, o := |Survivors(kept)| - 1, LastOf(kept);
    SurvivorsPrefix(kept, final);
    RunsGrow(kept, final, o);
    RunsGrow(kept + [t], final, o);
    RunsAppend(kept, t, o);
    assert Survivors(final)[j] == o;
    hide Survivors, Runs;
    if InRange(files, Survivors(final)) && d.files == FilesOf(files, Survivors(final), final) {
      RunsOfFile(files, final, d, j);
    }
  }

  lemma RunsOfFile(files: seq<Entry>, kept: seq<Tagged>, d: Decoding, j: nat)
    requires InRange(files, Survivors(kept)) && d.files == FilesOf(files, Survivors(kept), kept)
    requires j < |Survivors(kept)|
    ensures j < |d.files| && d.files[j].runs == Runs(kept, Survivors(kept)[j])
  {
    hide Survivors, Runs;
  }

  lemma {:induction false} TakesFront(blocks: seq<bytes>, lost: seq<nat>, n: nat)
    requires AllHeaded(blocks) && n <= |blocks| && TakeBlocks(blocks, lost).Some?
    ensures TakeBlocks(blocks[..n], lost).Some?
    decreases |blocks|
  {
    hide TakeBlock;
    if n == |blocks| {
      assert blocks[..n] == blocks;
    } else {
      assert blocks[..|blocks| - 1][..n] == blocks[..n];
      TakesFront(blocks[..|blocks| - 1], lost, n);
    }
  }

  lemma WrongToTheEnd(files: seq<Entry>, kept: seq<Tagged>, t: Tagged, blocks: seq<bytes>, lost: seq<nat>, n: nat)
    requires AllHeaded(blocks) && n <= |blocks| && TakeBlocks(blocks, lost).Some? && TakeBlocks(blocks[..n], lost).Some?
    requires Wrong(files, kept, t, TakeBlocks(blocks[..n], lost).value)
    ensures Wrong(files, kept, t, TakeBlocks(blocks, lost).value)
  {
    hide TakeBlocks, Strayed, Survivors, Runs;
    var over := t.owner != LastOf(kept);
    BlocksStray(blocks, lost, n, |Survivors(kept)| - 1, if over then RunsKept(kept) + 1 else RunsKept(kept), over);
  }

  /** What is kept from the block on. */
  lemma KeptFrom(s: Summary, files: seq<Entry>, slots: seq<Slot>, lost: seq<nat>, n: nat)
    requires n < |slots| && n + 1 !in lost && slots[n].Holds? && slots[n].block.records != []
    requires Chained(s, files, RecordsOf(slots))
    requires |RecordsOf(slots[..n])| < |RecordsOf(slots)|
    requires RecordsOf(slots)[|RecordsOf(slots[..n])|] == slots[n].block.records[0]
    ensures var kept, t, final := KeptOf(slots[..n], lost), slots[n].block.records[0], KeptOf(slots, lost);
            kept + [t] <= final && forall i :: |kept| <= i < |final| ==> final[i].owner >= t.owner
  {
    hide Chained;
    var kept, b := KeptOf(slots[..n], lost), slots[n].block;
    assert slots[..n + 1][..n] == slots[..n];
    assert KeptOf(slots[..n + 1], lost) == kept + b.records;
    KeptPrefix(slots, lost, n + 1);
    hide KeptOf, RecordsOf;
    LaterOwners(s, files, slots, lost, n, b.records[0].owner);
    assert kept + [b.records[0]] <= kept + b.records;
  }

  /** The first block that confuses leaves the decoding wrong. */
  lemma ConfusedWrong(l: Layout, s: Summary, files: seq<Entry>, slots: seq<Slot>, blocks: seq<bytes>, lost: seq<nat>,
                      n: nat, d: Decoding)
    requires n < |slots| == |blocks| && AllHeaded(blocks) && Some(d) == TakeBlocks(blocks, lost)
    requires SaveSetSound(l, s, files, slots) && TakenTo(l, s, files, slots, blocks, lost, n)
    requires ConfusedAt(files, slots, lost, n) && ReadableAt(l, slots[n], n + 1, blocks[n])
    ensures !DecodesTo(d, s, files, slots, lost)
  {
    hide SaveSetSound, TakenTo, TakeBlocks, LostBefore, Confused, Wrong, KeptOf, RecordsOf, ReadableAt, Survivors,
      FilesOf, InRange, Increasing, KeptSummary, Chained;
    var kept, t := KeptOf(slots[..n], lost), slots[n].block.records[0];
    TakesFront(blocks, lost, n + 1);
    ConfusedStrays(l, s, files, slots, blocks, lost, n, TakeBlocks(blocks[..n + 1], lost));
    WrongToTheEnd(files, kept, t, blocks, lost, n + 1);
    LeadAddress(l, s, files, slots, n);
    SoundChained(l, s, files, slots);
    KeptFrom(s, files, slots, lost, n);
    NotBefore(l, s, files, slots, blocks, lost, n);
    WrongRuns(files, kept, t, KeptOf(slots, lost), d);
  }

  lemma SoundChained(l: Layout, s: Summary, files: seq<Entry>, slots: seq<Slot>)
    requires SaveSetSound(l, s, files, slots)
    ensures Chained(s, files, RecordsOf(slots))
  {
    hide Chained, BlockSound, RecordsOf;
  }

  /** A block's first record is of no file before those kept. */
  lemma NotBefore(l: Layout, s: Summary, files: seq<Entry>, slots: seq<Slot>, blocks: seq<bytes>, lost: seq<nat>,
                  n: nat)
    requires n < |slots| == |blocks| && AllHeaded(blocks)
    requires SaveSetSound(l, s, files, slots) && TakenTo(l, s, files, slots, blocks, lost, n)
    requires ConfusedAt(files, slots, lost, n)
    ensures slots[n].block.records[0].owner >= LastOf(KeptOf(slots[..n], lost))
  {
    hide SaveSetSound, TakeBlocks, KeptOf, RecordsOf, Survivors, Decoded, InStep, Behind, LostBefore;
    LeadAddress(l, s, files, slots, n);
    var kept := KeptOf(slots[..n], lost);
    assert kept != [] ==> kept[|kept| - 1].owner <= LastOf(RecordsOf(slots[..n]));
  }

  lemma {:induction false} FirstConfused(files: seq<Entry>, slots: seq<Slot>, lost: seq<nat>, n: nat) returns (m: nat)
    requires ConfusedAt(files, slots, lost, n)
    ensures ConfusedAt(files, slots, lost, m) && forall i: nat :: i < m ==> !ConfusedAt(files, slots, lost, i)
    decreases n
  {
    hide ConfusedAt;
    if i: nat :| i < n && ConfusedAt(files, slots, lost, i) {
      m := FirstConfused(files, slots, lost, i);
    } else {
      m := n;
    }
  }

  /**
   * Whatever blocks but the first are lost, decoding gives exactly the files and the data that are left, exactly where
   * no data block that follows a lost one leads with data whose file's name, as the block's header has it, is that of
   * the file being read when the file is another, or is not when the file is that one.
   */
  lemma DecodesExactly(l: Layout, s: Summary, files: seq<Entry>, slots: seq<Slot>, blocks: seq<bytes>, lost: seq<nat>)
    requires SaveSetSound(l, s, files, slots) && Readable(l, slots, blocks, lost) && 1 !in lost
    ensures AllHeaded(blocks)
    ensures (Decode(blocks, lost).Some? && DecodesTo(Decode(blocks, lost).value, s, files, slots, lost)) <==>
              Unconfused(files, slots, lost)
  {
    hide SaveSetSound, TakenTo, TakeBlocks, ConfusedAt, DecodesTo, ReadableAt;
    if Unconfused(files, slots, lost) {
      DecodeExact(l, s, files, slots, blocks, lost);
    } else {
      var some: nat :| ConfusedAt(files, slots, lost, some);
      var n := FirstConfused(files, slots, lost, some);
      ConfusedKept(files, slots, lost, n);
      AllTaken(l, s, files, slots, blocks, lost, n);
      if TakeBlocks(blocks, lost).Some? {
        ConfusedWrong(l, s, files, slots, blocks, lost, n, TakeBlocks(blocks, lost).value);
      }
    }
  }

  lemma ConfusedKept(files: seq<Entry>, slots: seq<Slot>, lost: seq<nat>, n: nat)
    requires ConfusedAt(files, slots, lost, n)
    ensures n < |slots| && n + 1 !in lost
  {
    hide Confused, LostBefore;
  }

  /** Nothing is confused where nothing is lost, or where every name is its file's own and fits a header. */
  lemma NothingConfused(files: seq<Entry>, slots: seq<Slot>, lost: seq<nat>)
    requires lost == [] || (Distinct(files) && ShortNames(files))
    ensures Unconfused(files, slots, lost)
  {
    hide Survivors, KeptOf, Distinct, ShortNames, Cut, CurrentFor;
    forall n: nat
      ensures !ConfusedAt(files, slots, lost, n)
    {
      if n < |slots| && lost == [] {
        NoneLost(slots, n);
      } else if ConfusedAt(files, slots, lost, n) {
        DistinctUnconfused(files, KeptOf(slots[..n], lost), slots[n].block.records[0]);
      }
    }
  }

  lemma {:induction false} NoneLost(slots: seq<Slot>, n: nat)
    requires n <= |slots|
    ensures !LostBefore(slots, [], n)
  {
    if n > 0 {
      NoneLost(slots, n - 1);
    }
  }

  // ---- Names that confuse ----

  /** The summary, a file, and some of its data, or none. */
  predicate OfOneFile(s: Summary, e: Entry, ts: seq<Tagged>) {
    && [Tagged(-1, SummaryRecord(s)), Tagged(0, FileRecord(e))] <= ts
    && forall i :: 2 <= i < |ts| ==> ts[i].owner == 0 && ts[i].rec.kind == RecordVBN
  }

  /** Three blocks: the summary, a file and the first of its data; some more; and, leading the third, data of file o. */
  predicate ThreeBlocks(s: Summary, files: seq<Entry>, o: nat, slots: seq<Slot>) {
    && o < |files| && 0 < |files| && |slots| == 3 && slots[0].Holds? && slots[1].Holds? && slots[2].Holds?
    && OfOneFile(s, files[0], slots[0].block.records)
    && slots[2].block.records != [] && slots[2].block.records[0].owner == o
    && slots[2].block.records[0].rec.kind == RecordVBN
  }

  /** The first of them is what is kept before the third. */
  lemma FirstKept(s: Summary, files: seq<Entry>, o: nat, slots: seq<Slot>)
    requires ThreeBlocks(s, files, o, slots)
    ensures KeptOf(slots[..2], [2]) == slots[0].block.records
  {
    hide SummaryRecord, FileRecord;
    var first := slots[0].block.records;
    assert slots[..2][..1] == [slots[0]] && [slots[0]][..0] == [];
    assert KeptOf([slots[0]], [2]) == KeptOf([], [2]) + first;
    assert [] + first == first;
  }

  lemma {:induction false} FirstSurvives(s: Summary, e: Entry, ts: seq<Tagged>)
    requires OfOneFile(s, e, ts)
    ensures Survivors(ts) == [0] && LastOf(ts) == 0
    decreases |ts|
  {
    hide EncodeSummary, EncodeAttributes;
    var n := |ts| - 1;
    if n >= 2 {
      FirstSurvives(s, e, ts[..n]);
    } else {
      assert ts == [Tagged(-1, SummaryRecord(s)), Tagged(0, FileRecord(e))];
      assert ts[..1] == [Tagged(-1, SummaryRecord(s))] && ts[..1][..0] == [];
      assert Survivors(ts[..1]) == [];
    }
  }

  lemma ThirdConfused(s: Summary, files: seq<Entry>, o: nat, slots: seq<Slot>)
    requires ThreeBlocks(s, files, o, slots)
    ensures ConfusedAt(files, slots, [2], 2) <==> !(Cut(files[o].attrs.name, 128) == files[0].attrs.name <==> o == 0)
  {
    hide Cut, SummaryRecord, FileRecord, KeptOf, Survivors;
    FirstKept(s, files, o, slots);
    FirstSurvives(s, files[0], slots[0].block.records);
  }

  /** Two files of one name, the second's first block lost: its data is taken for the first's. */
  lemma EqualNamesConfuse(s: Summary, files: seq<Entry>, slots: seq<Slot>)
    requires |files| == 2 && ThreeBlocks(s, files, 1, slots)
    requires files[0].attrs.name == files[1].attrs.name && |files[1].attrs.name| <= 127
    ensures ConfusedAt(files, slots, [2], 2)
  {
    ThirdConfused(s, files, 1, slots);
  }

  /** A file whose name is too long for a header: its data after a lost block is taken for another's. */
  lemma LongNameConfuses(s: Summary, files: seq<Entry>, slots: seq<Slot>)
    requires ThreeBlocks(s, files, 0, slots) && |files[0].attrs.name| > 127
    ensures ConfusedAt(files, slots, [2], 2)
  {
    ThirdConfused(s, files, 0, slots);
  }
}
