/** Packing a save set's records into blocks: the writer's decisions, before any byte is laid out. */
module Packing {
  import opened Bytes
  import opened Crc
  import opened Blocks
  import opened AttributeLists
  import opened SaveSetStream

  /** What Add is given: a file's attributes, its records' flags, and its used blocks. */
  datatype Entry = Entry(attrs: Attributes, flags: uint32, data: bytes)

  /** A caller's calls between NewWriter and Close. */
  datatype Call = AddFile(entry: Entry) | EndBlock

  /**
   * The blocks ended so far, the one being filled, the file being saved, and whether a record was too large, and how
   * many blocks had then ended.
   */
  datatype Packer = Packer(closed: seq<DataBlock>, open: Option<DataBlock>, current: CurrentFile, failed: bool,
                           stopped: nat)

  function LayoutOf(s: Summary, crc: bool): Layout {
    Layout(s.blockSize, s.groupSize, crc, s.opSys, s.name)
  }

  function OnVolume(id: FileID): FileID {
    if id[2] == 0 then [id[0], id[1], 1] else id
  }

  /** currentFile. */
  function CurrentOf(f: Attributes): CurrentFile {
    CurrentFile(OnVolume(f.fid), OnVolume(f.backLink), f.name, f.fat[0], f.fat[1], Word(f.fat, 2), f.fat[14], f.fat[15],
                Word(f.fat, 16), f.allocation)
  }

  /** data padded to whole virtual blocks. */
  function Whole(data: bytes): (r: bytes)
    ensures data <= r && |r| % VBNSize == 0 && |r| < |data| + VBNSize
  {
    var rem := |data| % VBNSize;
    if rem == 0 then data else data + Zeros(VBNSize - rem)
  }

  function SummaryRecord(s: Summary): Record {
    Record(RecordSummary, 0, 0, EncodeSummary(s))
  }

  function FileRecord(e: Entry): Record {
    Record(RecordFile, e.flags, 0, EncodeAttributes(e.attrs))
  }

  // ---- The writer's steps ----

  function Place(p: Packer): nat {
    if p.open.None? then HeaderSize else At(p.open.value.records)
  }

  /** How much of the block a record's body may take. */
  function Room(l: Layout, p: Packer): nat {
    if l.blockSize >= Place(p) + 2 * RecordHeaderSize then l.blockSize - Place(p) - 2 * RecordHeaderSize else 0
  }

  function End(p: Packer): Packer
    requires p.open.Some?
  {
    p.(closed := p.closed + [p.open.value], open := None)
  }

  function Started(p: Packer): Packer {
    if p.open.None? then p.(open := Some(DataBlock(p.current, [], []))) else p
  }

  function Taken(p: Packer, t: Tagged): Packer
    requires p.open.Some?
  {
    p.(open := Some(p.open.value.(records := p.open.value.records + [t])))
  }

  function Failing(p: Packer): Packer {
    p.(failed := true, stopped := if p.failed then p.stopped else |p.closed|)
  }

  /** put: a record that does not fit in this block starts the next, and one that fits in none fails. */
  function PutRecord(l: Layout, p: Packer, t: Tagged): Packer {
    var size := PaddedSize(|t.rec.body|);
    var p1 := Started(if p.open.Some? && size > Room(l, p) then End(p) else p);
    if size > Room(l, p1) then Failing(p1) else Taken(p1, t)
  }

  /** Add's loop: as many virtual blocks at a time as the block has room for. */
  function AddData(l: Layout, p: Packer, owner: int, flags: uint32, vbn: nat, data: bytes): Packer
    requires ValidLayout(l)
    decreases |data|, if p.open.Some? then 1 else 0
  {
    if data == [] || p.failed then p
    else
      var blocks := Room(l, p) / VBNSize;
      if blocks == 0 then AddData(l, End(p), owner, flags, vbn, data)
      else
        var n := if blocks * VBNSize < |data| then blocks * VBNSize else |data|;
        AddData(l, PutRecord(l, p, Tagged(owner, Record(RecordVBN, flags, Number(vbn), data[..n]))), owner, flags,
                vbn + n / VBNSize, data[n..])
  }

  function Finished(p: Packer, name: bytes): Packer {
    if p.open.Some? then p.(open := Some(p.open.value.(done := p.open.value.done + [name]))) else p
  }

  function Add(l: Layout, p: Packer, owner: int, e: Entry): Packer
    requires ValidLayout(l)
  {
    if p.failed then p
    else
      var p1 := PutRecord(l, p.(current := CurrentOf(e.attrs)), Tagged(owner, FileRecord(e)));
      Finished(AddData(l, p1, owner, e.flags, 1, Whole(e.data)), e.attrs.name)
  }

  function Start(l: Layout, s: Summary): Packer {
    PutRecord(l, Packer([], None, NoFile, false, 0), Tagged(-1, SummaryRecord(s)))
  }

  function Files(calls: seq<Call>): seq<Entry> {
    if calls == [] then []
    else
      var c := calls[|calls| - 1];
      if c.AddFile? then Files(calls[..|calls| - 1]) + [c.entry] else Files(calls[..|calls| - 1])
  }

  function Pack(l: Layout, s: Summary, calls: seq<Call>): Packer
    requires ValidLayout(l)
  {
    if calls == [] then Start(l, s)
    else
      var front, c := calls[..|calls| - 1], calls[|calls| - 1];
      var p := Pack(l, s, front);
      match c
      case AddFile(e) => Add(l, p, |Files(front)|, e)
      case EndBlock => if p.open.Some? then End(p) else p
  }

  /** Every record the caller asks for fits some block. */
  predicate RecordsFit(l: Layout, s: Summary, files: seq<Entry>) {
    && Fitting(l, EncodeSummary(s))
    && forall i :: 0 <= i < |files| ==> Fitting(l, EncodeAttributes(files[i].attrs))
  }

  predicate Fitting(l: Layout, body: bytes) {
    PaddedSize(|body|) + HeaderSize + 2 * RecordHeaderSize <= l.blockSize
  }

  // ---- What packing makes ----

  function BlocksOf(p: Packer): seq<DataBlock> {
    if p.open.Some? then p.closed + [p.open.value] else p.closed
  }

  function Flatten(blocks: seq<DataBlock>): seq<Tagged> {
    if blocks == [] then [] else Flatten(blocks[..|blocks| - 1]) + blocks[|blocks| - 1].records
  }

  function Dones(blocks: seq<DataBlock>): seq<bytes> {
    if blocks == [] then [] else Dones(blocks[..|blocks| - 1]) + blocks[|blocks| - 1].done
  }

  /** All the bytes of the n-th file begun, counting from 1. */
  function Total(files: seq<Entry>, n: nat): nat
    requires n <= |files|
  {
    if n == 0 then 0 else |Whole(files[n - 1].data)|
  }

  /** t is the record of its file that holds bytes from on. */
  predicate DataRecord(t: Tagged, e: Entry, from: nat) {
    var n := |t.rec.body|;
    && from % VBNSize == 0 && n > 0 && n % VBNSize == 0 && from + n <= |Whole(e.data)|
    && t.rec == Record(RecordVBN, e.flags, Number(from / VBNSize + 1), Whole(e.data)[from..from + n])
  }

  /**
   * ts is the summary, then each of the first n files: its attributes, then its data in order, complete for
   * all but the last, of which the first at bytes are there.
   */
  predicate Fed(ts: seq<Tagged>, s: Summary, files: seq<Entry>, n: nat, at: nat)
    decreases |ts|
  {
    && n <= |files| && ts != []
    && var front, t := ts[..|ts| - 1], ts[|ts| - 1];
       && t.owner == n - 1
       && if front == [] then n == 0 && t.rec == SummaryRecord(s) && at == 0
          else if t.rec.kind == RecordFile then
            n > 0 && t.rec == FileRecord(files[n - 1]) && at == 0 && Fed(front, s, files, n - 1, Total(files, n - 1))
          else
            n > 0 && |t.rec.body| <= at && DataRecord(t, files[n - 1], at - |t.rec.body|)
            && Fed(front, s, files, n, at - |t.rec.body|)
  }

  /** The file a block that starts with a record of owner names in its header. */
  function CurrentFor(files: seq<Entry>, owner: int): CurrentFile
    requires -1 <= owner < |files|
  {
    if owner < 0 then NoFile else CurrentOf(files[owner].attrs)
  }

  /** A block has room for its null record, and names the file its first record belongs to. */
  predicate BlockSound(l: Layout, files: seq<Entry>, b: DataBlock) {
    && Fits(l, b.records) && b.records != [] && -1 <= b.records[0].owner < |files|
    && b.current == CurrentFor(files, b.records[0].owner)
  }

  predicate BlocksSound(l: Layout, files: seq<Entry>, blocks: seq<DataBlock>) {
    forall i :: 0 <= i < |blocks| ==> BlockSound(l, files, blocks[i])
  }

  /** No record of block j belongs to a file that was done in a block before it. */
  predicate DoneInOrder(blocks: seq<DataBlock>) {
    forall j, k :: 0 <= j < |blocks| && 0 <= k < |blocks[j].records| ==>
      !(0 <= blocks[j].records[k].owner < |Dones(blocks[..j])|)
  }

  function Names(files: seq<Entry>): (r: seq<bytes>)
    ensures |r| == |files|
  {
    seq(|files|, i requires 0 <= i < |files| => files[i].attrs.name)
  }

  /** Between the writer's steps: n files begun, at bytes of the last one's data packed, d files done. */
  ghost predicate Packed(l: Layout, s: Summary, files: seq<Entry>, p: Packer, n: nat, at: nat, d: nat) {
    && !p.failed && n <= |files| && d <= n <= d + 1
    && Fed(Flatten(BlocksOf(p)), s, files, n, at)
    && BlocksSound(l, files, BlocksOf(p)) && DoneInOrder(BlocksOf(p))
    && Dones(BlocksOf(p)) == Names(files[..d])
    && p.current == CurrentFor(files, n - 1)
  }

  // ---- Appending a block, and a record to the last block ----

  lemma FlattenAppend(blocks: seq<DataBlock>, b: DataBlock)
    ensures Flatten(blocks + [b]) == Flatten(blocks) + b.records && Dones(blocks + [b]) == Dones(blocks) + b.done
  {
    assert (blocks + [b])[..|blocks|] == blocks;
  }

  lemma AtAppend(ts: seq<Tagged>, t: Tagged)
    ensures At(ts + [t]) == At(ts) + RecordHeaderSize + PaddedSize(|t.rec.body|)
    ensures AllWritable(Recs(ts)) && Writable(t.rec) ==> AllWritable(Recs(ts + [t]))
  {
    assert Recs(ts + [t]) == Recs(ts) + [t.rec];
    assert (Recs(ts) + [t.rec])[..|ts|] == Recs(ts);
    hide RecordBytes, Writable;
  }

  /** The blocks' invariants, for all but the records' contents. */
  predicate Sound(l: Layout, files: seq<Entry>, blocks: seq<DataBlock>) {
    BlocksSound(l, files, blocks) && DoneInOrder(blocks)
  }

  lemma NewBlockSound(l: Layout, files: seq<Entry>, blocks: seq<DataBlock>, t: Tagged)
    requires ValidLayout(l) && Sound(l, files, blocks) && -1 <= t.owner < |files|
    requires Fitting(l, t.rec.body) && t.rec.kind != RecordNull && !(0 <= t.owner < |Dones(blocks)|)
    ensures var b := DataBlock(CurrentFor(files, t.owner), [t], []);
            Sound(l, files, blocks + [b])
  {
    var b := DataBlock(CurrentFor(files, t.owner), [t], []);
    AtAppend([], t);
    assert [] + [t] == [t];
    EmptyAt();
    hide At, CurrentFor, Recs, PaddedSize, DoneInOrder, Dones, AllWritable;
    NewBlockInOrder(blocks, b);
    assert BlockSound(l, files, b);
    hide BlockSound;
  }

  lemma NewBlockInOrder(blocks: seq<DataBlock>, b: DataBlock)
    requires DoneInOrder(blocks)
    requires forall k :: 0 <= k < |b.records| ==> !(0 <= b.records[k].owner < |Dones(blocks)|)
    ensures DoneInOrder(blocks + [b])
  {
    var r := blocks + [b];
    forall j, k | 0 <= j < |r| && 0 <= k < |r[j].records|
      ensures !(0 <= r[j].records[k].owner < |Dones(r[..j])|)
    {
      if j < |blocks| {
        assert r[..j] == blocks[..j];
        assert !(0 <= blocks[j].records[k].owner < |Dones(blocks[..j])|);
      } else {
        assert r[..j] == blocks;
      }
    }
  }

  lemma EmptyAt()
    ensures At([]) == HeaderSize && AllWritable(Recs([]))
  {
  }

  lemma FrontInOrder(blocks: seq<DataBlock>, b: DataBlock)
    requires DoneInOrder(blocks + [b])
    ensures DoneInOrder(blocks)
    ensures forall k :: 0 <= k < |b.records| ==> !(0 <= b.records[k].owner < |Dones(blocks)|)
  {
    var r := blocks + [b];
    assert r[..|blocks|] == blocks;
    forall j, k | 0 <= j < |blocks| && 0 <= k < |blocks[j].records|
      ensures !(0 <= blocks[j].records[k].owner < |Dones(blocks[..j])|)
    {
      assert r[..j] == blocks[..j] && r[j] == blocks[j];
    }
    forall k | 0 <= k < |b.records|
      ensures !(0 <= b.records[k].owner < |Dones(blocks)|)
    {
      assert r[|blocks|] == b;
    }
  }

  lemma MoreSound(l: Layout, files: seq<Entry>, blocks: seq<DataBlock>, b: DataBlock, t: Tagged)
    requires Sound(l, files, blocks + [b])
    requires At(b.records) + 2 * RecordHeaderSize + PaddedSize(|t.rec.body|) <= l.blockSize <= MaxBlockSize
    requires t.rec.kind != RecordNull && !(0 <= t.owner < |Dones(blocks)|)
    ensures Sound(l, files, blocks + [b.(records := b.records + [t])])
  {
    var c := b.(records := b.records + [t]);
    FrontInOrder(blocks, b);
    NewBlockInOrder(blocks, c);
    AtAppend(b.records, t);
    assert (blocks + [b])[|blocks|] == b;
    hide At, DoneInOrder, Dones, PaddedSize, CurrentFor, Recs;
    assert BlockSound(l, files, b) && BlockSound(l, files, c);
    assert forall i :: 0 <= i < |blocks| ==> (blocks + [b])[i] == blocks[i];
  }

  /** put adds the record to the save set's, in this block or the next, and keeps every block sound. */
  lemma PutKeeps(l: Layout, files: seq<Entry>, p: Packer, t: Tagged)
    requires ValidLayout(l) && !p.failed && Sound(l, files, BlocksOf(p)) && -1 <= t.owner < |files|
    requires Fitting(l, t.rec.body) && t.rec.body != [] && t.rec.kind != RecordNull
    requires !(0 <= t.owner < |Dones(BlocksOf(p))|)
    requires p.current == CurrentFor(files, t.owner)
    ensures var r := PutRecord(l, p, t);
            && !r.failed && r.open.Some? && r.current == p.current && Sound(l, files, BlocksOf(r))
            && Flatten(BlocksOf(r)) == Flatten(BlocksOf(p)) + [t] && Dones(BlocksOf(r)) == Dones(BlocksOf(p))
  {
    hide Sound, CurrentFor, Flatten, Dones, PaddedSize, At;
    EmptyAt();
    var first := DataBlock(p.current, [t], []);
    if p.open.Some? && PaddedSize(|t.rec.body|) <= Room(l, p) {
      var b := p.open.value;
      PaddedPositive(|t.rec.body|);
      FlattenAppend(p.closed, b);
      DonesOfFront(p.closed, b);
      MoreSound(l, files, p.closed, b, t);
      FlattenAppend(p.closed, b.(records := b.records + [t]));
      assert Flatten(p.closed) + (b.records + [t]) == Flatten(p.closed) + b.records + [t];
    } else {
      assert PutRecord(l, p, t) == Packer(BlocksOf(p), Some(first), p.current, false, p.stopped) by {
        assert [] + [t] == [t];
      }
      NewBlockSound(l, files, BlocksOf(p), t);
      FlattenAppend(BlocksOf(p), first);
    }
  }

  lemma PaddedPositive(n: nat)
    requires n > 0
    ensures PaddedSize(n) > 0
  {
  }

  lemma DonesOfFront(blocks: seq<DataBlock>, b: DataBlock)
    ensures |Dones(blocks)| <= |Dones(blocks + [b])|
  {
    FlattenAppend(blocks, b);
  }

  // ---- The writer's calls keep the invariant ----

  lemma FedSummary(s: Summary, files: seq<Entry>)
    ensures Fed([] + [Tagged(-1, SummaryRecord(s))], s, files, 0, 0)
  {
    hide SummaryRecord;
    var ts := [] + [Tagged(-1, SummaryRecord(s))];
    assert ts[..0] == [];
  }

  lemma FedFile(ts: seq<Tagged>, s: Summary, files: seq<Entry>, n: nat)
    requires n < |files| && Fed(ts, s, files, n, Total(files, n))
    ensures Fed(ts + [Tagged(n, FileRecord(files[n]))], s, files, n + 1, 0)
  {
    hide EncodeSummary, EncodeAttributes, Whole, Number, DataRecord;
    var r := ts + [Tagged(n, FileRecord(files[n]))];
    assert r[..|ts|] == ts;
  }

  lemma FedData(ts: seq<Tagged>, s: Summary, files: seq<Entry>, n: nat, at: nat, t: Tagged)
    requires 0 < n <= |files| && Fed(ts, s, files, n, at) && t.owner == n - 1 && DataRecord(t, files[n - 1], at)
    ensures Fed(ts + [t], s, files, n, at + |t.rec.body|)
  {
    hide EncodeSummary, EncodeAttributes, Whole, Number;
    var r := ts + [t];
    assert r[..|ts|] == ts;
  }

  lemma StartPacked(l: Layout, s: Summary, files: seq<Entry>)
    requires ValidLayout(l) && Fitting(l, EncodeSummary(s))
    ensures Packed(l, s, files, Start(l, s), 0, 0, 0) && Start(l, s).open.Some?
  {
    var p := Packer([], None, NoFile, false, 0);
    var t := Tagged(-1, SummaryRecord(s));
    FedSummary(s, files);
    EncodedSome(SummaryList(s));
    hide Fed, PutRecord, PaddedSize, Encode, SummaryList;
    PutKeeps(l, files, p, t);
  }

  lemma EncodedSome(list: seq<Attribute>)
    ensures Encode(list) != []
  {
  }

  lemma EndPacked(l: Layout, s: Summary, files: seq<Entry>, p: Packer, n: nat, at: nat, d: nat)
    requires Packed(l, s, files, p, n, at, d) && p.open.Some?
    ensures Packed(l, s, files, End(p), n, at, d)
  {
    assert BlocksOf(End(p)) == BlocksOf(p);
    hide Fed, BlocksSound, DoneInOrder, Dones, Flatten, BlocksOf;
  }

  lemma PackedFacts(l: Layout, s: Summary, files: seq<Entry>, p: Packer, n: nat, at: nat, d: nat)
    requires Packed(l, s, files, p, n, at, d)
    ensures !p.failed && n <= |files|
  {
  }

  /** The next data record Add writes. */
  function NextRecord(e: Entry, owner: int, at: nat, m: nat): Tagged
    requires at + m <= |Whole(e.data)|
  {
    Tagged(owner, Record(RecordVBN, e.flags, Number(at / VBNSize + 1), Whole(e.data)[at..at + m]))
  }

  lemma RunKeeps(l: Layout, s: Summary, files: seq<Entry>, p: Packer, n: nat, at: nat, data: bytes)
    requires ValidLayout(l) && 0 < n && Packed(l, s, files, p, n, at, n - 1)
    requires at % VBNSize == 0 && at <= Total(files, n) && data == Whole(files[n - 1].data)[at..] && data != []
    requires Room(l, p) / VBNSize > 0
    ensures var m := RunOf(l, p, data);
            && 0 < m <= |data| && (at + m) % VBNSize == 0 && at + m <= Total(files, n)
            && (at + m) / VBNSize + 1 == at / VBNSize + 1 + m / VBNSize
            && var r := PutRecord(l, p, NextRecord(files[n - 1], n - 1, at, m));
               Packed(l, s, files, r, n, at + m, n - 1) && r.open.Some?
  {
    hide Packed, Room, PutRecord, Number, PaddedSize;
    PackedFacts(l, s, files, p, n, at, n - 1);
    var m := RunOf(l, p, data);
    RunFits(l, p, m, |data|);
    NextRun(at, m);
    var t := NextRecord(files[n - 1], n - 1, at, m);
    DataPut(l, s, files, p, n, at, t);
  }

  /** One turn of Add's loop. */
  lemma AddDataTurn(l: Layout, p: Packer, e: Entry, owner: int, at: nat, data: bytes)
    requires ValidLayout(l) && !p.failed && at <= |Whole(e.data)| && data == Whole(e.data)[at..] && data != []
    ensures var vbn := at / VBNSize + 1;
            AddData(l, p, owner, e.flags, vbn, data) ==
            if Room(l, p) / VBNSize == 0 then AddData(l, End(p), owner, e.flags, vbn, data)
            else
              var m := RunOf(l, p, data);
              AddData(l, PutRecord(l, p, NextRecord(e, owner, at, m)), owner, e.flags, vbn + m / VBNSize, data[m..])
  {
    hide PutRecord, Room, Whole, Number;
    if Room(l, p) / VBNSize != 0 {
      var m := RunOf(l, p, data);
      assert data[..m] == Whole(e.data)[at..at + m];
    }
  }

  lemma {:induction false} AddDataKeeps(l: Layout, s: Summary, files: seq<Entry>, p: Packer, n: nat, at: nat,
                                        data: bytes)
    requires ValidLayout(l) && 0 < n && Packed(l, s, files, p, n, at, n - 1)
    requires at % VBNSize == 0 && at <= Total(files, n) && data == Whole(files[n - 1].data)[at..]
    requires p.open.Some? || data != []
    ensures var r := AddData(l, p, n - 1, files[n - 1].flags, at / VBNSize + 1, data);
            Packed(l, s, files, r, n, Total(files, n), n - 1) && r.open.Some?
    decreases |data|, if p.open.Some? then 1 else 0
  {
    hide Packed, Room, Whole, PutRecord, AddData, RunOf, NextRecord;
    PackedFacts(l, s, files, p, n, at, n - 1);
    if data == [] {
      NothingToAdd(l, p, n - 1, files[n - 1].flags, at / VBNSize + 1);
    } else {
      AddDataTurn(l, p, files[n - 1], n - 1, at, data);
      if Room(l, p) / VBNSize == 0 {
        RoomInFresh(l, p);
        EndPacked(l, s, files, p, n, at, n - 1);
        AddDataKeeps(l, s, files, End(p), n, at, data);
      } else {
        RunKeeps(l, s, files, p, n, at, data);
        var m := RunOf(l, p, data);
        assert data[m..] == Whole(files[n - 1].data)[at + m..];
        AddDataKeeps(l, s, files, PutRecord(l, p, NextRecord(files[n - 1], n - 1, at, m)), n, at + m, data[m..]);
      }
    }
  }

  lemma NothingToAdd(l: Layout, p: Packer, owner: int, flags: uint32, vbn: nat)
    requires ValidLayout(l)
    ensures AddData(l, p, owner, flags, vbn, []) == p
  {
  }

  lemma NextRun(at: nat, m: nat)
    requires at % VBNSize == 0 && m % VBNSize == 0
    ensures (at + m) % VBNSize == 0 && (at + m) / VBNSize + 1 == at / VBNSize + 1 + m / VBNSize
  {
  }

  lemma RoomInFresh(l: Layout, p: Packer)
    requires ValidLayout(l) && Room(l, p) / VBNSize == 0
    ensures p.open.Some?
  {
  }

  function RunOf(l: Layout, p: Packer, data: bytes): nat {
    var whole := Room(l, p) / VBNSize * VBNSize;
    if whole < |data| then whole else |data|
  }

  /** A run of whole virtual blocks the room allows fits, now and in a fresh block, as does what is left. */
  lemma RunFits(l: Layout, p: Packer, m: nat, left: nat)
    requires ValidLayout(l) && left > 0 && left % VBNSize == 0 && Room(l, p) / VBNSize > 0
    requires var whole := Room(l, p) / VBNSize * VBNSize; m == if whole < left then whole else left
    ensures 0 < m <= left && m % VBNSize == 0 && PaddedSize(m) == m <= Room(l, p)
    ensures m + HeaderSize + 2 * RecordHeaderSize <= l.blockSize
  {
    assert Place(p) >= HeaderSize;
    hide At;
  }

  lemma DataPut(l: Layout, s: Summary, files: seq<Entry>, p: Packer, n: nat, at: nat, t: Tagged)
    requires ValidLayout(l) && 0 < n && Packed(l, s, files, p, n, at, n - 1)
    requires t.owner == n - 1 && DataRecord(t, files[n - 1], at) && Fitting(l, t.rec.body)
    ensures var r := PutRecord(l, p, t);
            Packed(l, s, files, r, n, at + |t.rec.body|, n - 1) && r.open.Some?
  {
    FedData(Flatten(BlocksOf(p)), s, files, n, at, t);
    hide Fed, Flatten, Dones, PutRecord, PaddedSize, Whole, CurrentFor;
    PutKeeps(l, files, p, t);
  }

  lemma FilePut(l: Layout, s: Summary, files: seq<Entry>, p: Packer, n: nat)
    requires ValidLayout(l) && n < |files| && Packed(l, s, files, p, n, Total(files, n), n)
    requires Fitting(l, EncodeAttributes(files[n].attrs))
    ensures var r := PutRecord(l, p.(current := CurrentOf(files[n].attrs)), Tagged(n, FileRecord(files[n])));
            Packed(l, s, files, r, n + 1, 0, n) && r.open.Some?
  {
    var p1 := p.(current := CurrentOf(files[n].attrs));
    assert BlocksOf(p1) == BlocksOf(p);
    FedFile(Flatten(BlocksOf(p)), s, files, n);
    EncodedSome(FileList(files[n].attrs));
    hide Fed, Flatten, Dones, PutRecord, PaddedSize, Total, Encode, FileList, CurrentOf;
    PutKeeps(l, files, p1, Tagged(n, FileRecord(files[n])));
  }

  lemma FinishedKeeps(l: Layout, s: Summary, files: seq<Entry>, p: Packer, n: nat)
    requires n < |files| && Packed(l, s, files, p, n + 1, Total(files, n + 1), n) && p.open.Some?
    ensures Packed(l, s, files, Finished(p, files[n].attrs.name), n + 1, Total(files, n + 1), n + 1)
  {
    var b := p.open.value;
    var r := Finished(p, files[n].attrs.name);
    assert BlocksOf(p) == p.closed + [b];
    hide Fed, Flatten, Dones, DoneInOrder, Total, BlocksSound, Names, CurrentFor;
    FinishedBlocks(l, files, p.closed, b, files[n].attrs.name);
    NamesNext(files, n);
  }

  lemma NamesNext(files: seq<Entry>, n: nat)
    requires n < |files|
    ensures Names(files[..n + 1]) == Names(files[..n]) + [files[n].attrs.name]
  {
  }

  lemma FinishedBlocks(l: Layout, files: seq<Entry>, blocks: seq<DataBlock>, b: DataBlock, name: bytes)
    requires BlocksSound(l, files, blocks + [b]) && DoneInOrder(blocks + [b])
    ensures var r := blocks + [b.(done := b.done + [name])];
            && Flatten(r) == Flatten(blocks + [b]) && Dones(r) == Dones(blocks + [b]) + [name]
            && BlocksSound(l, files, r) && DoneInOrder(r)
  {
    var c := b.(done := b.done + [name]);
    hide Flatten, Dones, DoneInOrder, BlocksSound;
    FlattenAppend(blocks, b);
    FlattenAppend(blocks, c);
    FrontInOrder(blocks, b);
    NewBlockInOrder(blocks, c);
    assert Dones(blocks) + (b.done + [name]) == Dones(blocks) + b.done + [name];
    SameSound(l, files, blocks, b, c);
  }

  lemma SameSound(l: Layout, files: seq<Entry>, blocks: seq<DataBlock>, b: DataBlock, c: DataBlock)
    requires BlocksSound(l, files, blocks + [b]) && c == b.(done := c.done)
    ensures BlocksSound(l, files, blocks + [c])
  {
    assert (blocks + [b])[|blocks|] == b;
    assert BlockSound(l, files, c);
    hide BlockSound;
    assert forall i :: 0 <= i < |blocks| ==> (blocks + [c])[i] == (blocks + [b])[i];
  }

  lemma AddKeeps(l: Layout, s: Summary, files: seq<Entry>, p: Packer, n: nat)
    requires ValidLayout(l) && n < |files| && Packed(l, s, files, p, n, Total(files, n), n)
    requires Fitting(l, EncodeAttributes(files[n].attrs))
    ensures Packed(l, s, files, Add(l, p, n, files[n]), n + 1, Total(files, n + 1), n + 1)
  {
    hide Fitting, Fed, Flatten, Dones, PutRecord, BlocksSound, DoneInOrder, FileRecord, CurrentOf, BlocksOf;
    var e := files[n];
    var p1 := PutRecord(l, p.(current := CurrentOf(e.attrs)), Tagged(n, FileRecord(e)));
    FilePut(l, s, files, p, n);
    assert Whole(e.data)[0..] == Whole(e.data);
    AddDataKeeps(l, s, files, p1, n + 1, 0, Whole(e.data));
    FinishedKeeps(l, s, files, AddData(l, p1, n, e.flags, 1, Whole(e.data)), n);
  }

  /**
   * After any calls whose records fit: the records of all the blocks, in order, are the summary and every file's
   * attributes and data, whole and in order; every block has room for its null record and names its first record's
   * file; and every file is done once, in order, no earlier than its last record's block.
   */
  lemma {:induction false} PackSound(l: Layout, s: Summary, calls: seq<Call>, files: seq<Entry>)
    requires ValidLayout(l) && Files(calls) <= files && RecordsFit(l, s, files)
    ensures var n := |Files(calls)|;
            Packed(l, s, files, Pack(l, s, calls), n, Total(files, n), n)
  {
    hide Packed, Total, RecordsFit, Add, Start, Pack, Files;
    CallsOf(l, s, calls);
    if calls == [] {
      FirstFits(l, s, files, 0);
      StartPacked(l, s, files);
      NoneBegun(files);
    } else {
      var front, c := calls[..|calls| - 1], calls[|calls| - 1];
      PackSound(l, s, front, files);
      var p, n := Pack(l, s, front), |Files(front)|;
      if c.AddFile? {
        assert files[n] == Files(calls)[n];
        FirstFits(l, s, files, n);
        AddKeeps(l, s, files, p, n);
      } else if p.open.Some? {
        EndPacked(l, s, files, p, n, Total(files, n), n);
      }
    }
  }

  lemma NoneBegun(files: seq<Entry>)
    ensures Total(files, 0) == 0
  {
  }

  lemma FirstFits(l: Layout, s: Summary, files: seq<Entry>, n: nat)
    requires RecordsFit(l, s, files)
    ensures Fitting(l, EncodeSummary(s)) && (n < |files| ==> Fitting(l, EncodeAttributes(files[n].attrs)))
  {
    hide Fitting;
  }

  /** What the last call does. */
  lemma CallsOf(l: Layout, s: Summary, calls: seq<Call>)
    requires ValidLayout(l)
    ensures calls == [] ==> Pack(l, s, calls) == Start(l, s) && Files(calls) == []
    ensures calls != [] ==>
              var front, c := calls[..|calls| - 1], calls[|calls| - 1];
              var p := Pack(l, s, front);
              && Files(calls) == (if c.AddFile? then Files(front) + [c.entry] else Files(front))
              && Pack(l, s, calls) == if c.AddFile? then Add(l, p, |Files(front)|, c.entry)
                   else if p.open.Some? then End(p) else p
  {
    hide Add, Start, End;
  }

  // ---- A call fails exactly when a record fits no block ----

  lemma PutFails(l: Layout, p: Packer, t: Tagged)
    requires ValidLayout(l) && !p.failed && t.rec.body != []
    ensures PutRecord(l, p, t).failed <==> !Fitting(l, t.rec.body)
  {
    EmptyAt();
    PaddedPositive(|t.rec.body|);
    hide At, PaddedSize;
  }

  lemma FailedStays(l: Layout, p: Packer, owner: int, e: Entry)
    requires ValidLayout(l) && !p.failed && !Fitting(l, EncodeAttributes(e.attrs))
    ensures Add(l, p, owner, e).failed
  {
    EncodedSome(FileList(e.attrs));
    hide PutRecord, Fitting, Encode, FileList;
    PutFails(l, p.(current := CurrentOf(e.attrs)), Tagged(owner, FileRecord(e)));
  }

  lemma StartFails(l: Layout, s: Summary)
    requires ValidLayout(l)
    ensures Start(l, s).failed <==> !Fitting(l, EncodeSummary(s))
  {
    hide Fitting, Encode, SummaryList, PutRecord;
    EncodedSome(SummaryList(s));
    PutFails(l, Packer([], None, NoFile, false, 0), Tagged(-1, SummaryRecord(s)));
  }

  lemma PackSucceeds(l: Layout, s: Summary, calls: seq<Call>)
    requires ValidLayout(l) && RecordsFit(l, s, Files(calls))
    ensures !Pack(l, s, calls).failed
  {
    hide RecordsFit, Pack, Files, Packed, Total;
    var files := Files(calls);
    PackSound(l, s, calls, files);
    PackedFacts(l, s, files, Pack(l, s, calls), |files|, Total(files, |files|), |files|);
  }

  /** The writer fails exactly when a record it was asked to write fits no block. */
  lemma {:induction false} PackFails(l: Layout, s: Summary, calls: seq<Call>)
    requires ValidLayout(l)
    ensures Pack(l, s, calls).failed <==> !RecordsFit(l, s, Files(calls))
  {
    hide Fitting, Add, Start, End, EncodeSummary, EncodeAttributes;
    if RecordsFit(l, s, Files(calls)) {
      PackSucceeds(l, s, calls);
    } else if calls == [] {
      StartFails(l, s);
    } else {
      var front, c := calls[..|calls| - 1], calls[|calls| - 1];
      PackFails(l, s, front);
      if c.AddFile? {
        var p := Pack(l, s, front);
        if p.failed {
          AddAfterFailure(l, p, |Files(front)|, c.entry);
        } else {
          FailedStays(l, p, |Files(front)|, c.entry);
        }
      } else {
        EndFails(Pack(l, s, front));
      }
    }
  }

  lemma EndFails(p: Packer)
    ensures p.open.Some? ==> End(p).failed == p.failed
  {
  }

  lemma AddAfterFailure(l: Layout, p: Packer, owner: int, e: Entry)
    requires ValidLayout(l) && p.failed
    ensures Add(l, p, owner, e) == p
  {
  }
}
