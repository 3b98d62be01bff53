/** The save set writer, its block, redundancy block and buffers changed in place as writer.go changes them. */
module SaveSetWriter {
  import opened Bytes
  import opened Crc
  import opened Blocks
  import opened AttributeLists
  import opened SaveSetStream
  import opened Groups
  import opened Packing

  // ---- Stores into a block ----

  method StoreBytes(a: array<byte>, at: nat, data: bytes)
    requires at + |data| <= a.Length
    modifies a
    ensures a[..] == Put(old(a[..]), at, data)
  {
    for k := 0 to |data|
      invariant forall j :: 0 <= j < a.Length ==> a[j] == if at <= j < at + k then data[j - at] else old(a[..])[j]
    {
      a[at + k] := data[k];
    }
  }

  method StoreWord(a: array<byte>, at: nat, v: uint16)
    requires at + 2 <= a.Length
    modifies a
    ensures a[..] == PutWord(old(a[..]), at, v)
  {
    hide LE, Put;
    StoreBytes(a, at, LE(v, 2));
  }

  method StoreLong(a: array<byte>, at: nat, v: uint32)
    requires at + 4 <= a.Length
    modifies a
    ensures a[..] == PutLong(old(a[..]), at, v)
  {
    hide LE, Put;
    StoreBytes(a, at, LE(v, 4));
  }

  method StoreStamp(a: array<byte>, l: Layout, application: uint16, number: uint32)
    requires a.Length >= HeaderSize
    modifies a
    ensures a[..] == Stamp(old(a[..]), l.opSys, SubsystemBackup, application, number, Flags(l))
  {
    hide PutWord, PutLong, Flags;
    StoreWord(a, 0, HeaderSize);
    StoreWord(a, 2, l.opSys);
    StoreWord(a, 4, SubsystemBackup);
    StoreWord(a, 6, application);
    StoreLong(a, 8, number);
    StoreLong(a, 44, Flags(l));
  }

  method StoreLabel(a: array<byte>, blockSize: uint32, name: bytes)
    requires a.Length >= HeaderSize
    modifies a
    ensures a[..] == Label(old(a[..]), blockSize, name)
  {
    hide PutWord, PutLong, CountedField, Put;
    StoreWord(a, 32, StructureLevel);
    StoreWord(a, 34, 1);
    StoreLong(a, 40, blockSize);
    StoreBytes(a, 48, CountedField(name, 32));
  }

  method StoreDescription(a: array<byte>, c: CurrentFile)
    requires a.Length >= HeaderSize
    modifies a
    ensures a[..] == Describe(old(a[..]), c)
  {
    hide PutWord, PutLong, CountedField, Put, Triple;
    StoreBytes(a, 80, Triple(c.fid) + Triple(c.did));
    StoreBytes(a, 92, CountedField(c.name, 128));
    StoreBytes(a, 220, [c.recordType, c.recordAttr]);
    StoreWord(a, 222, c.recordSize);
    StoreBytes(a, 224, [c.bucketSize, c.vfcSize]);
    StoreWord(a, 226, c.maxRecord);
    StoreLong(a, 228, c.allocation);
  }

  /** seal. */
  method SealBlock(a: array<byte>, crc: bool)
    requires a.Length >= HeaderSize
    modifies a
    ensures a[..] == Seal(old(a[..]), crc)
  {
    hide PutLong, DataCRC, HeaderChecksum, Put;
    StoreLong(a, CrcAt, 0);
    if crc {
      StoreBytes(a, CrcAt, DataCRC(a[..]));
    }
    StoreBytes(a, ChecksumAt, HeaderChecksum(a[..]));
  }

  /** The exclusive or of data taken into a. */
  method XorInto(a: array<byte>, data: bytes)
    requires a.Length == |data|
    modifies a
    ensures a[..] == Xor(old(a[..]), data)
  {
    for i := 0 to |data|
      invariant forall j :: 0 <= j < a.Length ==> a[j] == if j < i then old(a[..])[j] ^ data[j] else old(a[..])[j]
    {
      a[i] := a[i] ^ data[i];
    }
  }

  /** A record's header and body stored at offset at of a block that is zero from there on. */
  method StoreRecord(a: array<byte>, at: nat, r: Record)
    requires at + |RecordBytes(r)| <= a.Length && PaddedSize(|r.body|) < 0x1_0000
    requires forall i :: at <= i < a.Length ==> a[i] == 0
    modifies a
    ensures a[..] == Put(old(a[..]), at, RecordBytes(r))
  {
    hide LE, Put, PaddedSize;
    ghost var a0 := a[..];
    StoreWord(a, at, PaddedSize(|r.body|));
    StoreWord(a, at + 2, r.kind);
    StoreLong(a, at + 4, r.flags);
    StoreLong(a, at + 8, r.address);
    StoreBytes(a, at + RecordHeaderSize, r.body);
    RecordStored(a0, at, r);
  }

  /** The header's fields and the body, put one by one over zeros, are the record. */
  lemma RecordStored(a: bytes, at: nat, r: Record)
    requires at + |RecordBytes(r)| <= |a| && PaddedSize(|r.body|) < 0x1_0000
    requires forall i :: at <= i < |a| ==> a[i] == 0
    ensures var b1 := PutWord(a, at, PaddedSize(|r.body|));
            var b2 := PutWord(b1, at + 2, r.kind);
            var b3 := PutLong(b2, at + 4, r.flags);
            var b4 := PutLong(b3, at + 8, r.address);
            Put(b4, at + RecordHeaderSize, r.body) == Put(a, at, RecordBytes(r))
  {
    hide LE, PaddedSize, Put, RecordHeader, Padded;
    FieldsStored(a, at, LE(PaddedSize(|r.body|), 2), LE(r.kind, 2), LE(r.flags, 4), LE(r.address, 4));
    HeaderIs(r);
    PutTwice(a, at, RecordHeader(r), r.body);
    PaddingStored(a, at, RecordHeader(r), r.body);
  }

  lemma HeaderIs(r: Record)
    ensures RecordHeader(r) == LE(PaddedSize(|r.body|), 2) + LE(r.kind, 2) + LE(r.flags, 4) + LE(r.address, 4)
              + Zeros(4)
  {
  }

  lemma FieldsStored(a: bytes, at: nat, size: bytes, kind: bytes, flags: bytes, address: bytes)
    requires |size| == 2 && |kind| == 2 && |flags| == 4 && |address| == 4 && at + 16 <= |a|
    requires forall i :: at <= i < |a| ==> a[i] == 0
    ensures Put(Put(Put(Put(a, at, size), at + 2, kind), at + 4, flags), at + 8, address) ==
            Put(a, at, size + kind + flags + address + Zeros(4))
  {
    hide Put;
    PutTwice(a, at, size, kind);
    PutTwice(a, at, size + kind, flags);
    PutTwice(a, at, size + kind + flags, address);
    ZerosStored(a, at, size + kind + flags + address, 4);
  }

  lemma ZerosStored(a: bytes, at: nat, x: bytes, n: nat)
    requires at + |x| + n <= |a| && forall i :: at <= i < |a| ==> a[i] == 0
    ensures Put(a, at, x + Zeros(n)) == Put(a, at, x)
  {
  }

  lemma PaddingStored(a: bytes, at: nat, header: bytes, body: bytes)
    requires at + |header| + PaddedSize(|body|) <= |a| && forall i :: at <= i < |a| ==> a[i] == 0
    ensures Put(a, at, header + body) == Put(a, at, header + Padded(body))
  {
    hide PaddedSize, Put, Padded;
    var n := PaddedZeros(body);
    assert header + Padded(body) == header + body + Zeros(n);
    ZerosStored(a, at, header + body, n);
  }

  lemma PutTwice(block: bytes, at: nat, x: bytes, y: bytes)
    requires at + |x| + |y| <= |block|
    ensures Put(Put(block, at, x), at + |x|, y) == Put(block, at, x + y)
  {
  }

  // ---- Blocks being filled ----

  lemma OpenBytesOfNone(l: Layout, number: nat, c: CurrentFile)
    requires ValidLayout(l)
    ensures At([]) == HeaderSize && Fits(l, []) && OpenBytes(l, number, c, []) == FreshBytes(l, number, c)
  {
    hide FreshBytes;
    assert AllRecordBytes(Recs([])) == [];
  }

  lemma FreshZero(l: Layout, number: nat, c: CurrentFile)
    requires ValidLayout(l)
    ensures forall i :: HeaderSize <= i < l.blockSize ==> FreshBytes(l, number, c)[i] == 0
  {
    hide Stamp, Label, Describe;
    var z := Zeros(l.blockSize);
    var b1 := Stamp(z, l.opSys, SubsystemBackup, ApplicationData, Number(number), Flags(l));
    var b2 := Label(b1, l.blockSize, l.name);
    StampFields(z, l.opSys, SubsystemBackup, ApplicationData, Number(number), Flags(l));
    LabelFields(b1, l.blockSize, l.name);
    DescribeFields(b2, c);
  }

  /**
   * A block being filled is zero after its records, and one more record put there makes it the block with that record.
   */
  lemma OpenBytesAppend(l: Layout, number: nat, c: CurrentFile, ts: seq<Tagged>, t: Tagged)
    requires ValidLayout(l) && At(ts) + |RecordBytes(t.rec)| <= l.blockSize
    ensures At(ts + [t]) == At(ts) + |RecordBytes(t.rec)|
    ensures forall i :: At(ts) <= i < l.blockSize ==> OpenBytes(l, number, c, ts)[i] == 0
    ensures Put(OpenBytes(l, number, c, ts), At(ts), RecordBytes(t.rec)) == OpenBytes(l, number, c, ts + [t])
  {
    hide FreshBytes, RecordBytes, AllWritable;
    AtAppend(ts, t);
    FreshZero(l, number, c);
    RecsAppend(ts, t);
    PutTwice(FreshBytes(l, number, c), HeaderSize, AllRecordBytes(Recs(ts)), RecordBytes(t.rec));
  }

  lemma RecsAppend(ts: seq<Tagged>, t: Tagged)
    ensures AllRecordBytes(Recs(ts + [t])) == AllRecordBytes(Recs(ts)) + RecordBytes(t.rec)
  {
    hide RecordBytes;
    assert Recs(ts + [t])[..|ts|] == Recs(ts);
  }

  lemma SlotsAppend(g: nat, blocks: seq<DataBlock>, b: DataBlock)
    ensures Slots(g, blocks + [b]) == Queue(g, Slots(g, blocks), b)
  {
    assert (blocks + [b])[..|blocks|] == blocks;
  }

  // ---- Files done ----

  function DoneOf(slot: Slot): seq<bytes> {
    if slot.Holds? then slot.block.done else []
  }

  /** The files reported once the blocks of slots are written. */
  function DoneNames(slots: seq<Slot>): seq<bytes> {
    if slots == [] then [] else DoneNames(slots[..|slots| - 1]) + DoneOf(slots[|slots| - 1])
  }

  lemma DoneNext(slots: seq<Slot>, n: nat)
    requires n < |slots|
    ensures DoneNames(slots[..n + 1]) == DoneNames(slots[..n]) + DoneOf(slots[n])
  {
    assert slots[..n + 1][..n] == slots[..n];
  }

  lemma {:induction false} DoneNamesAre(slots: seq<Slot>)
    ensures DoneNames(slots) == Dones(BlocksIn(slots))
  {
    if slots != [] {
      var front := slots[..|slots| - 1];
      DoneNamesAre(front);
      BlocksInAppend(front, slots[|slots| - 1]);
      if slots[|slots| - 1].Holds? {
        FlattenAppend(BlocksIn(front), slots[|slots| - 1].block);
      }
      assert front + [slots[|slots| - 1]] == slots;
    }
  }

  /** How many of n blocks no longer wait, with m buffers. */
  function Excess(n: nat, m: nat): nat {
    if n > m then n - m else 0
  }

  /** kept is how many blocks p's failure found no longer waiting. */
  predicate KeptFor(group: nat, buffers: nat, p: Packer, kept: nat) {
    p.stopped <= |p.closed| && kept == Excess(|Slots(group, p.closed[..p.stopped])|, buffers)
  }

  lemma EndKeeps(group: nat, buffers: nat, p: Packer, kept: nat)
    requires p.open.Some?
    ensures KeptFor(group, buffers, p, kept) ==> KeptFor(group, buffers, End(p), kept)
  {
    if p.stopped <= |p.closed| {
      assert End(p).closed[..p.stopped] == p.closed[..p.stopped];
    }
  }

  /** A block waiting in BACKUP's buffers, and the files whose last record is in it. */
  datatype Pending = Pending(data: bytes, done: seq<bytes>)

  class Writer {
    const l: Layout
    const buffers: nat

    var block: array?<byte>
    var at: nat
    var done: seq<bytes>
    var number: nat
    var current: CurrentFile
    var parity: array?<byte>
    var inGroup: nat
    var pending: seq<Pending>
    var failed: bool

    /** What has been written to out, a block at a time, and the names given to Saved. */
    var output: seq<bytes>
    var saved: seq<bytes>

    /** The writer's decisions, and the blocks queued, of which flushed have left the buffers and kept were written. */
    ghost var packer: Packer
    ghost var slots: seq<Slot>
    ghost var flushed: nat
    ghost var kept: nat

    /** A writer with nothing written. */
    constructor (l: Layout, buffers: nat)
      requires ValidLayout(l)
      ensures Valid() && packer == Packer([], None, NoFile, false, 0) && this.l == l && this.buffers == buffers
      ensures fresh(Owned())
    {
      this.l, this.buffers := l, buffers;
      block, parity, at, done, number, inGroup, current := null, null, HeaderSize, [], 0, 0, NoFile;
      pending, failed, output, saved := [], false, [], [];
      packer, slots, flushed, kept := Packer([], None, NoFile, false, 0), [], 0, 0;
    }

    ghost function Owned(): set<object>
      reads this
    {
      (if block != null then {block} else {}) + (if parity != null then {parity} else {})
    }

    /** The blocks queued so far. */
    ghost function Blocks(): seq<bytes>
      reads this`slots
      requires ValidLayout(l) && SlotsFit(l, slots)
    {
      Stream(l, slots)
    }

    /** What left the buffers was written, in order, and its files reported; the rest waits. */
    ghost predicate QueueValid()
      reads this`slots, this`kept, this`flushed, this`pending, this`output, this`failed, this`saved
    {
      && ValidLayout(l) && SlotsFit(l, slots) && kept <= flushed <= |slots| && |pending| == |slots| - flushed
      && output == Blocks()[..kept] && (!failed ==> kept == flushed) && saved == DoneNames(slots[..flushed])
      && forall i :: 0 <= i < |pending| ==> pending[i] == Pending(Blocks()[flushed + i], DoneOf(slots[flushed + i]))
    }

    /** The block being filled is what its records make it. */
    ghost predicate BlockValid()
      reads this`block, this`packer, this`number, this`slots, this`current, this`failed, this`done, this`at
      reads if block != null then {block} else {}
    {
      && ValidLayout(l) && (block == null <==> packer.open.None?)
      && number == |slots| + (if block != null then 1 else 0)
      && current == packer.current && failed == packer.failed
      && (block == null ==> done == [])
      && (block != null ==>
            var b := packer.open.value;
            && block.Length == l.blockSize && Fits(l, b.records) && at == At(b.records) && done == b.done
            && block[..] == OpenBytes(l, number, b.current, b.records))
    }

    /** The partial redundancy block is the exclusive or of the group's blocks so far. */
    ghost predicate ParityFor(queued: seq<Slot>)
      reads this`parity, this`inGroup
      reads if parity != null then {parity} else {}
    {
      && ValidLayout(l) && SlotsFit(l, queued) && inGroup <= |queued| && (parity == null <==> inGroup == 0)
      && (parity != null ==>
            var group := Stream(l, queued)[|queued| - inGroup..];
            parity.Length == l.blockSize && AllSized(group, l.blockSize) && parity[..] == XorAll(group, l.blockSize))
    }

    /** As many blocks wait as there are buffers for. */
    ghost predicate Holding()
      reads this`pending, this`slots
    {
      |pending| == if |slots| < buffers then |slots| else buffers
    }

    /** Once a record was too large no more is written: only what the buffers then could not hold. */
    ghost predicate KeptValid()
      reads this`failed, this`packer, this`kept
    {
      failed ==> KeptFor(l.group, buffers, packer, kept)
    }

    ghost predicate Valid()
      reads this, Owned()
    {
      && QueueValid() && BlockValid() && ParityFor(slots) && (block != null && parity != null ==> block != parity)
      && slots == Slots(l.group, packer.closed) && Holding() && KeptValid()
      && inGroup == if l.group == 0 then 0 else |slots| % (l.group + 1)
    }

    /** flush: writes the oldest held blocks until keep are left, and reports the files they finish. */
    method Flush(keep: nat)
      requires QueueValid()
      modifies this`pending, this`output, this`saved, this`flushed, this`kept
      ensures QueueValid() && |pending| == if old(|pending|) < keep then old(|pending|) else keep
      ensures failed ==> output == old(output) && kept == old(kept)
    {
      hide Stream, SlotsFit, DoneNames, DoneOf;
      while |pending| > keep
        invariant QueueValid() && |pending| >= if old(|pending|) < keep then old(|pending|) else keep
        invariant |pending| <= old(|pending|) && (failed ==> output == old(output) && kept == old(kept))
        decreases |pending|
      {
        var b := pending[0];
        DoneNext(slots, flushed);
        pending := pending[1..];
        if !failed {
          output := output + [b.data];
          kept := kept + 1;
        }
        saved := saved + b.done;
        flushed := flushed + 1;
      }
    }

    /** queue: holds a block in a buffer, writing the oldest when every buffer is in use. */
    method QueueBlock(data: bytes, names: seq<bytes>, ghost slot: Slot)
      requires QueueValid() && Holding() && SlotFits(l, slot)
      requires data == Render(l, Blocks(), slot) && names == DoneOf(slot)
      modifies this`pending, this`output, this`saved, this`flushed, this`kept, this`slots
      ensures QueueValid() && slots == old(slots) + [slot] && Holding() && (failed ==> kept == old(kept))
    {
      hide Stream, Render, SlotFits, DoneNames, DoneOf;
      ghost var before := slots;
      assert SlotsFit(l, slots + [slot]);
      StreamAppend(l, slots, slot);
      slots := slots + [slot];
      pending := pending + [Pending(data, names)];
      assert slots[..flushed] == before[..flushed];
      Flush(buffers);
    }

    /** endGroup: the redundancy block of the group so far. */
    method EndGroup()
      requires QueueValid() && ParityFor(slots) && Holding()
      requires parity != null && block != parity && number == |slots| && inGroup == |slots| % (l.group + 1)
      modifies this`parity, this`inGroup, this`number, this`pending, this`output, this`saved, this`flushed, this`kept,
                 this`slots
      modifies if parity != null then {parity} else {}
      ensures QueueValid() && slots == old(slots) + [Redundancy] && Holding() && (failed ==> kept == old(kept))
      ensures parity == null && inGroup == 0 && number == |slots|
    {
      hide Stream, Stamp, Seal, XorAll, SlotsFit, DoneNames, Flags;
      var b := parity;
      parity, inGroup := null, 0;
      number := number + 1;
      StoreStamp(b, l, ApplicationXOR, Number(number));
      SealBlock(b, l.crc);
      QueueBlock(b[..], [], Redundancy);
    }

    /** A null record closes the block, and it is sealed. */
    method CloseBlock(b: array<byte>, ghost d: DataBlock)
      requires ValidLayout(l) && b.Length == l.blockSize && Fits(l, d.records) && at == At(d.records)
      requires b[..] == OpenBytes(l, number, d.current, d.records)
      modifies b
      ensures b[..] == DataBytes(l, number, d)
    {
      hide OpenBytes, At, Seal, PutWord, AllWritable;
      StoreWord(b, at, l.blockSize - at - RecordHeaderSize);
      StoreWord(b, at + 2, RecordNull);
      SealBlock(b, l.crc);
    }

    /** The block just queued is added to its group. */
    method JoinGroup(data: bytes, ghost before: seq<Slot>, ghost d: DataBlock)
      requires QueueValid() && Holding() && slots == before + [Holds(d)] && ParityFor(before)
      requires SlotFits(l, Holds(d)) && data == Render(l, Stream(l, before), Holds(d))
      requires block == null && number == |slots|
      requires inGroup == if l.group == 0 then 0 else |before| % (l.group + 1)
      requires l.group > 0 ==> inGroup < l.group
      modifies this`parity, this`inGroup, this`number, this`pending, this`output, this`saved, this`flushed, this`kept,
                 this`slots
      modifies if parity != null then {parity} else {}
      ensures QueueValid() && ParityFor(slots) && Holding() && slots == Queue(l.group, before, d)
      ensures failed ==> kept == old(kept)
      ensures number == |slots| && inGroup == if l.group == 0 then 0 else |slots| % (l.group + 1)
      ensures parity != null && parity != old(parity) ==> fresh(parity)
    {
      hide Stream, XorAll, SlotsFit, SlotFits, DoneNames, AllSized, Render;
      GroupGrows(l, before, Holds(d), inGroup);
      if l.group == 0 {
        return;
      }
      NextMod(|before|, l.group + 1);
      NextMod(|before| + 1, l.group + 1);
      if parity == null {
        parity := new byte[l.blockSize](i => 0);
        assert parity[..] == Zeros(l.blockSize);
        XorNone(l, before);
      }
      XorInto(parity, data);
      inGroup := inGroup + 1;
      if inGroup == l.group {
        EndGroup();
      }
    }

    lemma Parts()
      requires Valid()
      ensures QueueValid() && BlockValid() && ParityFor(slots) && Holding() && KeptValid()
      ensures slots == Slots(l.group, packer.closed) && inGroup == if l.group == 0 then 0 else |slots| % (l.group + 1)
      ensures block != null && parity != null ==> block != parity
      ensures l.group > 0 ==> inGroup < l.group
    {
      hide QueueValid, BlockValid, ParityFor, Slots;
      SlotsGrouped(l.group, packer.closed);
    }

    lemma Whole()
      requires QueueValid() && BlockValid() && ParityFor(slots) && Holding() && KeptValid()
      requires slots == Slots(l.group, packer.closed) && inGroup == if l.group == 0 then 0 else |slots| % (l.group + 1)
      requires block != null && parity != null ==> block != parity
      ensures Valid()
    {
      hide QueueValid, BlockValid, ParityFor, Slots;
    }

    /** endBlock: the block being filled is closed, queued, and added to its group. */
    method EndCurrent()
      requires Valid() && block != null
      modifies this, Owned()
      ensures Valid() && packer == End(old(packer)) && block == null && fresh(Owned() - old(Owned()))
    {
      hide Valid, QueueValid, ParityFor, Stream, DataBytes, OpenBytes, At, XorAll, DoneNames, Slots, Fits, AllSized,
        Queue, KeptFor, Holding;
      Parts();
      var b := block;
      ghost var d := packer.open.value;
      CloseBlock(b, d);
      ghost var before := slots;
      var data := b[..];
      QueueFacts();
      QueueBlock(data, done, Holds(d));
      block, done := null, [];
      SlotsAppend(l.group, packer.closed, d);
      EndKeeps(l.group, buffers, packer, kept);
      packer := End(packer);
      JoinGroup(data, before, d);
      Whole();
    }

    /** room. */
    function RoomLeft(): (r: nat)
      reads this`block, this`at
    {
      var place := if block == null then HeaderSize else at;
      if l.blockSize >= place + 2 * RecordHeaderSize then l.blockSize - place - 2 * RecordHeaderSize else 0
    }

    lemma RoomIs()
      requires BlockValid()
      ensures RoomLeft() == Room(l, packer)
    {
      hide At, Fits, OpenBytes;
    }

    /** startBlock. */
    method StartBlock()
      requires Valid() && block == null
      modifies this`block, this`at, this`number, this`packer
      ensures Valid() && packer == Started(old(packer)) && fresh(block)
    {
      hide Valid, QueueValid, ParityFor, At, Fits, OpenBytes, Stamp, Label, Describe, Slots;
      Parts();
      var b := new byte[l.blockSize](i => 0);
      assert b[..] == Zeros(l.blockSize);
      at, number := HeaderSize, number + 1;
      StoreStamp(b, l, ApplicationData, Number(number));
      StoreLabel(b, l.blockSize, l.name);
      StoreDescription(b, current);
      OpenBytesOfNone(l, number, current);
      block := b;
      packer := Started(packer);
      Whole();
    }

    /** A record that fits goes into the block being filled. */
    method TakeRecord(r: Record, ghost owner: int)
      requires Valid() && block != null && r.kind != RecordNull
      requires at + 2 * RecordHeaderSize + PaddedSize(|r.body|) <= l.blockSize
      modifies this`at, this`packer, Owned()
      ensures Valid() && packer == Taken(old(packer), Tagged(owner, r)) && block == old(block) && parity == old(parity)
    {
      hide Valid, QueueValid, ParityFor, At, OpenBytes, Slots, PaddedSize, RecordBytes, AllWritable;
      Parts();
      ghost var d := packer.open.value;
      ghost var t := Tagged(owner, r);
      OpenBytesAppend(l, number, d.current, d.records, t);
      AtAppend(d.records, t);
      StoreRecord(block, at, r);
      at := at + RecordHeaderSize + PaddedSize(|r.body|);
      packer := Taken(packer, t);
      Whole();
    }

    /** A record is larger than a save set block. */
    method Fail()
      requires Valid()
      modifies this`failed, this`packer
      ensures Valid() && packer == Failing(old(packer))
    {
      hide Stream, SlotsFit, Slots, OpenBytes, At, Fits, XorAll, DoneNames;
      assert packer.closed[..|packer.closed|] == packer.closed;
      failed := true;
      packer := Failing(packer);
    }

    /** put. */
    method Put(r: Record, ghost owner: int)
      requires Valid() && r.kind != RecordNull && r.body != []
      modifies this, Owned()
      ensures Valid() && packer == PutRecord(l, old(packer), Tagged(owner, r)) && block != null
      ensures fresh(Owned() - old(Owned()))
    {
      hide Valid, QueueValid, ParityFor, BlockValid, At, Slots, PaddedSize, Room, Fits;
      ghost var p := packer;
      var size := PaddedSize(|r.body|);
      PaddedPositive(|r.body|);
      Parts();
      RoomIs();
      OpenIs();
      if block != null && size > RoomLeft() {
        EndCurrent();
      }
      Parts();
      OpenIs();
      if block == null {
        StartBlock();
      }
      assert packer == Started(if p.open.Some? && size > Room(l, p) then End(p) else p);
      Parts();
      RoomIs();
      if size > RoomLeft() {
        Fail();
        return;
      }
      TakeRecord(r, owner);
    }

    /** The file just added is done in the block its last record is in. */
    method Finish(name: bytes)
      requires Valid() && block != null
      modifies this`done, this`packer
      ensures Valid() && packer == Finished(old(packer), name)
    {
      hide Stream, SlotsFit, Slots, OpenBytes, At, Fits, XorAll, DoneNames;
      done := done + [name];
      packer := Finished(packer, name);
    }

    method SetCurrent(c: CurrentFile)
      requires Valid()
      modifies this`current, this`packer
      ensures Valid() && packer == old(packer).(current := c)
    {
      hide Stream, SlotsFit, Slots, OpenBytes, At, Fits, XorAll, DoneNames;
      current := c;
      packer := packer.(current := c);
    }

    /** Add: one file's attributes, then its data. */
    method Add(e: Entry, ghost owner: int)
      requires Valid()
      modifies this, Owned()
      ensures Valid() && packer == Packing.Add(l, old(packer), owner, e) && fresh(Owned() - old(Owned()))
    {
      hide Valid, PutRecord, CurrentOf, Packing.Whole, FileRecord, Finished, AddData;
      FailedIs();
      if failed {
        return;
      }
      SetCurrent(CurrentOf(e.attrs));
      EncodedSome(FileList(e.attrs));
      FileRecordKind(e);
      Put(FileRecord(e), owner);
      AddRuns(e.flags, Packing.Whole(e.data), owner);
      Finish(e.attrs.name);
    }

    /** Add's loop: as much data at a time as the block has room for. */
    method AddRuns(flags: uint32, whole: bytes, ghost owner: int)
      requires Valid() && block != null && |whole| % VBNSize == 0
      modifies this, Owned()
      ensures Valid() && packer == AddData(l, old(packer), owner, flags, 1, whole) && block != null
      ensures fresh(Owned() - old(Owned()))
    {
      hide Valid, QueueValid, ParityFor, BlockValid, PutRecord, Room, AddData, RunOf, Number;
      var data := whole;
      var vbn: nat := 1;
      FailedIs();
      while data != [] && !failed
        invariant Valid() && fresh(Owned() - old(Owned())) && failed == packer.failed
        invariant |data| % VBNSize == 0 && (block == null ==> data != [] && !failed)
        invariant AddData(l, old(packer), owner, flags, 1, whole) == AddData(l, packer, owner, flags, vbn, data)
        decreases |data|, if block != null then 1 else 0
      {
        Parts();
        RoomIs();
        OpenIs();
        AddTurn(l, packer, owner, flags, vbn, data);
        var blocks := RoomLeft() / VBNSize;
        if blocks == 0 {
          RoomInFresh(l, packer);
          EndCurrent();
        } else {
          var n := if blocks * VBNSize < |data| then blocks * VBNSize else |data|;
          RunIs(l, packer, data, n);
          Put(Record(RecordVBN, flags, Number(vbn), data[..n]), owner);
          vbn := vbn + n / VBNSize;
          data := data[n..];
        }
        FailedIs();
      }
      AddDataDone(l, packer, owner, flags, vbn, data);
    }

    lemma FailedIs()
      requires Valid()
      ensures failed == packer.failed && ValidLayout(l)
    {
    }

    /** EndBlock. */
    method EndBlock()
      requires Valid()
      modifies this, Owned()
      ensures Valid() && fresh(Owned() - old(Owned()))
      ensures packer == if old(packer).open.Some? then End(old(packer)) else old(packer)
    {
      hide Valid, QueueValid, ParityFor, BlockValid;
      Parts();
      OpenIs();
      if block != null {
        EndCurrent();
      }
    }

    /** Close: ends the last block and its group, and writes every block still held. */
    method Close()
      requires Valid()
      modifies this, Owned()
      ensures slots == SaveSetSlots(l.group, BlocksOf(old(packer))) && ValidLayout(l) && SlotsFit(l, slots)
      ensures failed == old(packer).failed && saved == DoneNames(slots) && pending == []
      ensures kept <= |slots| && output == Blocks()[..kept] && (!failed ==> kept == |slots|)
      ensures failed ==> old(packer).stopped <= |BlocksOf(old(packer))|
                         && kept == Excess(|Slots(l.group, BlocksOf(old(packer))[..old(packer).stopped])|, buffers)
    {
      hide Valid, QueueValid, ParityFor, BlockValid, Slots, DoneNames, Stream, SlotsFit;
      ghost var p := packer;
      EndBlock();
      FailedIs();
      Parts();
      OpenIs();
      ClosedIs();
      assert packer.closed == BlocksOf(p);
      if inGroup > 0 {
        ParityIs();
        EndGroup();
      }
      Flush(0);
      Flushed();
    }

    lemma ClosedIs()
      requires BlockValid()
      ensures block == null ==> number == |slots|
    {
      hide OpenBytes, At, Fits;
    }

    lemma ParityIs()
      requires ParityFor(slots)
      ensures parity == null <==> inGroup == 0
    {
      hide Stream, XorAll, SlotsFit;
    }

    lemma Flushed()
      requires QueueValid() && pending == []
      ensures ValidLayout(l) && SlotsFit(l, slots) && saved == DoneNames(slots)
      ensures kept <= |slots| && output == Blocks()[..kept] && (!failed ==> kept == |slots|)
    {
      hide Stream, SlotsFit, DoneNames;
      assert slots[..|slots|] == slots;
    }

    lemma OpenIs()
      requires BlockValid()
      ensures block == null <==> packer.open.None?
    {
    }

    lemma QueueFacts()
      requires QueueValid()
      ensures ValidLayout(l) && SlotsFit(l, slots)
    {
    }
  }

  lemma AddTurn(l: Layout, p: Packer, owner: int, flags: uint32, vbn: nat, data: bytes)
    requires ValidLayout(l) && !p.failed && data != []
    ensures Room(l, p) / VBNSize == 0 ==>
              p.open.Some? && AddData(l, p, owner, flags, vbn, data) == AddData(l, End(p), owner, flags, vbn, data)
    ensures Room(l, p) / VBNSize != 0 ==>
              var n := RunOf(l, p, data);
              n <= |data| && AddData(l, p, owner, flags, vbn, data) ==
              AddData(l, PutRecord(l, p, Tagged(owner, Record(RecordVBN, flags, Number(vbn), data[..n]))), owner, flags,
                      vbn + n / VBNSize, data[n..])
  {
    hide PutRecord, Number;
  }

  lemma RunIs(l: Layout, p: Packer, data: bytes, n: nat)
    requires ValidLayout(l) && data != [] && |data| % VBNSize == 0 && Room(l, p) / VBNSize != 0
    requires var whole := Room(l, p) / VBNSize * VBNSize; n == if whole < |data| then whole else |data|
    ensures n == RunOf(l, p, data) && 0 < n <= |data| && (|data| - n) % VBNSize == 0
  {
    hide Room;
  }

  lemma AddDataDone(l: Layout, p: Packer, owner: int, flags: uint32, vbn: nat, data: bytes)
    requires ValidLayout(l) && (data == [] || p.failed)
    ensures AddData(l, p, owner, flags, vbn, data) == p
  {
  }

  lemma FileRecordKind(e: Entry)
    ensures FileRecord(e).kind != RecordNull && FileRecord(e).body == EncodeAttributes(e.attrs)
  {
  }

  lemma XorNone(l: Layout, slots: seq<Slot>)
    requires ValidLayout(l) && SlotsFit(l, slots)
    ensures XorAll(Stream(l, slots)[|slots|..], l.blockSize) == Zeros(l.blockSize)
  {
    hide Stream;
    assert Stream(l, slots)[|slots|..] == [];
  }

  /** The group's exclusive or takes in the block queued. */
  lemma GroupGrows(l: Layout, slots: seq<Slot>, slot: Slot, n: nat)
    requires ValidLayout(l) && SlotsFit(l, slots) && SlotFits(l, slot) && n <= |slots|
    ensures SlotsFit(l, slots + [slot])
    ensures var s := Stream(l, slots);
            var s' := Stream(l, slots + [slot]);
            && s' == s + [Render(l, s, slot)] && AllSized(s[|slots| - n..], l.blockSize)
            && AllSized(s'[|slots| - n..], l.blockSize)
            && XorAll(s'[|slots| - n..], l.blockSize) == Xor(XorAll(s[|slots| - n..], l.blockSize), Render(l, s, slot))
  {
    hide Stream, Render, SlotFits, XorAll;
    assert SlotsFit(l, slots + [slot]);
    StreamAppend(l, slots, slot);
    var s := Stream(l, slots);
    XorAllAppend(s[|slots| - n..], Render(l, s, slot), l.blockSize);
    assert (s + [Render(l, s, slot)])[|slots| - n..] == s[|slots| - n..] + [Render(l, s, slot)];
  }
}
