/** Reading a save set: rebuilding damaged blocks from their groups, and putting the files back together. */
module Reading {
  import opened Bytes
  import opened Crc
  import opened Blocks
  import opened AttributeLists
  import opened SaveSetStream
  import opened Groups

  datatype Run = Run(vbn: uint32, data: bytes)

  datatype File = File(attrs: Attributes, flags: uint32, runs: seq<Run>)

  ghost predicate AllHeaded(blocks: seq<bytes>) {
    forall i :: 0 <= i < |blocks| ==> |blocks[i]| >= HeaderSize
  }

  function Application(block: bytes): uint16
    requires |block| >= HeaderSize
  {
    Word(block, 6)
  }

  // ---- Repair ----

  function BadFrom(blocks: seq<bytes>, checkCRC: bool, i: nat): (bad: seq<nat>)
    requires AllHeaded(blocks) && i <= |blocks|
    ensures forall k :: 0 <= k < |bad| ==> i <= bad[k] < |blocks|
    decreases |blocks| - i
  {
    if i == |blocks| then []
    else if Intact(blocks[i], checkCRC) then BadFrom(blocks, checkCRC, i + 1)
    else [i] + BadFrom(blocks, checkCRC, i + 1)
  }

  /** The first intact redundancy block from i on; 0 if there is none. */
  function FirstParity(blocks: seq<bytes>, checkCRC: bool, i: nat): nat
    requires AllHeaded(blocks) && i <= |blocks|
    decreases |blocks| - i
  {
    if i == |blocks| then 0
    else if Intact(blocks[i], checkCRC) && Application(blocks[i]) == ApplicationXOR then i
    else FirstParity(blocks, checkCRC, i + 1)
  }

  function FirstRecord(block: bytes): Option<Record>
    requires |block| >= HeaderSize
  {
    var records := RecordsFrom(block, HeaderSize).records;
    if records == [] then None else Some(records[0])
  }

  /** groupSize. */
  function GroupSize(blocks: seq<bytes>, checkCRC: bool): nat
    requires AllHeaded(blocks) && blocks != []
  {
    var r := FirstRecord(blocks[0]);
    if Intact(blocks[0], checkCRC) && r.Some? && r.value.kind == RecordSummary then
      ParseSummary(r.value.body).summary.groupSize
    else FirstParity(blocks, checkCRC, 0)
  }

  /** What rebuild does about a damaged block: nothing possible, nothing needed, or a new block. */
  datatype Outcome = Hopeless | Harmless | Restored(block: bytes)

  predicate OthersIntact(blocks: seq<bytes>, start: nat, xor: nat, i: nat, checkCRC: bool)
    requires AllHeaded(blocks) && xor < |blocks|
  {
    forall j :: start <= j <= xor && j != i ==> Intact(blocks[j], checkCRC)
  }

  function Others(blocks: seq<bytes>, start: nat, xor: nat, i: nat): seq<bytes>
    requires start <= i < xor < |blocks|
  {
    blocks[start..i] + blocks[i + 1..xor + 1]
  }

  function Rebuild(blocks: seq<bytes>, size: nat, i: nat, group: nat, checkCRC: bool): (r: Outcome)
    requires size >= HeaderSize && AllSized(blocks, size) && i < |blocks|
    ensures r.Restored? ==> |r.block| == size
  {
    if group == 0 then Hopeless
    else
      var start, xor := GroupStart(group, i), GroupEnd(group, i, |blocks|);
      if i == xor || Application(blocks[i]) == ApplicationXOR then Harmless
      else if !Intact(blocks[xor], checkCRC) || Application(blocks[xor]) != ApplicationXOR then Hopeless
      else if !OthersIntact(blocks, start, xor, i, checkCRC) then Hopeless
      else
        InGroup(group, i, |blocks|);
        Restored(Rebuilt(XorAll(Others(blocks, start, xor, i), size), blocks[xor], i + 1))
  }

  lemma InGroup(group: nat, i: nat, n: nat)
    requires group > 0 && i < n
    ensures GroupStart(group, i) <= i <= GroupEnd(group, i, n) < n
  {
    StartOf(i, group + 1);
  }

  /** The blocks, the numbers of those rebuilt, and of those that could not be. */
  datatype Repairing = Repairing(blocks: seq<bytes>, recovered: seq<nat>, lost: seq<nat>)

  function RepairOne(r: Repairing, size: nat, i: nat, group: nat, checkCRC: bool): (r': Repairing)
    requires size >= HeaderSize && AllSized(r.blocks, size) && i < |r.blocks|
    ensures |r'.blocks| == |r.blocks| && AllSized(r'.blocks, size)
  {
    hide Rebuild;
    match Rebuild(r.blocks, size, i, group, checkCRC)
    case Hopeless => r.(lost := r.lost + [i + 1])
    case Harmless => r
    case Restored(b) => r.(blocks := r.blocks[i := b], recovered := r.recovered + [i + 1])
  }

  /** The bad blocks taken in turn. */
  function RepairEach(r: Repairing, size: nat, bad: seq<nat>, group: nat, checkCRC: bool): (r': Repairing)
    requires size >= HeaderSize && AllSized(r.blocks, size)
    requires forall k :: 0 <= k < |bad| ==> bad[k] < |r.blocks|
    ensures |r'.blocks| == |r.blocks| && AllSized(r'.blocks, size)
  {
    hide RepairOne;
    if bad == [] then r
    else RepairOne(RepairEach(r, size, bad[..|bad| - 1], group, checkCRC), size, bad[|bad| - 1], group, checkCRC)
  }

  /** repair. */
  function Repair(blocks: seq<bytes>, size: nat, checkCRC: bool): (r: Repairing)
    requires size >= HeaderSize && AllSized(blocks, size) && blocks != []
    ensures |r.blocks| == |blocks| && AllSized(r.blocks, size)
  {
    var bad := BadFrom(blocks, checkCRC, 0);
    var r := Repairing(blocks, [], []);
    if bad == [] then r else RepairEach(r, size, bad, GroupSize(blocks, checkCRC), checkCRC)
  }

  // ---- Decode ----

  /** The files so far, whether the last is still being read, whether the block before was lost, and the summary. */
  datatype Decoding = Decoding(files: seq<File>, reading: bool, lastLost: bool, summary: Summary)

  predicate DecodingSound(d: Decoding) {
    d.reading ==> d.files != []
  }

  function LastFile(d: Decoding): File
    requires d.files != []
  {
    d.files[|d.files| - 1]
  }

  function AddRun(d: Decoding, run: Run): Decoding
    requires d.files != []
  {
    var f := LastFile(d);
    d.(files := d.files[..|d.files| - 1] + [f.(runs := f.runs + [run])])
  }

  /** One record of block i, its n-th; nothing if it cannot be parsed. */
  function TakeRecord(d: Decoding, i: nat, n: nat, r: Record): (res: Option<Decoding>)
    requires DecodingSound(d)
    ensures res.Some? ==> DecodingSound(res.value)
  {
    if r.kind == RecordSummary then
      if i == 0 && n == 0 then
        var p := ParseSummary(r.body);
        if p.ok then Some(d.(summary := p.summary)) else None
      else Some(d)
    else if r.kind == RecordFile then
      var p := ParseAttributes(r.body);
      if p.ok then Some(d.(files := d.files + [File(p.attrs, r.flags, [])], reading := true)) else None
    else if r.kind == RecordVBN && d.reading && r.address > 0 then Some(AddRun(d, Run(r.address, r.body)))
    else Some(d)
  }

  function TakeRecords(d: Decoding, i: nat, records: seq<Record>): (res: Option<Decoding>)
    requires DecodingSound(d)
    ensures res.Some? ==> DecodingSound(res.value)
  {
    if records == [] then Some(d)
    else
      var front := TakeRecords(d, i, records[..|records| - 1]);
      if front.None? then None else TakeRecord(front.value, i, |records| - 1, records[|records| - 1])
  }

  /** After a lost block, the file being read goes on only if the block's header names it. */
  function Resume(d: Decoding, name: bytes): (r: Decoding)
    requires DecodingSound(d)
    ensures DecodingSound(r)
  {
    var gone := d.lastLost && d.reading && name != LastFile(d).attrs.name;
    d.(reading := d.reading && !gone, lastLost := false)
  }

  function TakeBlock(d: Decoding, i: nat, block: bytes, lost: bool): (res: Option<Decoding>)
    requires DecodingSound(d) && |block| >= HeaderSize
    ensures res.Some? ==> DecodingSound(res.value)
  {
    if lost then Some(d.(lastLost := true))
    else if Application(block) != ApplicationData then Some(d)
    else
      var p := RecordsFrom(block, HeaderSize);
      var r := TakeRecords(Resume(d, ParseCurrent(block).name), i, p.records);
      if !p.ok || r.None? || (i == 0 && (p.records == [] || p.records[0].kind != RecordSummary)) then None else r
  }

  function TakeBlocks(blocks: seq<bytes>, lost: seq<nat>): (res: Option<Decoding>)
    requires AllHeaded(blocks)
    ensures res.Some? ==> DecodingSound(res.value)
  {
    if blocks == [] then Some(Decoding([], false, false, EmptySummary))
    else
      var n := |blocks| - 1;
      var front := TakeBlocks(blocks[..n], lost);
      if front.None? then None else TakeBlock(front.value, n, blocks[n], n + 1 in lost)
  }

  /** decode: nothing if the save set is not one. */
  function Decode(blocks: seq<bytes>, lost: seq<nat>): Option<Decoding>
    requires AllHeaded(blocks)
  {
    if 1 in lost then None else TakeBlocks(blocks, lost)
  }

  // ---- The whole read ----

  datatype SaveSet = SaveSet(blockSize: nat, blocks: nat, summary: Summary, files: seq<File>, recovered: seq<nat>,
                             lost: seq<nat>)

  predicate Plausible(header: bytes)
    requires |header| >= HeaderSize
  {
    && Word(header, 0) == HeaderSize && Word(header, 4) == SubsystemBackup
    && MinBlockSize <= Long(header, 40) <= MaxBlockSize
  }

  /** The whole blocks of an image; a partial one at the end is ignored. */
  function Chop(image: bytes, size: nat): (blocks: seq<bytes>)
    requires size > 0
    ensures AllSized(blocks, size)
    decreases |image|
  {
    if |image| < size then [] else [image[..size]] + Chop(image[size..], size)
  }

  /** Read: nothing for what is not a save set. */
  function Read(image: bytes, checkCRC: bool): Option<SaveSet> {
    if |image| < HeaderSize || !Plausible(image[..HeaderSize]) then None
    else
      var size: nat := Long(image[..HeaderSize], 40);
      var blocks := Chop(image, size);
      if blocks == [] then None
      else
        var r := Repair(blocks, size, checkCRC);
        var d := Decode(r.blocks, r.lost);
        if d.None? then None
        else Some(SaveSet(size, |blocks|, d.value.summary, d.value.files, r.recovered, r.lost))
  }
}
