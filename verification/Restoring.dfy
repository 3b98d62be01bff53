/** What decode makes of a save set some of whose blocks are lost: exactly the files, and the data, that are left. */
module Restoring {
  import opened Bytes
  import opened Crc
  import opened Blocks
  import opened AttributeLists
  import opened SaveSetStream
  import opened Groups
  import opened Packing
  import opened Reading

  // ---- What is left of a save set's records ----

  /** The files whose attribute records are among ts, in order. */
  function Survivors(ts: seq<Tagged>): seq<int> {
    if ts == [] then []
    else
      var t := ts[|ts| - 1];
      if t.rec.kind == RecordFile then Survivors(ts[..|ts| - 1]) + [t.owner] else Survivors(ts[..|ts| - 1])
  }

  /** The data records among ts written for a file, in order. */
  function Runs(ts: seq<Tagged>, owner: int): seq<Run> {
    if ts == [] then []
    else
      var t := ts[|ts| - 1];
      if t.rec.kind == RecordVBN && t.owner == owner then Runs(ts[..|ts| - 1], owner) + [Run(t.rec.address, t.rec.body)]
      else Runs(ts[..|ts| - 1], owner)
  }

  function FileOf(e: Entry, runs: seq<Run>): File {
    File(Kept(e.attrs), e.flags, runs)
  }

  predicate InRange(files: seq<Entry>, owners: seq<int>) {
    forall j :: 0 <= j < |owners| ==> 0 <= owners[j] < |files|
  }

  predicate Increasing(owners: seq<int>) {
    forall j, k :: 0 <= j < k < |owners| ==> owners[j] < owners[k]
  }

  /** The files of owners, each with the data among ts written for it. */
  function FilesOf(files: seq<Entry>, owners: seq<int>, ts: seq<Tagged>): (r: seq<File>)
    requires InRange(files, owners)
    ensures |r| == |owners|
  {
    seq(|owners|, j requires 0 <= j < |owners| => FileOf(files[owners[j]], Runs(ts, owners[j])))
  }

  lemma SurvivorsAppend(ts: seq<Tagged>, t: Tagged)
    ensures Survivors(ts + [t]) == if t.rec.kind == RecordFile then Survivors(ts) + [t.owner] else Survivors(ts)
  {
    assert (ts + [t])[..|ts|] == ts;
  }

  lemma RunsAppend(ts: seq<Tagged>, t: Tagged, owner: int)
    ensures Runs(ts + [t], owner) ==
            if t.rec.kind == RecordVBN && t.owner == owner then Runs(ts, owner) + [Run(t.rec.address, t.rec.body)]
            else Runs(ts, owner)
  {
    assert (ts + [t])[..|ts|] == ts;
  }

  // ---- One record after another ----

  /** Fewer virtual blocks than a virtual block number can count. */
  predicate Countable(e: Entry) {
    |Whole(e.data)| / VBNSize < 0xFFFF_FFFF
  }

  predicate AllCountable(files: seq<Entry>) {
    forall i :: 0 <= i < |files| ==> Countable(files[i])
  }

  /** t is a record of e's data, from the virtual block its address names. */
  predicate HoldsData(t: Tagged, e: Entry) {
    t.rec.address > 0 && DataRecord(t, e, (t.rec.address - 1) * VBNSize)
  }

  /** t may follow a record of owner's. */
  predicate MayFollow(files: seq<Entry>, t: Tagged, owner: int) {
    && 0 <= t.owner < |files|
    && if t.rec.kind == RecordFile then t.owner == owner + 1 && t.rec == FileRecord(files[t.owner])
       else t.owner == owner && HoldsData(t, files[owner])
  }

  predicate Chained(s: Summary, files: seq<Entry>, ts: seq<Tagged>) {
    && (ts != [] ==> ts[0] == Tagged(-1, SummaryRecord(s)))
    && forall k :: 0 < k < |ts| ==> MayFollow(files, ts[k], ts[k - 1].owner)
  }

  lemma AddressOf(from: nat)
    requires from % VBNSize == 0 && from / VBNSize < 0xFFFF_FFFF
    ensures Number(from / VBNSize + 1) == from / VBNSize + 1 > 0 && (from / VBNSize + 1 - 1) * VBNSize == from
  {
  }

  /** The records a writer packs follow one another as they may. */
  lemma {:induction false} FedChained(ts: seq<Tagged>, s: Summary, files: seq<Entry>, n: nat, at: nat)
    requires Fed(ts, s, files, n, at) && AllCountable(files)
    ensures Chained(s, files, ts)
    decreases |ts|
  {
    hide FileRecord, SummaryRecord, DataRecord, HoldsData, Whole;
    var front, t := ts[..|ts| - 1], ts[|ts| - 1];
    if front != [] {
      if t.rec.kind == RecordFile {
        FedChained(front, s, files, n - 1, Total(files, n - 1));
      } else {
        FedChained(front, s, files, n, at - |t.rec.body|);
        DataHeld(t, files[n - 1], at - |t.rec.body|);
      }
      LastOwner(front, s, files, if t.rec.kind == RecordFile then n - 1
        else n, if t.rec.kind == RecordFile then Total(files, n - 1) else at - |t.rec.body|);
    }
  }

  lemma LastOwner(ts: seq<Tagged>, s: Summary, files: seq<Entry>, n: nat, at: nat)
    requires Fed(ts, s, files, n, at)
    ensures ts != [] && ts[|ts| - 1].owner == n - 1
  {
  }

  lemma DataHeld(t: Tagged, e: Entry, from: nat)
    requires DataRecord(t, e, from) && Countable(e)
    ensures HoldsData(t, e)
  {
    hide Whole, Number;
    AddressOf(from);
  }

  // ---- Decoding a record ----

  /** What has been decoded of the records kept, up to one of owner's. */
  predicate Decoded(files: seq<Entry>, kept: seq<Tagged>, owner: int, d: Decoding) {
    var s := Survivors(kept);
    && InRange(files, s) && Increasing(s) && (s != [] ==> s[|s| - 1] <= owner)
    && d.files == FilesOf(files, s, kept)
  }

  /** The file being read is the last to survive, when that is owner. */
  predicate InStep(kept: seq<Tagged>, owner: int, d: Decoding) {
    var s := Survivors(kept);
    d.reading <==> s != [] && s[|s| - 1] == owner
  }

  lemma FilesOfAppend(files: seq<Entry>, kept: seq<Tagged>, t: Tagged)
    requires InRange(files, Survivors(kept)) && t.rec.kind == RecordFile && 0 <= t.owner < |files|
    requires forall o :: Runs(kept, t.owner) == [] && Runs(kept + [t], o) == Runs(kept, o)
    ensures InRange(files, Survivors(kept + [t]))
    ensures FilesOf(files, Survivors(kept + [t]), kept + [t]) ==
            FilesOf(files, Survivors(kept), kept) + [FileOf(files[t.owner], [])]
  {
    hide Survivors, Runs, FileOf;
    SurvivorsAppend(kept, t);
  }

  /** No run is kept of a file not yet reached. */
  predicate NoneBeyond(kept: seq<Tagged>, owner: int) {
    forall k :: 0 <= k < |kept| ==> kept[k].owner <= owner
  }

  lemma {:induction false} NoRunsBeyond(kept: seq<Tagged>, owner: int, o: int)
    requires NoneBeyond(kept, owner) && owner < o
    ensures Runs(kept, o) == []
  {
    if kept != [] {
      NoRunsBeyond(kept[..|kept| - 1], owner, o);
    }
  }

  lemma FileTaken(files: seq<Entry>, kept: seq<Tagged>, owner: int, d: Decoding, t: Tagged, i: nat, n: nat)
    requires DecodingSound(d) && Decoded(files, kept, owner, d) && NoneBeyond(kept, owner)
    requires MayFollow(files, t, owner) && t.rec.kind == RecordFile && Writable(t.rec)
    ensures var r := TakeRecord(d, i, n, PaddedRecord(t.rec));
            && r.Some? && Decoded(files, kept + [t], t.owner, r.value) && InStep(kept + [t], t.owner, r.value)
            && r.value.summary == d.summary && !r.value.lastLost == !d.lastLost
  {
    hide ParseAttributes, EncodeAttributes, Survivors, Runs, FilesOf, Padded, PaddedSize, InRange, Increasing;
    var e := files[t.owner];
    FileParses(e);
    SurvivorsAppend(kept, t);
    forall o
      ensures Runs(kept, t.owner) == [] && Runs(kept + [t], o) == Runs(kept, o)
    {
      RunsAppend(kept, t, o);
      NoRunsBeyond(kept, owner, t.owner);
    }
    FilesOfAppend(files, kept, t);
    StillIncreasing(Survivors(kept), t.owner);
  }

  lemma StillIncreasing(s: seq<int>, o: int)
    requires Increasing(s) && (s != [] ==> s[|s| - 1] < o)
    ensures Increasing(s + [o])
  {
  }

  lemma FileParses(e: Entry)
    requires Writable(FileRecord(e))
    ensures ParseAttributes(Padded(EncodeAttributes(e.attrs))) == ParsedAttributes(Kept(e.attrs), true)
  {
    hide ParseAttributes, Encode, FileList, PaddedSize, Padded, Kept;
    var n := PaddedZeros(EncodeAttributes(e.attrs));
    ListableFile(e.attrs);
    AttributesRoundTrip(e.attrs, n);
  }

  lemma DataTaken(files: seq<Entry>, kept: seq<Tagged>, owner: int, d: Decoding, t: Tagged, i: nat, n: nat)
    requires DecodingSound(d) && Decoded(files, kept, owner, d) && InStep(kept, owner, d)
    requires MayFollow(files, t, owner) && t.rec.kind != RecordFile
    ensures var r := TakeRecord(d, i, n, PaddedRecord(t.rec));
            && r.Some? && Decoded(files, kept + [t], t.owner, r.value) && InStep(kept + [t], t.owner, r.value)
            && r.value.summary == d.summary && r.value.lastLost == d.lastLost
  {
    hide Survivors, Runs, Whole, FilesOf, InRange, Increasing;
    WholeBody(t.rec.body);
    SurvivorsAppend(kept, t);
    RunGoesOn(files, kept, d, t);
  }

  lemma WholeBody(body: bytes)
    requires |body| % VBNSize == 0
    ensures Padded(body) == body
  {
    WholePads(|body|);
    hide PaddedSize;
  }

  lemma WholePads(n: nat)
    requires n % VBNSize == 0
    ensures PaddedSize(n) == n
  {
    var k := n / VBNSize;
    assert n == 512 * k && (n + 15) / 16 == 32 * k;
  }

  lemma RunGoesOn(files: seq<Entry>, kept: seq<Tagged>, d: Decoding, t: Tagged)
    requires var s := Survivors(kept);
             && InRange(files, s) && Increasing(s) && d.files == FilesOf(files, s, kept)
             && (s != [] ==> s[|s| - 1] <= t.owner) && (d.reading <==> s != [] && s[|s| - 1] == t.owner)
    requires t.rec.kind == RecordVBN
    ensures InRange(files, Survivors(kept)) && DecodingSound(d)
    ensures FilesOf(files, Survivors(kept), kept + [t]) ==
            if d.reading then AddRun(d, Run(t.rec.address, t.rec.body)).files else d.files
  {
    hide Survivors, Runs, FileOf;
    var s := Survivors(kept);
    forall j | 0 <= j < |s|
      ensures Runs(kept + [t], s[j]) ==
              if d.reading && j == |s| - 1 then Runs(kept, s[j]) + [Run(t.rec.address, t.rec.body)]
              else Runs(kept, s[j])
    {
      RunsAppend(kept, t, s[j]);
    }
    FilesGoOn(files, s, kept, d, t);
  }

  lemma FilesGoOn(files: seq<Entry>, s: seq<int>, kept: seq<Tagged>, d: Decoding, t: Tagged)
    requires InRange(files, s) && d.files == FilesOf(files, s, kept) && (d.reading ==> s != [])
    requires forall j :: 0 <= j < |s| ==>
               Runs(kept + [t], s[j]) ==
               if d.reading && j == |s| - 1 then Runs(kept, s[j]) + [Run(t.rec.address, t.rec.body)]
               else Runs(kept, s[j])
    ensures DecodingSound(d)
    ensures FilesOf(files, s, kept + [t]) ==
            if d.reading then AddRun(d, Run(t.rec.address, t.rec.body)).files else d.files
  {
    hide Runs, FileOf, AddRun;
    var x := FilesOf(files, s, kept + [t]);
    assert |x| == |d.files| == |s|;
    forall j | 0 <= j < |s|
      ensures x[j] == FileOf(files[s[j]], Runs(kept + [t], s[j])) && d.files[j] == FileOf(files[s[j]], Runs(kept, s[j]))
    {
    }
    hide FilesOf;
    if d.reading {
      var n := |s| - 1;
      RunAdded(d, Run(t.rec.address, t.rec.body), files[s[n]], Runs(kept, s[n]));
    }
  }

  lemma RunAdded(d: Decoding, run: Run, e: Entry, runs: seq<Run>)
    requires DecodingSound(d) && d.files != [] && LastFile(d) == FileOf(e, runs)
    ensures AddRun(d, run).files == d.files[..|d.files| - 1] + [FileOf(e, runs + [run])]
  {
    hide Kept;
  }

  // ---- Decoding a block ----

  /** All that decoding keeps between the records of a block. */
  predicate Follows(files: seq<Entry>, kept: seq<Tagged>, owner: int, d: Decoding) {
    DecodingSound(d) && Decoded(files, kept, owner, d) && InStep(kept, owner, d) && NoneBeyond(kept, owner)
  }

  /** t may follow a record of owner's, or begin the save set. */
  predicate MayLead(s: Summary, files: seq<Entry>, t: Tagged, owner: int, i: nat) {
    if t.rec.kind == RecordSummary then i == 0 && owner == -1 && t == Tagged(-1, SummaryRecord(s))
    else MayFollow(files, t, owner)
  }

  /** What a save set keeps of its summary. */
  function KeptSummary(s: Summary): Summary {
    s.(userName := Blanked(s.userName), list := SummaryList(s))
  }

  lemma BeyondAppend(kept: seq<Tagged>, owner: int, t: Tagged)
    requires NoneBeyond(kept, owner) && owner <= t.owner
    ensures NoneBeyond(kept + [t], t.owner)
  {
  }

  lemma SummaryTaken(s: Summary, files: seq<Entry>, kept: seq<Tagged>, d: Decoding, t: Tagged)
    requires Follows(files, kept, -1, d) && t == Tagged(-1, SummaryRecord(s)) && Writable(t.rec)
    ensures var r := TakeRecord(d, 0, 0, PaddedRecord(t.rec));
            r.Some? && Follows(files, kept + [t], -1, r.value) && r.value == d.(summary := KeptSummary(s))
  {
    hide ParseSummary, EncodeSummary, Survivors, Runs, InRange, Increasing, Padded, PaddedSize, KeptSummary;
    SummaryParses(s);
    SurvivorsAppend(kept, t);
    BeyondAppend(kept, -1, t);
    FilesOfSame(files, Survivors(kept), kept, t);
  }

  lemma FilesOfSame(files: seq<Entry>, owners: seq<int>, kept: seq<Tagged>, t: Tagged)
    requires InRange(files, owners) && t.rec.kind != RecordVBN
    ensures FilesOf(files, owners, kept + [t]) == FilesOf(files, owners, kept)
  {
    hide Runs;
    forall o
      ensures Runs(kept + [t], o) == Runs(kept, o)
    {
      RunsAppend(kept, t, o);
    }
  }

  lemma SummaryParses(s: Summary)
    requires Writable(SummaryRecord(s))
    ensures ParseSummary(Padded(EncodeSummary(s))) == ParsedSummary(KeptSummary(s), true)
  {
    hide ParseSummary, Encode, SummaryList, PaddedSize, Padded, Blanked;
    var n := PaddedZeros(EncodeSummary(s));
    ListableSummary(s);
    SummaryRoundTrip(s, n);
  }

  lemma RecordTaken(files: seq<Entry>, kept: seq<Tagged>, owner: int, d: Decoding, t: Tagged, i: nat, n: nat)
    requires DecodingSound(d) && Decoded(files, kept, owner, d) && NoneBeyond(kept, owner)
    requires MayFollow(files, t, owner) && Writable(t.rec) && (t.rec.kind != RecordFile ==> InStep(kept, owner, d))
    ensures var r := TakeRecord(d, i, n, PaddedRecord(t.rec));
            && r.Some? && Follows(files, kept + [t], t.owner, r.value)
            && r.value.summary == d.summary && r.value.lastLost == d.lastLost
  {
    hide Decoded, InStep, TakeRecord, PaddedRecord, Writable, HoldsData, FileRecord;
    BeyondAppend(kept, owner, t);
    if t.rec.kind == RecordFile {
      FileTaken(files, kept, owner, d, t, i, n);
    } else {
      DataTaken(files, kept, owner, d, t, i, n);
    }
  }

  /** The records of a block, led by one that may follow owner's, one after another. */
  lemma {:induction false} RecordsTaken(s: Summary, files: seq<Entry>, kept: seq<Tagged>, owner: int, d: Decoding,
                                        ts: seq<Tagged>, i: nat)
    requires DecodingSound(d) && Decoded(files, kept, owner, d) && NoneBeyond(kept, owner)
    requires ts != [] && MayLead(s, files, ts[0], owner, i) && (ts[0].rec.kind != RecordFile ==> InStep(kept, owner, d))
    requires forall k :: 0 < k < |ts| ==> MayFollow(files, ts[k], ts[k - 1].owner)
    requires AllWritable(Recs(ts))
    ensures var r := TakeRecords(d, i, PaddedRecords(Recs(ts)));
            && r.Some? && Follows(files, kept + ts, ts[|ts| - 1].owner, r.value) && r.value.lastLost == d.lastLost
            && r.value.summary == if ts[0].rec.kind == RecordSummary then KeptSummary(s) else d.summary
    decreases |ts|
  {
    hide Follows, Decoded, InStep, NoneBeyond, TakeRecord, PaddedRecord, Writable, MayFollow, SummaryRecord,
      KeptSummary;
    var n := |ts| - 1;
    var t := ts[n];
    assert Recs(ts)[n] == t.rec;
    LastRecord(d, i, ts);
    if n == 0 {
      assert kept + ts == kept + [t];
      NoRecords(d, i);
      if t.rec.kind == RecordSummary {
        FollowsOf(files, kept, owner, d);
        SummaryTaken(s, files, kept, d, t);
      } else {
        RecordTaken(files, kept, owner, d, t, i, 0);
      }
    } else {
      FrontWritable(ts);
      RecordsTaken(s, files, kept, owner, d, ts[..n], i);
      var r := TakeRecords(d, i, PaddedRecords(Recs(ts[..n])));
      assert kept + ts[..n] + [t] == kept + ts;
      FollowsGives(files, kept + ts[..n], ts[n - 1].owner, r.value);
      RecordTaken(files, kept + ts[..n], ts[n - 1].owner, r.value, t, i, n);
    }
  }

  lemma FollowsOf(files: seq<Entry>, kept: seq<Tagged>, owner: int, d: Decoding)
    requires DecodingSound(d) && Decoded(files, kept, owner, d) && NoneBeyond(kept, owner) && InStep(kept, owner, d)
    ensures Follows(files, kept, owner, d)
  {
  }

  lemma FollowsGives(files: seq<Entry>, kept: seq<Tagged>, owner: int, d: Decoding)
    requires Follows(files, kept, owner, d)
    ensures DecodingSound(d) && Decoded(files, kept, owner, d) && NoneBeyond(kept, owner) && InStep(kept, owner, d)
  {
  }

  lemma FrontWritable(ts: seq<Tagged>)
    requires ts != [] && AllWritable(Recs(ts))
    ensures AllWritable(Recs(ts[..|ts| - 1])) && Writable(ts[|ts| - 1].rec)
  {
    hide Writable;
    assert Recs(ts)[|ts| - 1] == ts[|ts| - 1].rec;
    var front := Recs(ts[..|ts| - 1]);
    forall k | 0 <= k < |front|
      ensures Writable(front[k])
    {
      assert front[k] == Recs(ts)[k];
    }
  }

  lemma NoRecords(d: Decoding, i: nat)
    requires DecodingSound(d)
    ensures TakeRecords(d, i, []) == Some(d)
  {
  }

  lemma LastRecord(d: Decoding, i: nat, ts: seq<Tagged>)
    requires DecodingSound(d) && ts != []
    ensures var n := |ts| - 1;
            var front := TakeRecords(d, i, PaddedRecords(Recs(ts[..n])));
            TakeRecords(d, i, PaddedRecords(Recs(ts))) ==
            if front.None? then None else TakeRecord(front.value, i, n, PaddedRecord(ts[n].rec))
  {
    hide TakeRecord, PaddedRecord;
    var n := |ts| - 1;
    assert PaddedRecords(Recs(ts))[..n] == PaddedRecords(Recs(ts[..n]));
  }

  // ---- Decoding the save set ----

  function LastOf(ts: seq<Tagged>): int {
    if ts == [] then -1 else ts[|ts| - 1].owner
  }

  /** After a lost block the file being read may have ended in it, but no file gone on is one not being read. */
  predicate Behind(kept: seq<Tagged>, owner: int, d: Decoding) {
    var s := Survivors(kept);
    (d.reading ==> s != []) && (!d.reading ==> s == [] || s[|s| - 1] < owner)
  }

  predicate Stated(files: seq<Entry>, kept: seq<Tagged>, owner: int, d: Decoding) {
    && DecodingSound(d) && Decoded(files, kept, owner, d) && NoneBeyond(kept, owner) && InStep(kept, LastOf(kept), d)
    && if d.lastLost then Behind(kept, owner, d) else InStep(kept, owner, d)
  }

  predicate Distinct(files: seq<Entry>) {
    forall j, k :: 0 <= j < k < |files| ==> files[j].attrs.name != files[k].attrs.name
  }

  predicate ShortNames(files: seq<Entry>) {
    forall j :: 0 <= j < |files| ==> |files[j].attrs.name| <= 127
  }

  /**
   * A data record leads a block, after a lost one, while a file is being read: and the name in the block's header, cut
   * to fit there, is that file's where the record is another's, or is not that file's where it is its own.
   */
  predicate Confused(files: seq<Entry>, kept: seq<Tagged>, t: Tagged) {
    var s := Survivors(kept);
    && s != [] && s[|s| - 1] == LastOf(kept) && t.rec.kind == RecordVBN && 0 <= t.owner < |files|
    && 0 <= LastOf(kept) < |files|
    && !(Cut(CurrentFor(files, t.owner).name, 128) == files[LastOf(kept)].attrs.name <==> t.owner == LastOf(kept))
  }

  lemma StatedLost(files: seq<Entry>, kept: seq<Tagged>, owner: int, d: Decoding, owner': int)
    requires Stated(files, kept, owner, d) && owner <= owner'
    ensures Stated(files, kept, owner', d.(lastLost := true))
  {
    hide Survivors, FilesOf, InRange, Increasing;
  }

  /** The block's header says whether it goes on with the file being read. */
  lemma Resumed(s: Summary, files: seq<Entry>, kept: seq<Tagged>, owner: int, d: Decoding, t: Tagged, i: nat,
                name: bytes)
    requires Stated(files, kept, owner, d) && MayLead(s, files, t, owner, i) && -1 <= t.owner < |files|
    requires d.lastLost ==> t.rec.kind != RecordSummary && !Confused(files, kept, t)
    requires name == Cut(CurrentFor(files, t.owner).name, 128)
    ensures var r := Resume(d, name);
            && Decoded(files, kept, owner, r) && (t.rec.kind != RecordFile ==> InStep(kept, owner, r))
            && !r.lastLost && r.summary == d.summary
  {
    hide Survivors, FilesOf, NoneBeyond, InRange, Increasing, FileRecord, Whole;
    if d.lastLost && d.reading {
      var o := Survivors(kept)[|Survivors(kept)| - 1];
      LastName(files, kept, owner, d, o);
    }
  }

  lemma LastName(files: seq<Entry>, kept: seq<Tagged>, owner: int, d: Decoding, o: int)
    requires Decoded(files, kept, owner, d) && Survivors(kept) != [] && o == Survivors(kept)[|Survivors(kept)| - 1]
    ensures 0 <= o < |files| && o <= owner && d.files != [] && LastFile(d).attrs.name == files[o].attrs.name
  {
    hide Survivors, Runs;
  }

  /** Where no two files have the same name, and none is too long for a header, none is confused with another. */
  lemma DistinctUnconfused(files: seq<Entry>, kept: seq<Tagged>, t: Tagged)
    requires Distinct(files) && ShortNames(files)
    ensures !Confused(files, kept, t)
  {
    hide Survivors;
    if 0 <= t.owner < |files| {
      assert |files[t.owner].attrs.name| <= 127;
    }
  }

  lemma BlockTaken(l: Layout, s: Summary, files: seq<Entry>, kept: seq<Tagged>, owner: int, d: Decoding, b: DataBlock,
                   i: nat, block: bytes)
    requires ValidLayout(l) && BlockSound(l, files, b) && block == DataBytes(l, i + 1, b)
    requires Stated(files, kept, owner, d) && MayLead(s, files, b.records[0], owner, i)
    requires i == 0 ==> b.records[0].rec.kind == RecordSummary
    requires d.lastLost ==> b.records[0].rec.kind != RecordSummary && !Confused(files, kept, b.records[0])
    requires forall k :: 0 < k < |b.records| ==> MayFollow(files, b.records[k], b.records[k - 1].owner)
    ensures var r := TakeBlock(d, i, block, false);
            && r.Some? && Stated(files, kept + b.records, b.records[|b.records| - 1].owner, r.value)
            && !r.value.lastLost
            && r.value.summary == if b.records[0].rec.kind == RecordSummary then KeptSummary(s) else d.summary
  {
    hide Decoded, InStep, NoneBeyond, MayLead, MayFollow, Behind, TakeRecords, RecordsFrom, DataBytes, CurrentFor, Cut,
      KeptSummary;
    hide PaddedRecord, Confused, AllWritable, Application, ParseCurrent;
    BlockReads(l, i, b);
    var ts := b.records;
    var name := Cut(b.current.name, 128);
    Resumed(s, files, kept, owner, d, ts[0], i, name);
    RecordsTaken(s, files, kept, owner, Resume(d, name), ts, i);
    FirstKind(ts);
    var r := TakeRecords(Resume(d, name), i, PaddedRecords(Recs(ts)));
    FollowsGives(files, kept + ts, ts[|ts| - 1].owner, r.value);
  }

  lemma FirstKind(ts: seq<Tagged>)
    requires ts != []
    ensures PaddedRecords(Recs(ts)) != [] && PaddedRecords(Recs(ts))[0].kind == ts[0].rec.kind
  {
  }

  lemma BlockReads(l: Layout, i: nat, b: DataBlock)
    requires ValidLayout(l) && Fits(l, b.records)
    ensures var block := DataBytes(l, i + 1, b);
            && Application(block) == ApplicationData && ParseCurrent(block).name == Cut(b.current.name, 128)
            && RecordsFrom(block, HeaderSize) == Parsed(PaddedRecords(Recs(b.records)), true)
  {
    hide DataBytes, RecordsFrom, Cut, PaddedRecords, Recs, Fits;
    DataHeader(l, i + 1, b);
    DataRecords(l, i + 1, b);
  }

  /** All the records of a save set's blocks, in order. */
  function RecordsOf(slots: seq<Slot>): seq<Tagged> {
    if slots == [] then []
    else
      var front := RecordsOf(slots[..|slots| - 1]);
      if slots[|slots| - 1].Holds? then front + slots[|slots| - 1].block.records else front
  }

  /** And those in blocks not lost. */
  function KeptOf(slots: seq<Slot>, lost: seq<nat>): seq<Tagged> {
    if slots == [] then []
    else
      var front := KeptOf(slots[..|slots| - 1], lost);
      if slots[|slots| - 1].Holds? && |slots| !in lost then front + slots[|slots| - 1].block.records else front
  }

  /** A save set of files, by its records and headers. */
  predicate SaveSetSound(l: Layout, s: Summary, files: seq<Entry>, slots: seq<Slot>) {
    && ValidLayout(l) && slots != [] && slots[0].Holds?
    && (forall i :: 0 <= i < |slots| && slots[i].Holds? ==> BlockSound(l, files, slots[i].block))
    && Chained(s, files, RecordsOf(slots))
  }

  /** The blocks not lost are the save set's own; a redundancy block need only say that it is one. */
  ghost predicate Readable(l: Layout, slots: seq<Slot>, blocks: seq<bytes>, lost: seq<nat>) {
    && |blocks| == |slots| && AllHeaded(blocks)
    && forall i: nat :: i < |slots| && i + 1 !in lost ==> ReadableAt(l, slots[i], i + 1, blocks[i])
  }

  ghost predicate ReadableAt(l: Layout, slot: Slot, number: nat, block: bytes) {
    && |block| >= HeaderSize
    && match slot
       case Holds(b) => ValidLayout(l) && Fits(l, b.records) && block == DataBytes(l, number, b)
       case Redundancy => Application(block) != ApplicationData
  }

  lemma {:induction false} RecordsOfPrefix(slots: seq<Slot>, n: nat)
    requires n <= |slots|
    ensures RecordsOf(slots[..n]) <= RecordsOf(slots)
    decreases |slots|
  {
    if n == |slots| {
      assert slots[..n] == slots;
    } else {
      RecordsOfPrefix(slots[..|slots| - 1], n);
      assert slots[..|slots| - 1][..n] == slots[..n];
    }
  }

  lemma ChainedPrefix(s: Summary, files: seq<Entry>, ts: seq<Tagged>, us: seq<Tagged>)
    requires Chained(s, files, ts) && us <= ts
    ensures Chained(s, files, us)
  {
    hide MayFollow, SummaryRecord;
    assert forall k :: 0 <= k < |us| ==> us[k] == ts[k];
  }

  /** What leads a block, and what follows in it. */
  lemma ChainedBlock(s: Summary, files: seq<Entry>, ts: seq<Tagged>, rs: seq<Tagged>, i: nat)
    requires Chained(s, files, ts + rs) && rs != [] && (ts == [] <==> i == 0)
    ensures MayLead(s, files, rs[0], LastOf(ts), i) && (rs[0].rec.kind == RecordSummary <==> i == 0)
    ensures forall k :: 0 < k < |rs| ==> MayFollow(files, rs[k], rs[k - 1].owner)
    ensures LastOf(ts + rs) == rs[|rs| - 1].owner
  {
    hide HoldsData, EncodeSummary;
    var all := ts + rs;
    assert forall k :: 0 <= k < |rs| ==> all[|ts| + k] == rs[k];
    if ts != [] {
      assert all[|ts| - 1] == ts[|ts| - 1];
      assert MayFollow(files, all[|ts|], all[|ts| - 1].owner);
      DataIsVBN(files, rs[0], LastOf(ts));
    }
    hide MayFollow;
    forall k | 0 < k < |rs|
      ensures MayFollow(files, rs[k], rs[k - 1].owner)
    {
      assert MayFollow(files, all[|ts| + k], all[|ts| + k - 1].owner);
    }
  }

  lemma DataIsVBN(files: seq<Entry>, t: Tagged, owner: int)
    requires MayFollow(files, t, owner)
    ensures t.rec.kind != RecordSummary && t.owner >= owner
  {
    hide Whole, EncodeAttributes;
  }

  lemma {:induction false} OwnersGrow(s: Summary, files: seq<Entry>, ts: seq<Tagged>, rs: seq<Tagged>)
    requires Chained(s, files, ts + rs) && ts != []
    ensures LastOf(ts) <= LastOf(ts + rs)
    decreases |rs|
  {
    hide MayFollow, SummaryRecord;
    if rs == [] {
      assert ts + rs == ts;
    } else {
      var n := |rs| - 1;
      assert ts + rs[..n] + [rs[n]] == ts + rs;
      ChainedPrefix(s, files, ts + rs, ts + rs[..n]);
      OwnersGrow(s, files, ts, rs[..n]);
      assert (ts + rs)[|ts| + n - 1] == (ts + rs[..n])[|ts| + n - 1];
      assert MayFollow(files, (ts + rs)[|ts| + n], (ts + rs)[|ts| + n - 1].owner);
      DataIsVBN(files, rs[n], LastOf(ts + rs[..n]));
    }
  }

  lemma {:induction false} SomeRecords(l: Layout, s: Summary, files: seq<Entry>, slots: seq<Slot>, n: nat)
    requires SaveSetSound(l, s, files, slots) && 0 < n <= |slots|
    ensures RecordsOf(slots[..n]) != []
  {
    hide BlockSound, Chained;
    RecordsOfPrefix(slots[..n], 1);
    assert slots[..n][..1] == slots[..1] && slots[..1][..0] == [] && slots[..1][0] == slots[0];
    FirstRecords(slots[..1]);
    assert BlockSound(l, files, slots[0].block);
    SoundSome(l, files, slots[0].block);
  }

  lemma FirstRecords(slots: seq<Slot>)
    requires |slots| == 1 && slots[0].Holds?
    ensures RecordsOf(slots) == slots[0].block.records
  {
    assert slots[..0] == [];
    assert RecordsOf(slots[..0]) == [];
  }

  lemma SoundSome(l: Layout, files: seq<Entry>, b: DataBlock)
    requires BlockSound(l, files, b)
    ensures b.records != [] && Fits(l, b.records) && -1 <= b.records[0].owner < |files|
  {
    hide Fits;
  }

  /** Whether a block has been lost since the last data block that was not. */
  function LostBefore(slots: seq<Slot>, lost: seq<nat>, n: nat): bool
    requires n <= |slots|
  {
    n > 0 && (n in lost || (slots[n - 1].Redundancy? && LostBefore(slots, lost, n - 1)))
  }

  predicate ConfusedAt(files: seq<Entry>, slots: seq<Slot>, lost: seq<nat>, n: nat) {
    && n < |slots| && n + 1 !in lost && slots[n].Holds? && slots[n].block.records != [] && LostBefore(slots, lost, n)
    && Confused(files, KeptOf(slots[..n], lost), slots[n].block.records[0])
  }

  /** What has been decoded of the first n blocks. */
  ghost predicate TakenTo(l: Layout, s: Summary, files: seq<Entry>, slots: seq<Slot>, blocks: seq<bytes>,
                          lost: seq<nat>, n: nat) {
    && n <= |slots| == |blocks| && AllHeaded(blocks)
    && var r := TakeBlocks(blocks[..n], lost);
       && r.Some? && Stated(files, KeptOf(slots[..n], lost), LastOf(RecordsOf(slots[..n])), r.value)
       && (r.value.lastLost <==> LostBefore(slots, lost, n)) && (n > 0 ==> r.value.summary == KeptSummary(s))
  }

  /** The slots and blocks of a step. */
  lemma StepOf(slots: seq<Slot>, blocks: seq<bytes>, lost: seq<nat>, n: nat)
    requires n < |slots| == |blocks| && AllHeaded(blocks)
    ensures var slot, kept, ts := slots[n], KeptOf(slots[..n], lost), RecordsOf(slots[..n]);
            && KeptOf(slots[..n + 1], lost) == (if slot.Holds? && n + 1 !in lost then kept + slot.block.records
                 else kept)
            && RecordsOf(slots[..n + 1]) == (if slot.Holds? then ts + slot.block.records else ts)
            && var front := TakeBlocks(blocks[..n], lost);
               TakeBlocks(blocks[..n + 1], lost) ==
               if front.None? then None else TakeBlock(front.value, n, blocks[n], n + 1 in lost)
  {
    hide TakeBlock;
    assert slots[..n + 1][..n] == slots[..n] && blocks[..n + 1][..n] == blocks[..n];
  }

  lemma TakeLost(l: Layout, s: Summary, files: seq<Entry>, slots: seq<Slot>, blocks: seq<bytes>, lost: seq<nat>, n: nat)
    requires SaveSetSound(l, s, files, slots) && TakenTo(l, s, files, slots, blocks, lost, n) && 0 < n < |slots|
    requires n + 1 in lost
    ensures TakenTo(l, s, files, slots, blocks, lost, n + 1)
  {
    hide TakeBlocks, KeptOf, RecordsOf, BlockSound, Chained, MayFollow, Stated;
    StepOf(slots, blocks, lost, n);
    SomeRecords(l, s, files, slots, n);
    var ts := RecordsOf(slots[..n]);
    if slots[n].Holds? {
      RecordsOfPrefix(slots, n + 1);
      ChainedPrefix(s, files, RecordsOf(slots), RecordsOf(slots[..n + 1]));
      OwnersGrow(s, files, ts, slots[n].block.records);
    }
    hide SaveSetSound;
    StatedLost(files, KeptOf(slots[..n], lost), LastOf(ts), TakeBlocks(blocks[..n], lost).value,
      LastOf(RecordsOf(slots[..n + 1])));
  }

  lemma TakeRedundancy(l: Layout, s: Summary, files: seq<Entry>, slots: seq<Slot>, blocks: seq<bytes>, lost: seq<nat>,
                       n: nat)
    requires TakenTo(l, s, files, slots, blocks, lost, n) && 0 < n < |slots| && n + 1 !in lost
    requires slots[n].Redundancy? && ReadableAt(l, slots[n], n + 1, blocks[n])
    ensures TakenTo(l, s, files, slots, blocks, lost, n + 1)
  {
    hide TakeBlocks, KeptOf, RecordsOf, Stated, Application, RecordsFrom, ParseCurrent, TakeRecords;
    StepOf(slots, blocks, lost, n);
  }

  lemma TakeData(l: Layout, s: Summary, files: seq<Entry>, slots: seq<Slot>, blocks: seq<bytes>, lost: seq<nat>, n: nat)
    requires SaveSetSound(l, s, files, slots) && TakenTo(l, s, files, slots, blocks, lost, n) && n < |slots|
    requires n + 1 !in lost
    requires slots[n].Holds? && ReadableAt(l, slots[n], n + 1, blocks[n])
    requires !ConfusedAt(files, slots, lost, n)
    ensures TakenTo(l, s, files, slots, blocks, lost, n + 1)
  {
    hide TakeBlocks, KeptOf, RecordsOf, Chained, MayFollow, Stated, TakeBlock, MayLead, Confused, KeptSummary,
      DataBytes, LostBefore;
    NoneSince(slots, lost, n);
    var b, ts := slots[n].block, RecordsOf(slots[..n]);
    StepOf(slots, blocks, lost, n);
    assert BlockSound(l, files, b);
    SoundSome(l, files, b);
    hide BlockSound, Fits;
    LeadingRecords(l, s, files, slots, n);
    RecordsOfPrefix(slots, n + 1);
    ChainedPrefix(s, files, RecordsOf(slots), RecordsOf(slots[..n + 1]));
    hide SaveSetSound;
    ChainedBlock(s, files, ts, b.records, n);
    BlockTaken(l, s, files, KeptOf(slots[..n], lost), LastOf(ts), TakeBlocks(blocks[..n], lost).value, b, n, blocks[n]);
  }

  lemma NoneSince(slots: seq<Slot>, lost: seq<nat>, n: nat)
    requires n < |slots| && n + 1 !in lost && slots[n].Holds?
    ensures !LostBefore(slots, lost, n + 1) && !LostBefore(slots, lost, 0)
  {
  }

  lemma LeadingRecords(l: Layout, s: Summary, files: seq<Entry>, slots: seq<Slot>, n: nat)
    requires SaveSetSound(l, s, files, slots) && n <= |slots|
    ensures RecordsOf(slots[..n]) == [] <==> n == 0
  {
    hide SaveSetSound;
    if n > 0 {
      SomeRecords(l, s, files, slots, n);
    }
  }

  lemma {:induction false} AllTaken(l: Layout, s: Summary, files: seq<Entry>, slots: seq<Slot>, blocks: seq<bytes>,
                                    lost: seq<nat>, n: nat)
    requires SaveSetSound(l, s, files, slots) && Readable(l, slots, blocks, lost) && 1 !in lost && n <= |slots|
    requires forall m: nat :: m < n ==> !ConfusedAt(files, slots, lost, m)
    ensures TakenTo(l, s, files, slots, blocks, lost, n)
  {
    hide TakenTo, ReadableAt, BlockSound, Chained, ConfusedAt;
    if n == 0 {
      NoneTaken(l, s, files, slots, blocks, lost);
    } else {
      AllTaken(l, s, files, slots, blocks, lost, n - 1);
      if n in lost {
        TakeLost(l, s, files, slots, blocks, lost, n - 1);
      } else if slots[n - 1].Holds? {
        TakeData(l, s, files, slots, blocks, lost, n - 1);
      } else {
        TakeRedundancy(l, s, files, slots, blocks, lost, n - 1);
      }
    }
  }

  lemma NoneTaken(l: Layout, s: Summary, files: seq<Entry>, slots: seq<Slot>, blocks: seq<bytes>, lost: seq<nat>)
    requires |slots| == |blocks| && AllHeaded(blocks)
    ensures TakenTo(l, s, files, slots, blocks, lost, 0)
  {
    assert slots[..0] == [] && blocks[..0] == [];
    assert Survivors([]) == [];
  }

  /** What decoding gives of the save set, the blocks numbered in lost being lost. */
  ghost predicate DecodesTo(d: Decoding, s: Summary, files: seq<Entry>, slots: seq<Slot>, lost: seq<nat>) {
    var kept := KeptOf(slots, lost);
    && d.summary == KeptSummary(s) && InRange(files, Survivors(kept)) && Increasing(Survivors(kept))
    && d.files == FilesOf(files, Survivors(kept), kept)
  }

  /** No block not lost, and after a lost one, leads to a file's being confused. */
  ghost predicate Unconfused(files: seq<Entry>, slots: seq<Slot>, lost: seq<nat>) {
    forall n: nat :: !ConfusedAt(files, slots, lost, n)
  }

  /**
   * Whatever blocks but the first are lost, decoding gives the summary and exactly the files whose attributes are left,
   * in order, each with exactly its own data records that are left: no data of another file's, and none left out.
   * Unless names are confused (Confusion.DecodesExactly).
   */
  lemma DecodeExact(l: Layout, s: Summary, files: seq<Entry>, slots: seq<Slot>, blocks: seq<bytes>, lost: seq<nat>)
    requires SaveSetSound(l, s, files, slots) && Readable(l, slots, blocks, lost) && 1 !in lost
    requires Unconfused(files, slots, lost)
    ensures AllHeaded(blocks) && Decode(blocks, lost).Some?
    ensures DecodesTo(Decode(blocks, lost).value, s, files, slots, lost)
  {
    hide ConfusedAt, TakenTo, SaveSetSound, ReadableAt, DecodesTo;
    AllTaken(l, s, files, slots, blocks, lost, |slots|);
    SomeSlots(l, s, files, slots);
    TakenWhole(l, s, files, slots, blocks, lost);
  }

  lemma SomeSlots(l: Layout, s: Summary, files: seq<Entry>, slots: seq<Slot>)
    requires SaveSetSound(l, s, files, slots)
    ensures slots != []
  {
    hide BlockSound;
  }

  lemma TakenWhole(l: Layout, s: Summary, files: seq<Entry>, slots: seq<Slot>, blocks: seq<bytes>, lost: seq<nat>)
    requires |slots| == |blocks| && AllHeaded(blocks) && 1 !in lost && slots != []
    requires TakenTo(l, s, files, slots, blocks, lost, |slots|)
    ensures Decode(blocks, lost).Some? && DecodesTo(Decode(blocks, lost).value, s, files, slots, lost)
  {
    hide TakeBlocks, KeptOf, RecordsOf, Survivors, FilesOf, Behind, NoneBeyond, InStep;
    assert slots[..|slots|] == slots && blocks[..|slots|] == blocks;
  }
}
