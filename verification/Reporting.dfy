/**
 What a writer has written, and reported, once a record fitted no block: it goes on reporting files whose blocks it no
 longer writes. So the files reported are in the save set exactly when every record fitted.
 */
module Reporting {
  import opened Bytes
  import opened Crc
  import opened Blocks
  import opened AttributeLists
  import opened SaveSetStream
  import opened Groups
  import opened Packing
  import opened SaveSetWriter
  import opened Restoring
  import opened SaveSets

  // ---- The call that fails ----

  predicate Misfit(l: Layout, c: Call) {
    c.AddFile? && !Fitting(l, EncodeAttributes(c.entry.attrs))
  }

  /** The first call to add a file whose attributes fit no block. */
  function FailingCall(l: Layout, calls: seq<Call>): (m: nat)
    ensures m <= |calls|
  {
    if calls == [] then 0
    else
      var n := |calls| - 1;
      var m := FailingCall(l, calls[..n]);
      if m < n || Misfit(l, calls[n]) then m else n + 1
  }

  lemma {:induction false} FailingIs(l: Layout, calls: seq<Call>)
    ensures var m := FailingCall(l, calls);
            (m < |calls| ==> Misfit(l, calls[m])) && forall i :: 0 <= i < m ==> !Misfit(l, calls[i])
  {
    hide Misfit;
    if calls != [] {
      FailingIs(l, calls[..|calls| - 1]);
    }
  }

  /** p failed at call m, with an empty block begun for the file it could not add, which it counts as done in it. */
  ghost predicate StoppedAt(l: Layout, s: Summary, calls: seq<Call>, m: nat, p: Packer)
    requires ValidLayout(l) && m < |calls| && calls[m].AddFile?
  {
    var a := calls[m].entry.attrs;
    && p.failed && p.stopped <= |p.closed| && p.closed[..p.stopped] == BlocksOf(Pack(l, s, calls[..m]))
    && BlocksOf(p) == p.closed[..p.stopped] + [DataBlock(CurrentOf(a), [], [a.name])]
  }

  lemma MisfitStops(l: Layout, p: Packer, owner: int, e: Entry)
    requires ValidLayout(l) && !p.failed && !Fitting(l, EncodeAttributes(e.attrs))
    ensures Add(l, p, owner, e)
            == Packer(BlocksOf(p), Some(DataBlock(CurrentOf(e.attrs), [], [e.attrs.name])), CurrentOf(e.attrs), true,
              |BlocksOf(p)|)
  {
    EmptyAt();
    EncodedSome(FileList(e.attrs));
    PaddedPositive(|EncodeAttributes(e.attrs)|);
    hide At, PaddedSize, Encode, FileList, CurrentOf;
    var t := Tagged(owner, FileRecord(e));
    var p0 := p.(current := CurrentOf(e.attrs));
    NoRoom(l, p0, |t.rec.body|);
    var p1 := PutRecord(l, p0, t);
    assert p1 == Packer(BlocksOf(p), Some(DataBlock(CurrentOf(e.attrs), [], [])), CurrentOf(e.attrs), true,
             |BlocksOf(p)|);
    assert [] + [e.attrs.name] == [e.attrs.name];
  }

  /** What fits no fresh block fits none begun. */
  lemma NoRoom(l: Layout, p: Packer, n: nat)
    requires ValidLayout(l) && n > 0 && PaddedSize(n) + HeaderSize + 2 * RecordHeaderSize > l.blockSize
    ensures PaddedSize(n) > Room(l, p)
  {
    PaddedPositive(n);
    hide PaddedSize;
    assert Place(p) >= HeaderSize;
  }

  lemma {:induction false} Stops(l: Layout, s: Summary, calls: seq<Call>)
    requires ValidLayout(l) && Fitting(l, EncodeSummary(s)) && FailingCall(l, calls) < |calls|
    ensures Misfit(l, calls[FailingCall(l, calls)]) && calls[FailingCall(l, calls)].AddFile?
    ensures StoppedAt(l, s, calls, FailingCall(l, calls), Pack(l, s, calls))
  {
    hide Pack, Files, Add, Fitting, Start, EncodeSummary, EncodeAttributes, CurrentOf, BlocksOf;
    var n := |calls| - 1;
    var front, c, m := calls[..n], calls[n], FailingCall(l, calls);
    FailingIs(l, calls);
    CallsOf(l, s, calls);
    var p := Pack(l, s, front);
    if m == n {
      FitsSoFar(l, s, front);
      PackFails(l, s, front);
      MisfitStops(l, p, |Files(front)|, c.entry);
      StoppedHere(l, s, calls, p, Pack(l, s, calls));
    } else {
      Stops(l, s, front);
      assert front[..m] == calls[..m];
      if c.AddFile? {
        AddAfterFailure(l, p, |Files(front)|, c.entry);
      } else if p.open.Some? {
        StillStopped(l, s, front, m, p);
      }
    }
  }

  lemma StoppedHere(l: Layout, s: Summary, calls: seq<Call>, p: Packer, r: Packer)
    requires ValidLayout(l) && calls != [] && calls[|calls| - 1].AddFile? && p == Pack(l, s, calls[..|calls| - 1])
    requires var a := calls[|calls| - 1].entry.attrs;
             r == Packer(BlocksOf(p), Some(DataBlock(CurrentOf(a), [], [a.name])), CurrentOf(a), true, |BlocksOf(p)|)
    ensures StoppedAt(l, s, calls, |calls| - 1, r)
  {
    hide Pack, CurrentOf;
    assert BlocksOf(p)[..|BlocksOf(p)|] == BlocksOf(p);
  }

  lemma StillStopped(l: Layout, s: Summary, calls: seq<Call>, m: nat, p: Packer)
    requires ValidLayout(l) && m < |calls| && calls[m].AddFile? && p.open.Some? && StoppedAt(l, s, calls, m, p)
    ensures StoppedAt(l, s, calls, m, End(p))
  {
    hide Pack, CurrentOf;
    EndKeepsBlocks(p);
  }

  lemma EndKeepsBlocks(p: Packer)
    requires p.open.Some? && p.stopped <= |p.closed|
    ensures BlocksOf(End(p)) == BlocksOf(p) && End(p).closed[..p.stopped] == p.closed[..p.stopped]
  {
  }

  /** Up to the failing call every record fits. */
  lemma {:induction false} FitsSoFar(l: Layout, s: Summary, calls: seq<Call>)
    requires Fitting(l, EncodeSummary(s)) && forall i :: 0 <= i < |calls| ==> !Misfit(l, calls[i])
    ensures RecordsFit(l, s, Files(calls))
  {
    hide Fitting, EncodeSummary, EncodeAttributes;
    if calls != [] {
      var n := |calls| - 1;
      assert forall i :: 0 <= i < n ==> calls[..n][i] == calls[i];
      FitsSoFar(l, s, calls[..n]);
      assert !Misfit(l, calls[n]);
    }
  }

  /** A summary that fits no block leaves one empty block, and no file is done. */
  lemma {:induction false} NeverStarted(l: Layout, s: Summary, calls: seq<Call>)
    requires ValidLayout(l) && !Fitting(l, EncodeSummary(s))
    ensures var p := Pack(l, s, calls);
            p.failed && p.stopped == 0 && BlocksOf(p) == [DataBlock(NoFile, [], [])] && Dones(BlocksOf(p)) == []
  {
    hide Pack, Files, Add, Fitting, EncodeSummary;
    CallsOf(l, s, calls);
    if calls == [] {
      StartsStopped(l, s);
    } else {
      var front, c := calls[..|calls| - 1], calls[|calls| - 1];
      var p := Pack(l, s, front);
      NeverStarted(l, s, front);
      if c.AddFile? {
        AddAfterFailure(l, p, |Files(front)|, c.entry);
      } else if p.open.Some? {
        EndKeepsBlocks(p);
      }
    }
  }

  lemma StartsStopped(l: Layout, s: Summary)
    requires ValidLayout(l) && !Fitting(l, EncodeSummary(s))
    ensures Start(l, s) == Packer([], Some(DataBlock(NoFile, [], [])), NoFile, true, 0)
    ensures Dones(BlocksOf(Start(l, s))) == []
  {
    EmptyAt();
    EncodedSome(SummaryList(s));
    hide At, PaddedSize, Encode, SummaryList;
    NoRoom(l, Packer([], None, NoFile, false, 0), |EncodeSummary(s)|);
    var blocks := BlocksOf(Start(l, s));
    assert blocks[..0] == [];
  }

  // ---- What is written, and what is reported ----

  lemma SlotsBefore(g: nat, blocks: seq<DataBlock>, b: DataBlock)
    ensures Slots(g, blocks) <= SaveSetSlots(g, blocks + [b])
  {
    assert (blocks + [b])[..|blocks|] == blocks;
  }

  lemma StreamPrefix(l: Layout, slots: seq<Slot>, n: nat)
    requires ValidLayout(l) && SlotsFit(l, slots) && n <= |slots|
    ensures SlotsFit(l, slots[..n]) && Stream(l, slots)[..n] == Stream(l, slots[..n])
  {
    hide Stream;
    if n < |slots| {
      StreamAt(l, slots, n);
    } else {
      assert slots[..n] == slots;
    }
  }

  /** The blocks that the failing call found ended, and their redundancy blocks. */
  function SlotsAtFailure(l: Layout, s: Summary, calls: seq<Call>): seq<Slot>
    requires ValidLayout(l)
  {
    Slots(l.group, BlocksOf(Pack(l, s, calls[..FailingCall(l, calls)])))
  }

  /**
   * A failed writer's blocks and reports: what its buffers no longer held at the failing call, and every file up to it.
   */
  lemma Failed(l: Layout, s: Summary, calls: seq<Call>, slots: seq<Slot>, buffers: nat, kept: nat)
    requires ValidLayout(l) && Fitting(l, EncodeSummary(s)) && !RecordsFit(l, s, Files(calls)) && SlotsFit(l, slots)
    requires slots == SaveSetSlots(l.group, BlocksOf(Pack(l, s, calls)))
    requires var p := Pack(l, s, calls);
             p.stopped <= |p.closed| ==> kept == Excess(|Slots(l.group, p.closed[..p.stopped])|, buffers)
    ensures var m, before := FailingCall(l, calls), SlotsAtFailure(l, s, calls);
            && m < |calls| && SlotsFit(l, before) && kept == Excess(|before|, buffers) && kept <= |slots|
            && Stream(l, slots)[..kept] == Stream(l, before)[..kept]
            && DoneNames(slots) == Names(Files(calls[..m + 1]))
  {
    hide Pack, Files, RecordsFit, Fitting, EncodeSummary, Stream, SlotsFit, Slots, SaveSetSlots, Dones, BlocksIn,
      DoneNames, Names, CurrentOf, Misfit;
    var m := FailingCall(l, calls);
    SomeMisfit(l, s, calls);
    FailingIs(l, calls);
    Stops(l, s, calls);
    var p, e := Pack(l, s, calls), calls[m].entry;
    var sound := p.closed[..p.stopped];
    var b := DataBlock(CurrentOf(e.attrs), [], [e.attrs.name]);
    SlotsBefore(l.group, sound, b);
    var before := Slots(l.group, sound);
    assert slots[..|before|] == before;
    StreamPrefix(l, slots, |before|);
    StreamPrefix(l, slots, kept);
    BlocksInSlots(l.group, BlocksOf(p));
    DoneNamesAre(slots);
    FlattenAppend(sound, b);
    ReportedBefore(l, s, calls[..m]);
    NamesUpTo(calls, m);
    assert Stream(l, slots)[..|before|][..kept] == Stream(l, slots)[..kept];
  }

  lemma SomeMisfit(l: Layout, s: Summary, calls: seq<Call>)
    requires Fitting(l, EncodeSummary(s)) && !RecordsFit(l, s, Files(calls))
    ensures FailingCall(l, calls) < |calls|
  {
    hide Files, RecordsFit, Fitting, EncodeSummary, Misfit;
    FailingIs(l, calls);
    if FailingCall(l, calls) == |calls| {
      FitsSoFar(l, s, calls);
    }
  }

  lemma ReportedBefore(l: Layout, s: Summary, calls: seq<Call>)
    requires ValidLayout(l) && Fitting(l, EncodeSummary(s)) && forall i :: 0 <= i < |calls| ==> !Misfit(l, calls[i])
    ensures Dones(BlocksOf(Pack(l, s, calls))) == Names(Files(calls))
  {
    hide Pack, Files, RecordsFit, Fitting, EncodeSummary, Misfit, Total, Fed, Flatten, BlocksSound, DoneInOrder, Dones,
      Names, BlocksOf;
    FitsSoFar(l, s, calls);
    PackSound(l, s, calls, Files(calls));
    assert Files(calls)[..|Files(calls)|] == Files(calls);
  }

  lemma NamesUpTo(calls: seq<Call>, m: nat)
    requires m < |calls| && calls[m].AddFile?
    ensures Names(Files(calls[..m + 1])) == Names(Files(calls[..m])) + [calls[m].entry.attrs.name]
  {
    assert calls[..m + 1][..m] == calls[..m];
  }

  // ---- What of a file is in the save set ----

  /** File i's attributes and all its data are in the blocks of output. */
  ghost predicate HeldIn(l: Layout, s: Summary, files: seq<Entry>, output: seq<bytes>, i: nat)
    requires ValidLayout(l) && i < |files|
  {
    exists slots: seq<Slot>, m: nat ::
      && SlotsFit(l, slots) && output == Stream(l, slots)
      && m <= |RecordsOf(slots)| && Fed(RecordsOf(slots)[..m], s, files, i + 1, Total(files, i + 1))
  }

  /** Where records of whole files are fed, those of fewer are. */
  lemma {:induction false} FedEarlier(ts: seq<Tagged>, s: Summary, files: seq<Entry>, n: nat, at: nat, i: nat)
    requires Fed(ts, s, files, n, at) && i <= n && (i == n ==> at == Total(files, n))
    ensures exists m: nat :: m <= |ts| && Fed(ts[..m], s, files, i, Total(files, i))
    decreases |ts|
  {
    hide SummaryRecord, FileRecord, DataRecord, Whole;
    if i == n {
      assert ts[..|ts|] == ts;
    } else {
      var front, t := ts[..|ts| - 1], ts[|ts| - 1];
      var k, from := if t.rec.kind == RecordFile then n - 1 else n, if t.rec.kind == RecordFile then Total(files, n - 1)
        else at - |t.rec.body|;
      FedEarlier(front, s, files, k, from, i);
      var m: nat :| m <= |front| && Fed(front[..m], s, files, i, Total(files, i));
      assert front[..m] == ts[..m];
    }
  }

  /** A file's attributes are among the records that hold it. */
  lemma {:induction false} FedHasFile(ts: seq<Tagged>, s: Summary, files: seq<Entry>, n: nat, at: nat)
    requires Fed(ts, s, files, n, at) && 0 < n <= |files|
    ensures exists k :: 0 <= k < |ts| && ts[k].rec == FileRecord(files[n - 1])
    decreases |ts|
  {
    hide SummaryRecord, DataRecord, Whole, FileRecord;
    var front, t := ts[..|ts| - 1], ts[|ts| - 1];
    if t.rec.kind == RecordFile {
      assert ts[|ts| - 1].rec == FileRecord(files[n - 1]);
    } else {
      FedHasFile(front, s, files, n, at - |t.rec.body|);
      var k :| 0 <= k < |front| && front[k].rec == FileRecord(files[n - 1]);
      assert ts[k] == front[k];
    }
  }

  /** Every record in a block that leaves room for its null record fits a block. */
  lemma {:induction false} RecordFits(l: Layout, ts: seq<Tagged>, k: nat)
    requires Fits(l, ts) && k < |ts|
    ensures Fitting(l, ts[k].rec.body)
  {
    var n := |ts| - 1;
    var front := ts[..n];
    AtAppend(front, ts[n]);
    assert front + [ts[n]] == ts;
    hide At, PaddedSize, AllWritable;
    AtLeast(front);
    if k < n {
      FrontFits(l, front, ts[n]);
      RecordFits(l, front, k);
    }
  }

  lemma AtLeast(ts: seq<Tagged>)
    ensures At(ts) >= HeaderSize
  {
  }

  lemma FrontFits(l: Layout, ts: seq<Tagged>, t: Tagged)
    requires Fits(l, ts + [t])
    ensures Fits(l, ts)
  {
    AtAppend(ts, t);
    assert Recs(ts + [t]) == Recs(ts) + [t.rec];
    assert (Recs(ts) + [t.rec])[|ts|] == t.rec;
    assert forall i :: 0 <= i < |ts| ==> (Recs(ts) + [t.rec])[i] == Recs(ts)[i];
    hide At, PaddedSize;
  }

  lemma {:induction false} RecordIn(l: Layout, slots: seq<Slot>, k: nat)
    requires SlotsFit(l, slots) && k < |RecordsOf(slots)|
    ensures Fitting(l, RecordsOf(slots)[k].rec.body)
  {
    hide Fits, Fitting;
    var n := |slots| - 1;
    var front := slots[..n];
    assert SlotFits(l, slots[n]);
    if k < |RecordsOf(front)| {
      RecordIn(l, front, k);
    } else {
      RecordFits(l, slots[n].block.records, k - |RecordsOf(front)|);
    }
  }

  /** So a file whose attributes fit no block is in none. */
  lemma MisfitNotHeld(l: Layout, s: Summary, files: seq<Entry>, output: seq<bytes>, i: nat)
    requires ValidLayout(l) && i < |files| && !Fitting(l, EncodeAttributes(files[i].attrs))
    ensures !HeldIn(l, s, files, output, i)
  {
    hide Fed, Fitting, EncodeAttributes, SlotsFit, Stream, RecordsOf;
    forall slots: seq<Slot>, m: nat | SlotsFit(l, slots) && m <= |RecordsOf(slots)|
      ensures !Fed(RecordsOf(slots)[..m], s, files, i + 1, Total(files, i + 1))
    {
      NotFed(l, slots, m, s, files, i);
    }
  }

  lemma NotFed(l: Layout, slots: seq<Slot>, m: nat, s: Summary, files: seq<Entry>, i: nat)
    requires i < |files| && !Fitting(l, EncodeAttributes(files[i].attrs)) && SlotsFit(l, slots)
    requires m <= |RecordsOf(slots)|
    ensures !Fed(RecordsOf(slots)[..m], s, files, i + 1, Total(files, i + 1))
  {
    hide Fed, Fitting, EncodeAttributes, SlotsFit, RecordsOf, Total;
    var ts := RecordsOf(slots);
    forall k | 0 <= k < m
      ensures ts[..m][k].rec != FileRecord(files[i])
    {
      RecordIn(l, slots, k);
    }
    if Fed(ts[..m], s, files, i + 1, Total(files, i + 1)) {
      FedHasFile(ts[..m], s, files, i + 1, Total(files, i + 1));
    }
  }

  /** Where every record fits, each file is in the save set. */
  lemma AllHeld(s: Summary, crc: bool, calls: seq<Call>, i: nat)
    requires Writes(s, crc, Files(calls)) && i < |Files(calls)|
    requires SlotsFit(LayoutOf(s, crc), WrittenSlots(s, crc, calls))
    ensures var l := LayoutOf(s, crc);
            HeldIn(l, s, Files(calls), Stream(l, WrittenSlots(s, crc, calls)), i)
  {
    hide Fed, Pack, Files, RecordsFit, SlotsFit, Stream, RecordsOf, BlocksIn, Flatten, BlocksSound, DoneInOrder, Dones,
      Names, Total, SaveSetSlots;
    var l, slots, files := LayoutOf(s, crc), WrittenSlots(s, crc, calls), Files(calls);
    PackSound(l, s, calls, files);
    BlocksInSlots(s.groupSize, BlocksOf(Pack(l, s, calls)));
    RecordsOfBlocks(slots);
    FedEarlier(RecordsOf(slots), s, files, |files|, Total(files, |files|), i + 1);
  }
}
