/** A whole save: what a Writer has written, and reported, once it is closed. */
module Saving {
  import opened Bytes
  import opened Blocks
  import opened AttributeLists
  import opened SaveSetStream
  import opened Groups
  import opened Packing
  import opened SaveSetWriter
  import opened SaveSets
  import opened Reporting

  /** The buffers the summary asks for, at least one. */
  function BuffersOf(s: Summary): nat {
    if s.buffers == 0 then 1 else s.buffers
  }

  /**
   * NewWriter, the calls, and Close. Every file reported is in the save set exactly when every record fits a block;
   * after one that does not, the blocks the buffers still held are not written, yet their files, and the one that
   * failed, are reported.
   */
  method Save(s: Summary, crc: bool, calls: seq<Call>)
    returns (refused: bool, failed: bool, output: seq<bytes>, saved: seq<bytes>)
    ensures refused <==> !ValidLayout(LayoutOf(s, crc))
    ensures refused ==> !failed && output == [] && saved == []
    ensures !refused ==> (failed <==> !RecordsFit(LayoutOf(s, crc), s, Files(calls)))
    ensures !refused && !failed ==> SaidWhole(s, crc, calls, output, saved)
    ensures !refused && !Fitting(LayoutOf(s, crc), EncodeSummary(s)) ==> output == [] && saved == []
    ensures !refused && failed && Fitting(LayoutOf(s, crc), EncodeSummary(s)) ==>
              SaidShort(s, crc, calls, output, saved)
    ensures !refused && Fitting(LayoutOf(s, crc), EncodeSummary(s)) ==>
              var l, files := LayoutOf(s, crc), Files(calls);
              && |saved| <= |files| && saved == Names(files)[..|saved|]
              && ((forall i :: 0 <= i < |saved| ==> HeldIn(l, s, files, output, i)) <==> RecordsFit(l, s, files))
  {
    hide ValidLayout, Pack, Files, RecordsFit, Fitting, EncodeSummary, Stream, Slots, DoneNames, SlotsFit, Writer.Valid,
      WrittenSlots, Names, HeldIn, FailingCall, SlotsAtFailure, SaveSetSlots, BlocksOf, Excess;
    refused, failed, output, saved := !Allowed(s), false, [], [];
    AllowedIs(s, crc);
    if refused {
      return;
    }
    var w := Write(LayoutOf(s, crc), BuffersOf(s), s, calls);
    w.Close();
    failed, output, saved := w.failed, w.output, w.saved;
    Closed(s, crc, calls, w.slots, output, w.kept, failed);
    if Fitting(LayoutOf(s, crc), EncodeSummary(s)) {
      ReportsHeld(s, crc, calls, output, saved);
    }
  }

  /** What a closed writer has written, and reported. */
  lemma Closed(s: Summary, crc: bool, calls: seq<Call>, slots: seq<Slot>, output: seq<bytes>, kept: nat, failed: bool)
    requires ValidLayout(LayoutOf(s, crc)) && SlotsFit(LayoutOf(s, crc), slots)
    requires slots == SaveSetSlots(s.groupSize, BlocksOf(Pack(LayoutOf(s, crc), s, calls)))
    requires failed == Pack(LayoutOf(s, crc), s, calls).failed && kept <= |slots| && (!failed ==> kept == |slots|)
    requires var p := Pack(LayoutOf(s, crc), s, calls);
             failed ==>
               p.stopped <= |BlocksOf(p)|
               && kept == Excess(|Slots(s.groupSize, BlocksOf(p)[..p.stopped])|, BuffersOf(s))
    requires output == Stream(LayoutOf(s, crc), slots)[..kept]
    ensures failed <==> !RecordsFit(LayoutOf(s, crc), s, Files(calls))
    ensures !failed ==> SaidWhole(s, crc, calls, output, DoneNames(slots))
    ensures !Fitting(LayoutOf(s, crc), EncodeSummary(s)) ==> output == [] && DoneNames(slots) == []
    ensures failed && Fitting(LayoutOf(s, crc), EncodeSummary(s)) ==> SaidShort(s, crc, calls, output, DoneNames(slots))
  {
    hide Pack, Files, RecordsFit, Fitting, EncodeSummary, Stream, SlotsFit, DoneNames, Names, SaveSetSlots, Slots;
    var l := LayoutOf(s, crc);
    PackFails(l, s, calls);
    if !failed {
      AllDone(l, s, calls, slots);
      FirstFits(l, s, Files(calls), 0);
    } else if !Fitting(l, EncodeSummary(s)) {
      NeverStarted(l, s, calls);
      NoSlots(s.groupSize, BlocksOf(Pack(l, s, calls)));
      BlocksInSlots(s.groupSize, BlocksOf(Pack(l, s, calls)));
      DoneNamesAre(slots);
    } else {
      ClosedFirst(Pack(l, s, calls));
      Reporting.Failed(l, s, calls, slots, BuffersOf(s), kept);
    }
  }

  lemma ClosedFirst(p: Packer)
    ensures p.stopped <= |p.closed| ==> BlocksOf(p)[..p.stopped] == p.closed[..p.stopped]
  {
  }

  lemma NoSlots(g: nat, blocks: seq<DataBlock>)
    ensures Slots(g, blocks[..0]) == []
  {
  }

  /** Everything written, and every file reported. */
  ghost predicate SaidWhole(s: Summary, crc: bool, calls: seq<Call>, output: seq<bytes>, saved: seq<bytes>)
    requires ValidLayout(LayoutOf(s, crc))
  {
    var l, slots := LayoutOf(s, crc), WrittenSlots(s, crc, calls);
    SlotsFit(l, slots) && output == Stream(l, slots) && saved == Names(Files(calls))
  }

  /** What the buffers no longer held at the failing call, and every file up to it. */
  ghost predicate SaidShort(s: Summary, crc: bool, calls: seq<Call>, output: seq<bytes>, saved: seq<bytes>)
    requires ValidLayout(LayoutOf(s, crc))
  {
    var l, m := LayoutOf(s, crc), FailingCall(LayoutOf(s, crc), calls);
    var before := SlotsAtFailure(l, s, calls);
    && m < |calls| && SlotsFit(l, before) && output == Stream(l, before)[..Excess(|before|, BuffersOf(s))]
    && saved == Names(Files(calls[..m + 1]))
  }

  /** The files reported are in the save set exactly when every record fits a block. */
  lemma ReportsHeld(s: Summary, crc: bool, calls: seq<Call>, output: seq<bytes>, saved: seq<bytes>)
    requires ValidLayout(LayoutOf(s, crc)) && Fitting(LayoutOf(s, crc), EncodeSummary(s))
    requires if RecordsFit(LayoutOf(s, crc), s, Files(calls)) then SaidWhole(s, crc, calls, output, saved)
             else SaidShort(s, crc, calls, output, saved)
    ensures var l, files := LayoutOf(s, crc), Files(calls);
            && |saved| <= |files| && saved == Names(files)[..|saved|]
            && ((forall i :: 0 <= i < |saved| ==> HeldIn(l, s, files, output, i)) <==> RecordsFit(l, s, files))
  {
    hide Files, RecordsFit, Fitting, EncodeSummary, EncodeAttributes, Stream, SlotsFit, WrittenSlots, HeldIn,
      SlotsAtFailure;
    var l, files := LayoutOf(s, crc), Files(calls);
    if RecordsFit(l, s, files) {
      forall i: nat | i < |saved|
        ensures HeldIn(l, s, files, output, i)
      {
        AllHeld(s, crc, calls, i);
      }
    } else {
      var m := FailingCall(l, calls);
      FailingIs(l, calls);
      FilesUpTo(calls, m);
      var k := |saved| - 1;
      MisfitNotHeld(l, s, files, output, k);
    }
  }

  lemma {:induction false} FilesUpTo(calls: seq<Call>, m: nat)
    requires m < |calls| && calls[m].AddFile?
    ensures var some := Files(calls[..m + 1]);
            some != [] && some <= Files(calls) && some[|some| - 1] == calls[m].entry
  {
    var n := |calls| - 1;
    if m == n {
      assert calls[..m + 1] == calls;
    } else {
      FilesUpTo(calls[..n], m);
      assert calls[..n][..m + 1] == calls[..m + 1];
    }
  }

  /** NewWriter and the calls. */
  method Write(l: Layout, buffers: nat, s: Summary, calls: seq<Call>) returns (w: Writer)
    requires ValidLayout(l)
    ensures fresh(w) && fresh(w.Owned()) && w.l == l && w.buffers == buffers && w.Valid()
    ensures w.packer == Pack(l, s, calls)
  {
    hide ValidLayout, Pack, Files, PutRecord, SummaryRecord, Packing.Add, Writer.Valid, End;
    w := new Writer(l, buffers);
    SummaryBody(s);
    w.Put(SummaryRecord(s), -1);
    NoCalls(l, s);
    for i := 0 to |calls|
      invariant w.Valid() && w.l == l && fresh(w) && fresh(w.Owned()) && w.packer == Pack(l, s, calls[..i])
    {
      NextCall(l, s, calls, i);
      match calls[i]
      case AddFile(e) => w.Add(e, |Files(calls[..i])|);
      case EndBlock => w.EndBlock();
    }
    assert calls[..|calls|] == calls;
  }

  predicate Allowed(s: Summary) {
    MinBlockSize <= s.blockSize <= MaxBlockSize
  }

  lemma AllowedIs(s: Summary, crc: bool)
    ensures Allowed(s) <==> ValidLayout(LayoutOf(s, crc))
  {
  }

  lemma SummaryBody(s: Summary)
    ensures SummaryRecord(s).kind != RecordNull && SummaryRecord(s).body != []
  {
    EncodedSome(SummaryList(s));
  }

  lemma NoCalls(l: Layout, s: Summary)
    requires ValidLayout(l)
    ensures Pack(l, s, []) == PutRecord(l, Packer([], None, NoFile, false, 0), Tagged(-1, SummaryRecord(s)))
  {
    hide PutRecord;
  }

  lemma NextCall(l: Layout, s: Summary, calls: seq<Call>, i: nat)
    requires ValidLayout(l) && i < |calls|
    ensures var p := Pack(l, s, calls[..i]);
            Pack(l, s, calls[..i + 1]) ==
            match calls[i]
            case AddFile(e) => Packing.Add(l, p, |Files(calls[..i])|, e)
            case EndBlock => if p.open.Some? then End(p) else p
  {
    hide Packing.Add;
    assert calls[..i + 1][..i] == calls[..i];
    CallsOf(l, s, calls[..i + 1]);
  }

  /** Every file is reported once, in order. */
  lemma AllDone(l: Layout, s: Summary, calls: seq<Call>, slots: seq<Slot>)
    requires ValidLayout(l) && RecordsFit(l, s, Files(calls))
    requires slots == SaveSetSlots(l.group, BlocksOf(Pack(l, s, calls)))
    ensures DoneNames(slots) == Names(Files(calls))
  {
    hide Pack, Files, RecordsFit, Slots, DoneNames, Total, Fed, BlocksIn, Dones, Names;
    var files := Files(calls);
    PackSound(l, s, calls, files);
    BlocksInSlots(l.group, BlocksOf(Pack(l, s, calls)));
    DoneNamesAre(slots);
    assert files[..|files|] == files;
  }

  // ---- A file reported and not saved ----

  const SmallSummary: Summary := EmptySummary.(blockSize := MinBlockSize)

  const NameA: bytes := [65]

  /** A file named A with an access control list of 2000 bytes and no data. */
  const LargeAcl: Entry := Entry(EmptyAttributes.(name := NameA, acl := Zeros(2000)), 0, [])

  lemma {:induction false} ListBytesLast(list: seq<Attribute>, a: Attribute)
    ensures |ListBytes(list + [a])| == |ListBytes(list)| + 4 + |a.value|
  {
    hide EntryBytes;
    if list == [] {
      assert [] + [a] == [a] && [a][1..] == [];
    } else {
      ListBytesLast(list[1..], a);
      assert (list + [a])[1..] == list[1..] + [a];
    }
  }

  lemma {:induction false} SmallList(list: seq<Attribute>)
    requires forall i :: 0 <= i < |list| ==> |list[i].value| <= 12
    ensures |ListBytes(list)| <= 16 * |list|
  {
    hide EntryBytes;
    if list != [] {
      SmallList(list[1..]);
    }
  }

  lemma SmallSummaryFits()
    ensures ValidLayout(LayoutOf(SmallSummary, true))
    ensures Fitting(LayoutOf(SmallSummary, true), EncodeSummary(SmallSummary))
  {
    hide LE, ListBytes;
    SmallList(SummaryList(SmallSummary));
  }

  lemma LargeAclMisfits()
    ensures Misfit(LayoutOf(SmallSummary, true), AddFile(LargeAcl))
  {
    hide LE, ListBytes, FileFront, FileBack, FileStatus, Zeros;
    var f := LargeAcl.attrs;
    ListBytesLast(FileFront(f) + FileBack(f) + FileStatus(f), Attribute(78, f.acl));
  }

  lemma OneBlockWaits()
    requires Fitting(LayoutOf(SmallSummary, true), EncodeSummary(SmallSummary))
    ensures |Slots(0, BlocksOf(Pack(LayoutOf(SmallSummary, true), SmallSummary, [])))| == 1
  {
    hide Fitting, EncodeSummary;
    var l := LayoutOf(SmallSummary, true);
    CallsOf(l, SmallSummary, []);
    EmptyAt();
    hide At, PaddedSize;
    var p := Start(l, SmallSummary);
    assert p.closed == [] && p.open.Some?;
    var b := BlocksOf(p);
    assert b[..0] == [];
  }

  /** Adding that file alone, in the smallest blocks: A is reported saved, and nothing is written. */
  lemma ReportedUnsaved(output: seq<bytes>, saved: seq<bytes>)
    requires ValidLayout(LayoutOf(SmallSummary, true))
    requires SaidShort(SmallSummary, true, [AddFile(LargeAcl)], output, saved)
    ensures var l, files := LayoutOf(SmallSummary, true), Files([AddFile(LargeAcl)]);
            && Fitting(l, EncodeSummary(SmallSummary)) && !RecordsFit(l, SmallSummary, files) && files == [LargeAcl]
            && saved == [NameA] && output == [] && !HeldIn(l, SmallSummary, files, output, 0)
  {
    hide Fitting, EncodeSummary, EncodeAttributes, Stream, SlotsFit, HeldIn, Pack, Slots, Names;
    var l, calls := LayoutOf(SmallSummary, true), [AddFile(LargeAcl)];
    SmallSummaryFits();
    LargeAclMisfits();
    OneBlockWaits();
    assert calls[..0] == [] && calls[..1] == calls;
    assert Files(calls) == Files([]) + [LargeAcl];
    assert Files(calls)[0] == LargeAcl;
    assert FailingCall(l, calls) == 0;
    MisfitNotHeld(l, SmallSummary, Files(calls), output, 0);
    NamesNext(Files(calls), 0);
    assert Files(calls)[..1] == Files(calls) && Files(calls)[..0] == [];
    assert Names([]) == [];
  }
}
