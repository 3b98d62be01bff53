/** What File's methods give of the files read from a damaged save set: from the calls to the bytes. */
module Salvage {
  import opened Bytes
  import opened Blocks
  import opened AttributeLists
  import opened SaveSetStream
  import opened Groups
  import opened Packing
  import opened Reading
  import opened Recovery
  import opened Restoring
  import opened FileData
  import opened SaveSets

  // ---- What is received ----

  /** A record holding virtual block v of the file is in a block received, or rebuilt. */
  ghost predicate BlockReceived(c: Case, owner: int, v: nat) {
    exists i: nat, t ::
      i < |c.slots| && !Gone(c, i) && c.slots[i].Holds? && t in c.slots[i].block.records && HoldsBlock(t, owner, v)
  }

  /** And the file's attributes. */
  ghost predicate FileReceived(c: Case, owner: int) {
    exists i: nat, t ::
      i < |c.slots| && !Gone(c, i) && c.slots[i].Holds? && t in c.slots[i].block.records && IsFileOf(t, owner)
  }

  predicate IsFileOf(t: Tagged, owner: int) {
    t.rec.kind == RecordFile && t.owner == owner
  }

  lemma BlockReceivedIs(c: Case, lost: seq<nat>, owner: int, v: nat)
    requires forall i: nat :: i < |c.slots| ==> (i + 1 in lost <==> Gone(c, i))
    ensures BlockReceived(c, owner, v) <==> exists t :: Held(c.slots, lost, t) && HoldsBlock(t, owner, v)
  {
    hide Gone, HoldsBlock;
    if BlockReceived(c, owner, v) {
      var i: nat, t :| i < |c.slots| && !Gone(c, i) && c.slots[i].Holds? && t in c.slots[i].block.records
      && HoldsBlock(t, owner, v);
      assert Held(c.slots, lost, t);
    }
    if t :| Held(c.slots, lost, t) && HoldsBlock(t, owner, v) {
      var i: nat :| i < |c.slots| && i + 1 !in lost && c.slots[i].Holds? && t in c.slots[i].block.records;
      assert !Gone(c, i);
    }
  }

  lemma {:induction false} SurvivorsAre(ts: seq<Tagged>, owner: int)
    ensures owner in Survivors(ts) <==> exists t :: t in ts && IsFileOf(t, owner)
  {
    if ts != [] {
      var n := |ts| - 1;
      SurvivorsAre(ts[..n], owner);
      assert ts == ts[..n] + [ts[n]];
      assert forall u :: u in ts <==> u in ts[..n] || u == ts[n];
      assert forall u :: u in ts[..n] && IsFileOf(u, owner) ==> u in ts;
      assert IsFileOf(ts[n], owner) ==> ts[n] in ts;
    }
  }

  lemma FileReceivedIs(c: Case, lost: seq<nat>, owner: int)
    requires forall i: nat :: i < |c.slots| ==> (i + 1 in lost <==> Gone(c, i))
    ensures FileReceived(c, owner) <==> owner in Survivors(KeptOf(c.slots, lost))
  {
    hide Gone, KeptOf, Survivors, IsFileOf, Held;
    var kept := KeptOf(c.slots, lost);
    SurvivorsAre(kept, owner);
    forall t
      ensures t in kept <==> Held(c.slots, lost, t)
    {
      KeptAreHeld(c.slots, lost, t);
    }
    if FileReceived(c, owner) {
      var i: nat, t :| i < |c.slots| && !Gone(c, i) && c.slots[i].Holds? && t in c.slots[i].block.records
      && IsFileOf(t, owner);
      HeldAt(c.slots, lost, t, i);
    }
    if t :| Held(c.slots, lost, t) && IsFileOf(t, owner) {
      var i := HeldSomewhere(c.slots, lost, t);
      assert !Gone(c, i);
    }
  }

  lemma HeldAt(slots: seq<Slot>, lost: seq<nat>, t: Tagged, i: nat)
    requires i < |slots| && i + 1 !in lost && slots[i].Holds? && t in slots[i].block.records
    ensures Held(slots, lost, t)
  {
  }

  lemma HeldSomewhere(slots: seq<Slot>, lost: seq<nat>, t: Tagged) returns (i: nat)
    requires Held(slots, lost, t)
    ensures i < |slots| && i + 1 !in lost && slots[i].Holds? && t in slots[i].block.records
  {
    i :| i < |slots| && i + 1 !in lost && slots[i].Holds? && t in slots[i].block.records;
  }

  // ---- One file ----

  /** The bytes Data gives: its own where they were received, zeros elsewhere, to the last block used or received. */
  ghost predicate DataReceived(c: Case, e: Entry, owner: int, data: bytes) {
    && |data| % VBNSize == 0 && Used(e.attrs) <= |data| / VBNSize
    && (|data| / VBNSize == Used(e.attrs) || BlockReceived(c, owner, |data| / VBNSize))
    && (forall v: nat :: BlockReceived(c, owner, v) ==> v <= |data| / VBNSize)
    && forall k: nat :: k < |data| ==> DataAtReceived(c, e, owner, data, k)
  }

  ghost predicate DataAtReceived(c: Case, e: Entry, owner: int, data: bytes, k: nat)
    requires k < |data|
  {
    if BlockReceived(c, owner, k / VBNSize + 1) then k < |Whole(e.data)| && data[k] == Whole(e.data)[k]
    else data[k] == 0
  }

  /** The used virtual blocks of which no record was received. */
  ghost predicate MissingReceived(c: Case, e: Entry, owner: int, missing: seq<Range>) {
    Maximal(missing)
    && forall v: nat :: InRanges(missing, v) <==> 1 <= v <= Used(e.attrs) && !BlockReceived(c, owner, v)
  }

  /** What is read of e, and what Data and Missing then give of it. */
  ghost predicate Salvaged(c: Case, e: Entry, owner: int, f: File, data: bytes, missing: seq<Range>) {
    && f.attrs == Kept(e.attrs) && f.flags == e.flags && Addressable(f.runs)
    && (HeaderOnly(f) <==> NoBackup(e.attrs) && forall v: nat :: !BlockReceived(c, owner, v))
    && (!HeaderOnly(f) && IsData(f, data) ==> DataReceived(c, e, owner, data))
    && (!HeaderOnly(f) && AreMissing(f, missing) ==> MissingReceived(c, e, owner, missing))
  }

  /** The longest reach is of the blocks used, or of a run. */
  lemma {:induction false} ExtentIs(used: nat, runs: seq<Run>, w: bytes)
    requires Consistent(runs, w)
    ensures Extent(used, runs) == used || Covered(runs, Extent(used, runs))
  {
    if runs != [] {
      var n := |runs| - 1;
      ExtentIs(used, runs[..n], w);
      assert Piece(runs[n], w);
      assert runs[..n] + [runs[n]] == runs;
      CoveredLast(runs[..n], runs[n], Extent(used, runs));
    }
  }

  lemma RunsSome(runs: seq<Run>, w: bytes)
    requires Consistent(runs, w)
    ensures runs == [] <==> forall v: nat :: !Covered(runs, v)
  {
    if runs != [] {
      assert Piece(runs[0], w);
      assert Covered(runs, runs[0].vbn);
    }
  }

  lemma LeftConsistent(s: Summary, files: seq<Entry>, slots: seq<Slot>, lost: seq<nat>, owner: nat)
    requires Left(s, files, slots) && owner < |files|
    ensures Consistent(Runs(KeptOf(slots, lost), owner), Whole(files[owner].data))
  {
    hide KeptOf, Runs, RecordsOf, Fed, Chained, AllHold, Whole, Consistent;
    ChainedHolds(s, files, RecordsOf(slots));
    KeptHolds(files, slots, lost);
    RunsConsistent(files, KeptOf(slots, lost), owner);
  }

  lemma CoveredReceived(c: Case, s: Summary, files: seq<Entry>, lost: seq<nat>, owner: nat, v: nat)
    requires Left(s, files, c.slots) && owner < |files|
    requires forall i: nat :: i < |c.slots| ==> (i + 1 in lost <==> Gone(c, i))
    ensures Covered(Runs(KeptOf(c.slots, lost), owner), v) <==> BlockReceived(c, owner, v)
  {
    hide Left, Gone, KeptOf, Runs, Covered, BlockReceived, HoldsBlock, Held;
    BlockLeft(s, files, c.slots, lost, owner, v);
    BlockReceivedIs(c, lost, owner, v);
  }

  lemma SalvagedData(c: Case, s: Summary, files: seq<Entry>, lost: seq<nat>, owner: nat, runs: seq<Run>, data: bytes)
    requires Left(s, files, c.slots) && owner < |files| && runs == Runs(KeptOf(c.slots, lost), owner)
    requires forall v: nat :: Covered(runs, v) <==> BlockReceived(c, owner, v)
    requires var n := Extent(Used(files[owner].attrs), runs);
             Addressable(runs) && (forall i :: 0 <= i < |runs| ==> runs[i].vbn - 1 <= n) && data == LaidAll(n, runs)
    ensures DataReceived(c, files[owner], owner, data)
  {
    hide Left, KeptOf, Runs, Covered, BlockReceived, LaidAll, Whole, Used, Consistent;
    var used := Used(files[owner].attrs);
    var n := Extent(used, runs);
    assert |data| / VBNSize == n;
    LeftConsistent(s, files, c.slots, lost, owner);
    ExtentIs(used, runs, Whole(files[owner].data));
    ExtentAtLeast(used, runs);
    hide Extent;
    forall v: nat | BlockReceived(c, owner, v)
      ensures v <= n
    {
      CoveredExtent(used, runs, v);
    }
    forall k: nat | k < |data|
      ensures DataAtReceived(c, files[owner], owner, data, k)
    {
      DataLeft(s, files, c.slots, lost, owner, runs, k);
    }
  }

  lemma SalvagedFile(c: Case, s: Summary, files: seq<Entry>, lost: seq<nat>, owner: nat, data: bytes,
                     missing: seq<Range>)
    requires Left(s, files, c.slots) && owner < |files|
    requires forall i: nat :: i < |c.slots| ==> (i + 1 in lost <==> Gone(c, i))
    ensures Salvaged(c, files[owner], owner, FileOf(files[owner], Runs(KeptOf(c.slots, lost), owner)), data, missing)
  {
    hide Left, Gone, KeptOf, Runs, Covered, BlockReceived, LaidAll, Whole, Used, Consistent, Kept, NoBackup, InRanges,
      Maximal, DataReceived, Extent, Piece;
    var e, runs := files[owner], Runs(KeptOf(c.slots, lost), owner);
    forall v: nat
      ensures Covered(runs, v) <==> BlockReceived(c, owner, v)
    {
      CoveredReceived(c, s, files, lost, owner, v);
    }
    LeftConsistent(s, files, c.slots, lost, owner);
    RunsSome(runs, Whole(e.data));
    LeftAddressable(s, files, c.slots, owner, runs);
    SameUsed(e.attrs);
    SameBackup(e.attrs);
    var f := FileOf(e, runs);
    if !HeaderOnly(f) && IsData(f, data) {
      SalvagedData(c, s, files, lost, owner, runs, data);
    }
  }

  lemma LeftAddressable(s: Summary, files: seq<Entry>, slots: seq<Slot>, owner: nat, runs: seq<Run>)
    requires Left(s, files, slots) && owner < |files| && Consistent(runs, Whole(files[owner].data))
    ensures Addressable(runs)
  {
    hide Fed, Chained, Consistent, Whole;
    assert Countable(files[owner]);
    ConsistentAddressable(runs, Whole(files[owner].data));
  }

  lemma SameBackup(a: Attributes)
    ensures NoBackup(Kept(a)) <==> NoBackup(a)
  {
  }

  // ---- The save set ----

  /** The files whose attributes were received, in order, with what was received of each. */
  ghost predicate AllSalvaged(c: Case, files: seq<Entry>, owners: seq<int>, read: seq<File>, data: bytes,
                              missing: seq<Range>) {
    && |read| == |owners| && InRange(files, owners) && Increasing(owners)
    && (forall o :: o in owners <==> FileReceived(c, o))
    && forall j: nat :: j < |read| ==> Salvaged(c, files[owners[j]], owners[j], read[j], data, missing)
  }

  /**
   * From the calls to the bytes, of a save set damaged in any way a check shows: where block 1 is not beyond repair and
   * the names are told apart, just the files whose attributes were received, or rebuilt, are read. Whatever Missing
   * gives of one is exactly the blocks it uses of which no record was received; whatever Data gives, its own bytes
   * wherever one was, and zeros elsewhere.
   */
  lemma FromDamage(s: Summary, crc: bool, calls: seq<Call>, received: seq<bytes>, checkCRC: bool, data: bytes,
                   missing: seq<Range>)
    requires Writes(s, crc, Files(calls)) && AllCountable(Files(calls))
    requires SlotsFit(LayoutOf(s, crc), WrittenSlots(s, crc, calls))
    requires var c := CaseOf(s, crc, calls, received, checkCRC);
             Given(c, s, Files(calls)) && !Gone(c, 0) && NamesTold(c, Files(calls))
    ensures var c, ss := CaseOf(s, crc, calls, received, checkCRC), Read(Join(received), checkCRC);
            && ss.Some? && ReadsAs(c, s, Files(calls), ss.value)
            && AllSalvaged(c, Files(calls), Survivors(KeptOf(c.slots, ss.value.lost)), ss.value.files, data, missing)
  {
    hide RecordsFit, AllCountable, SlotsFit, Stream, Read, WrittenSlots, Files, Fed, RecordsOf, Chained, Total, Join,
      SaveSetSound, Complete, Flatten, Pack, Given, Gone, NamesTold, ReadsAs, AllSalvaged;
    var c, files := CaseOf(s, crc, calls, received, checkCRC), Files(calls);
    WrittenSound(s, crc, calls);
    Confusion.SoundChained(LayoutOf(s, crc), s, files, c.slots);
    ReadDamagedExactly(c, s, files);
    AllFilesSalvaged(c, s, files, Read(Join(received), checkCRC).value, data, missing);
  }

  lemma AllFilesSalvaged(c: Case, s: Summary, files: seq<Entry>, ss: SaveSet, data: bytes, missing: seq<Range>)
    requires Left(s, files, c.slots) && ReadsAs(c, s, files, ss)
    ensures AllSalvaged(c, files, Survivors(KeptOf(c.slots, ss.lost)), ss.files, data, missing)
  {
    hide Left, Gone, Saved, KeptOf, Survivors, Runs, Salvaged, FileReceived, FileOf, KeptSummary;
    var owners := Survivors(KeptOf(c.slots, ss.lost));
    forall o
      ensures o in owners <==> FileReceived(c, o)
    {
      FileReceivedIs(c, ss.lost, o);
    }
    forall j: nat | j < |ss.files|
      ensures Salvaged(c, files[owners[j]], owners[j], ss.files[j], data, missing)
    {
      SalvagedFile(c, s, files, ss.lost, owners[j], data, missing);
    }
  }
}
