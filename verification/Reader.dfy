/** The save set reader, its blocks repaired and its files gathered in place as reader.go does it. */
module SaveSetReader {
  import opened Bytes
  import opened Crc
  import opened Blocks
  import opened AttributeLists
  import opened SaveSetStream
  import opened Groups
  import opened Reading
  import opened SaveSetWriter

  /** The group's blocks from start up to j, but for the i-th. */
  function OthersTo(blocks: seq<bytes>, start: nat, j: nat, i: nat): seq<bytes>
    requires start <= i && start <= j <= |blocks|
  {
    if j <= i then blocks[start..j] else blocks[start..i] + blocks[i + 1..j]
  }

  lemma OthersNext(blocks: seq<bytes>, start: nat, j: nat, i: nat, size: nat)
    requires start <= i && start <= j < |blocks| && AllSized(blocks, size)
    ensures AllSized(OthersTo(blocks, start, j, i), size) && AllSized(OthersTo(blocks, start, j + 1, i), size)
    ensures j == i ==> OthersTo(blocks, start, j + 1, i) == OthersTo(blocks, start, j, i)
    ensures j != i ==>
              XorAll(OthersTo(blocks, start, j + 1, i), size)
                == Xor(XorAll(OthersTo(blocks, start, j, i), size), blocks[j])
  {
    hide XorAll;
    if j == i {
      assert blocks[start..i] + blocks[i + 1..j + 1] == blocks[start..j];
    } else {
      assert OthersTo(blocks, start, j + 1, i) == OthersTo(blocks, start, j, i) + [blocks[j]];
      XorAllAppend(OthersTo(blocks, start, j, i), blocks[j], size);
    }
  }

  /** A block's stamp and checks written over what the others leave of it (the end of rebuild). */
  method Restamp(a: array<byte>, p: bytes, number: uint32)
    requires a.Length == |p| >= HeaderSize
    modifies a
    ensures a[..] == Seal(Stamp(old(a[..]), Word(p, 2), Word(p, 4), ApplicationData, number, Long(p, 44)),
              HasCRC(Long(p, 44)))
  {
    hide PutWord, PutLong, Seal, Word, Long, HasCRC;
    StoreWord(a, 0, HeaderSize);
    StoreWord(a, 2, Word(p, 2));
    StoreWord(a, 4, Word(p, 4));
    StoreWord(a, 6, ApplicationData);
    StoreLong(a, 8, number);
    StoreLong(a, 44, Long(p, 44));
    SealBlock(a, HasCRC(Long(p, 44)));
  }

  /** The exclusive or of a group's other blocks, if all are intact. */
  method XorOthers(blocks: seq<bytes>, size: nat, start: nat, xor: nat, i: nat, checkCRC: bool)
    returns (ok: bool, rebuilt: array<byte>)
    requires size >= HeaderSize && AllSized(blocks, size) && start <= i < xor < |blocks|
    ensures ok == OthersIntact(blocks, start, xor, i, checkCRC) && fresh(rebuilt) && rebuilt.Length == size
    ensures AllSized(Others(blocks, start, xor, i), size)
    ensures ok ==> rebuilt[..] == XorAll(Others(blocks, start, xor, i), size)
  {
    hide Intact, XorAll;
    rebuilt := new byte[size](k => 0);
    XorStart(blocks, start, i, size);
    assert rebuilt[..] == Zeros(size);
    OthersAll(blocks, start, xor, i, size);
    for j := start to xor + 1
      invariant forall k :: start <= k < j && k != i ==> Intact(blocks[k], checkCRC)
      invariant AllSized(OthersTo(blocks, start, j, i), size)
      invariant rebuilt[..] == XorAll(OthersTo(blocks, start, j, i), size)
    {
      OthersNext(blocks, start, j, i, size);
      if j != i {
        if !Intact(blocks[j], checkCRC) {
          return false, rebuilt;
        }
        XorInto(rebuilt, blocks[j]);
      }
    }
    ok := true;
  }

  lemma XorStart(blocks: seq<bytes>, start: nat, i: nat, size: nat)
    requires start <= i && start <= |blocks|
    ensures AllSized(OthersTo(blocks, start, start, i), size)
    ensures XorAll(OthersTo(blocks, start, start, i), size) == Zeros(size)
  {
    assert OthersTo(blocks, start, start, i) == [];
  }

  lemma OthersAll(blocks: seq<bytes>, start: nat, xor: nat, i: nat, size: nat)
    requires start <= i < xor < |blocks| && AllSized(blocks, size)
    ensures OthersTo(blocks, start, xor + 1, i) == Others(blocks, start, xor, i)
    ensures AllSized(Others(blocks, start, xor, i), size)
  {
  }

  class Reader {
    var recovered: seq<nat>
    var lost: seq<nat>
    var files: seq<File>
    var summary: Summary

    constructor ()
      ensures recovered == [] && lost == [] && files == [] && summary == EmptySummary
    {
      recovered, lost, files, summary := [], [], [], EmptySummary;
    }

    /** rebuild. */
    method Rebuild(blocks: array<bytes>, size: nat, i: nat, group: nat, checkCRC: bool) returns (ok: bool)
      requires size >= HeaderSize && AllSized(blocks[..], size) && i < blocks.Length
      modifies this`recovered, blocks
      ensures AllSized(blocks[..], size)
      ensures match Reading.Rebuild(old(blocks[..]), size, i, group, checkCRC)
              case Hopeless => !ok && blocks[..] == old(blocks[..]) && recovered == old(recovered)
              case Harmless => ok && blocks[..] == old(blocks[..]) && recovered == old(recovered)
              case Restored(b) => ok && blocks[..] == old(blocks[..])[i := b] && recovered == old(recovered) + [i + 1]
    {
      hide Intact, GroupStart, GroupEnd, Application, OthersIntact, XorAll, Seal, Stamp, Word, Long, HasCRC, Others;
      if group == 0 {
        return false;
      }
      ghost var was := blocks[..];
      InGroup(group, i, blocks.Length);
      var start, xor := GroupStart(group, i), GroupEnd(group, i, blocks.Length);
      if i == xor || Application(blocks[i]) == ApplicationXOR {
        return true;
      }
      var parity := blocks[xor];
      if !Intact(parity, checkCRC) || Application(parity) != ApplicationXOR {
        return false;
      }
      var whole, rebuilt := XorOthers(blocks[..], size, start, xor, i, checkCRC);
      if !whole {
        return false;
      }
      Restamp(rebuilt, parity, Number(i + 1));
      blocks[i] := rebuilt[..];
      assert blocks[..] == was[i := rebuilt[..]];
      recovered := recovered + [i + 1];
      ok := true;
    }

    /** repair: the blocks' damage mended in place where it can be. */
    method RepairBlocks(blocks: array<bytes>, size: nat, checkCRC: bool)
      requires size >= HeaderSize && AllSized(blocks[..], size) && blocks.Length > 0 && recovered == [] && lost == []
      modifies this`recovered, this`lost, blocks
      ensures Repairing(blocks[..], recovered, lost) == Repair(old(blocks[..]), size, checkCRC)
    {
      hide Intact, GroupSize, Reading.Rebuild, BadFrom;
      ghost var was := blocks[..];
      var bad := BadFrom(blocks[..], checkCRC, 0);
      if bad == [] {
        return;
      }
      var group := GroupSize(blocks[..], checkCRC);
      for k := 0 to |bad|
        invariant AllSized(blocks[..], size)
        invariant Repairing(blocks[..], recovered, lost)
                    == RepairEach(Repairing(was, [], []), size, bad[..k], group, checkCRC)
      {
        assert bad[..k + 1][..k] == bad[..k];
        var i := bad[k];
        var ok := Rebuild(blocks, size, i, group, checkCRC);
        if !ok {
          lost := lost + [i + 1];
        }
      }
      assert bad[..|bad|] == bad;
    }

    /** One record's part in decode; reading says whether the last file is the one being read. */
    method DecodeRecord(i: nat, n: nat, r: Record, reading: bool, ghost lastLost: bool) returns (ok: bool, more: bool)
      requires reading ==> files != []
      modifies this`files, this`summary
      ensures var res := TakeRecord(Decoding(old(files), reading, lastLost, old(summary)), i, n, r);
              ok == res.Some? && (ok ==> res.value == Decoding(files, more, lastLost, summary))
    {
      hide ParseSummary, ParseAttributes;
      ok, more := true, reading;
      if r.kind == RecordSummary {
        if i == 0 && n == 0 {
          var s, whole := ReadSummary(r.body);
          assert ParsedSummary(s, whole) == ParseSummary(r.body);
          summary, ok := s, whole;
        }
      } else if r.kind == RecordFile {
        var attrs, whole := ReadAttributes(r.body);
        assert ParsedAttributes(attrs, whole) == ParseAttributes(r.body);
        if !whole {
          return false, false;
        }
        files, more := files + [File(attrs, r.flags, [])], true;
      } else if r.kind == RecordVBN {
        if reading && r.address > 0 {
          var f := files[|files| - 1];
          files := files[..|files| - 1] + [f.(runs := f.runs + [Run(r.address, r.body)])];
        }
      }
    }

    /** One block's records. */
    method DecodeRecords(i: nat, records: seq<Record>, started: bool) returns (ok: bool, reading: bool)
      requires started ==> files != []
      modifies this`files, this`summary
      ensures var res := TakeRecords(Decoding(old(files), started, false, old(summary)), i, records);
              ok == res.Some? && (ok ==> res.value == Decoding(files, reading, false, summary))
    {
      hide TakeRecord;
      ok, reading := true, started;
      ghost var d := Decoding(files, started, false, summary);
      for n := 0 to |records|
        invariant reading ==> files != []
        invariant TakeRecords(d, i, records[..n]) == Some(Decoding(files, reading, false, summary))
      {
        assert records[..n + 1][..n] == records[..n];
        ok, reading := DecodeRecord(i, n, records[n], reading, false);
        if !ok {
          NoneStays(d, i, records, n + 1);
          return;
        }
      }
      assert records[..|records|] == records;
    }

    /** decode: the records of the blocks not lost put together into files. */
    method DecodeBlocks(blocks: seq<bytes>) returns (ok: bool)
      requires AllHeaded(blocks) && files == [] && summary == EmptySummary
      modifies this`files, this`summary
      ensures var d := Decode(blocks, lost);
              ok == d.Some? && (ok ==> files == d.value.files && summary == d.value.summary)
    {
      hide TakeRecords, RecordsFrom, ParseCurrent, Application;
      ok := true;
      if 1 in lost {
        return false;
      }
      var reading, lastLost := false, false;
      for i := 0 to |blocks|
        invariant ok && (reading ==> files != [])
        invariant TakeBlocks(blocks[..i], lost) == Some(Decoding(files, reading, lastLost, summary))
      {
        assert blocks[..i + 1][..i] == blocks[..i];
        if i + 1 in lost {
          lastLost := true;
        } else if Application(blocks[i]) == ApplicationData {
          if lastLost && reading && ParseCurrent(blocks[i]).name != files[|files| - 1].attrs.name {
            reading := false;
          }
          lastLost := false;
          var records, whole := Records(blocks[i]);
          assert Parsed(records, whole) == RecordsFrom(blocks[i], HeaderSize);
          ok, reading := DecodeRecords(i, records, reading);
          if !whole || !ok || (i == 0 && (records == [] || records[0].kind != RecordSummary)) {
            NothingStays(blocks, lost, i + 1);
            return false;
          }
        }
      }
      assert blocks[..|blocks|] == blocks;
    }
  }

  lemma {:induction false} NoneStays(d: Decoding, i: nat, records: seq<Record>, n: nat)
    requires DecodingSound(d) && n <= |records| && TakeRecords(d, i, records[..n]).None?
    ensures TakeRecords(d, i, records).None?
  {
    hide TakeRecord;
    if n == |records| {
      assert records[..n] == records;
    } else {
      assert records[..|records| - 1][..n] == records[..n];
      NoneStays(d, i, records[..|records| - 1], n);
    }
  }

  lemma {:induction false} NothingStays(blocks: seq<bytes>, lost: seq<nat>, n: nat)
    requires AllHeaded(blocks) && n <= |blocks| && TakeBlocks(blocks[..n], lost).None?
    ensures TakeBlocks(blocks, lost).None?
  {
    hide TakeBlock;
    if n == |blocks| {
      assert blocks[..n] == blocks;
    } else {
      assert blocks[..|blocks| - 1][..n] == blocks[..n];
      NothingStays(blocks[..|blocks| - 1], lost, n);
    }
  }

  /** The whole blocks of an image, as Read reads them. */
  method ReadWhole(image: bytes, size: nat) returns (blocks: array<bytes>)
    requires size > 0
    ensures fresh(blocks) && blocks[..] == Chop(image, size)
  {
    var whole: seq<bytes> := [];
    var at := 0;
    while at + size <= |image|
      invariant at <= |image| && whole + Chop(image[at..], size) == Chop(image, size)
      decreases |image| - at
    {
      assert image[at..][..size] == image[at..at + size] && image[at..][size..] == image[at + size..];
      whole := whole + [image[at..at + size]];
      at := at + size;
    }
    assert Chop(image[at..], size) == [];
    blocks := new bytes[|whole|](i requires 0 <= i < |whole| => whole[i]);
    assert blocks[..] == whole;
  }

  /** Read. */
  method ReadImage(image: bytes, checkCRC: bool) returns (ss: Option<SaveSet>)
    ensures ss == Read(image, checkCRC)
  {
    hide Plausible, Repair, Decode, Chop, Long;
    if |image| < HeaderSize || !Plausible(image[..HeaderSize]) {
      return None;
    }
    PlausibleSize(image[..HeaderSize]);
    var size: nat := Long(image[..HeaderSize], 40);
    var blocks := ReadWhole(image, size);
    if blocks.Length == 0 {
      return None;
    }
    ghost var was := blocks[..];
    var r := new Reader();
    r.RepairBlocks(blocks, size, checkCRC);
    var ok := r.DecodeBlocks(blocks[..]);
    ss := if ok then Some(SaveSet(size, blocks.Length, r.summary, r.files, r.recovered, r.lost)) else None;
  }

  lemma PlausibleSize(header: bytes)
    requires |header| >= HeaderSize && Plausible(header)
    ensures Long(header, 40) >= MinBlockSize
  {
  }
}
