/** A file's data as read back, and the virtual blocks it lacks. */
module FileData {
  import opened Bytes
  import opened Blocks
  import opened AttributeLists
  import opened Reading

  function RunBlocks(r: Run): nat {
    |r.data| / VBNSize
  }

  predicate HeaderOnly(f: File) {
    NoBackup(f.attrs) && f.runs == []
  }

  /** No virtual block number of the file's runs passes the largest there is. */
  predicate Addressable(runs: seq<Run>) {
    forall i :: 0 <= i < |runs| ==> 0 < runs[i].vbn && runs[i].vbn - 1 + RunBlocks(runs[i]) < 0xFFFF_FFFF
  }

  /** Virtual block v is in a run. */
  predicate Covered(runs: seq<Run>, v: nat) {
    exists i :: 0 <= i < |runs| && runs[i].vbn <= v < runs[i].vbn + RunBlocks(runs[i])
  }

  // ---- Data ----

  /** How many virtual blocks: those used, or as many as the runs reach. */
  function Extent(used: nat, runs: seq<Run>): nat {
    if runs == [] then used
    else
      var r := runs[|runs| - 1];
      var reach := Extent(used, runs[..|runs| - 1]);
      if reach < r.vbn - 1 + RunBlocks(r) then r.vbn - 1 + RunBlocks(r) else reach
  }

  lemma {:induction false} ExtentReaches(used: nat, runs: seq<Run>, i: nat)
    requires i < |runs|
    ensures runs[i].vbn - 1 + RunBlocks(runs[i]) <= Extent(used, runs) && used <= Extent(used, runs)
  {
    if i < |runs| - 1 {
      ExtentReaches(used, runs[..|runs| - 1], i);
    } else {
      ExtentAtLeast(used, runs[..i]);
    }
  }

  lemma {:induction false} ExtentAtLeast(used: nat, runs: seq<Run>)
    ensures used <= Extent(used, runs)
  {
    if runs != [] {
      ExtentAtLeast(used, runs[..|runs| - 1]);
    }
  }

  /** data laid over block from offset at on, as much of it as fits. */
  function Laid(block: bytes, at: nat, data: bytes): (r: bytes)
    requires at <= |block|
    ensures |r| == |block|
    ensures forall k :: 0 <= k < |block| ==> r[k] == if at <= k < at + |data| then data[k - at] else block[k]
  {
    if at + |data| <= |block| then Put(block, at, data) else Put(block, at, data[..|block| - at])
  }

  function LaidAll(blocks: nat, runs: seq<Run>): (r: bytes)
    requires Addressable(runs) && forall i :: 0 <= i < |runs| ==> runs[i].vbn - 1 <= blocks
    ensures |r| == blocks * VBNSize
  {
    if runs == [] then Zeros(blocks * VBNSize)
    else Laid(LaidAll(blocks, runs[..|runs| - 1]), (runs[|runs| - 1].vbn - 1) * VBNSize, runs[|runs| - 1].data)
  }

  /** The runs laid over zeros, to the last block used or reached; nothing of a file saved without its data. */
  predicate IsData(f: File, data: bytes)
    requires Addressable(f.runs)
  {
    if HeaderOnly(f) then data == []
    else
      var n := Extent(Used(f.attrs), f.runs);
      (forall i :: 0 <= i < |f.runs| ==> f.runs[i].vbn - 1 <= n) && data == LaidAll(n, f.runs)
  }

  /** File.Data: later runs over earlier ones, zeros where there is none. */
  method Data(f: File) returns (data: bytes)
    requires Addressable(f.runs)
    ensures IsData(f, data)
  {
    hide Used, NoBackup, Extent, LaidAll;
    if HeaderOnly(f) {
      return [];
    }
    var blocks := Reach(f);
    data := LayOut(blocks, f.runs);
  }

  method Reach(f: File) returns (blocks: nat)
    ensures blocks == Extent(Used(f.attrs), f.runs) && forall i :: 0 <= i < |f.runs| ==> f.runs[i].vbn - 1 <= blocks
  {
    hide Used;
    blocks := Used(f.attrs);
    for i := 0 to |f.runs|
      invariant blocks == Extent(Used(f.attrs), f.runs[..i])
    {
      assert f.runs[..i + 1][..i] == f.runs[..i];
      var reach := f.runs[i].vbn - 1 + RunBlocks(f.runs[i]);
      blocks := if blocks < reach then reach else blocks;
    }
    assert f.runs[..|f.runs|] == f.runs;
    forall i | 0 <= i < |f.runs|
      ensures f.runs[i].vbn - 1 <= blocks
    {
      ExtentReaches(Used(f.attrs), f.runs, i);
    }
  }

  method LayOut(blocks: nat, runs: seq<Run>) returns (data: bytes)
    requires Addressable(runs) && forall i :: 0 <= i < |runs| ==> runs[i].vbn - 1 <= blocks
    ensures data == LaidAll(blocks, runs)
  {
    hide RunBlocks, Laid;
    var a := new byte[blocks * VBNSize](k => 0);
    assert a[..] == Zeros(blocks * VBNSize);
    for i := 0 to |runs|
      invariant a[..] == LaidAll(blocks, runs[..i])
    {
      assert runs[..i + 1][..i] == runs[..i];
      CopyInto(a, (runs[i].vbn - 1) * VBNSize, runs[i].data);
    }
    assert runs[..|runs|] == runs;
    data := a[..];
  }

  /** copy. */
  method CopyInto(a: array<byte>, at: nat, data: bytes)
    requires at <= a.Length
    modifies a
    ensures a[..] == Laid(old(a[..]), at, data)
  {
    var n := if at + |data| <= a.Length then |data| else a.Length - at;
    for k := 0 to n
      invariant forall j :: 0 <= j < a.Length ==> a[j] == if at <= j < at + k then data[j - at] else old(a[..])[j]
    {
      a[at + k] := data[k];
    }
  }

  // ---- Missing ----

  datatype Range = Range(first: nat, last: nat)

  predicate InRanges(ranges: seq<Range>, v: nat) {
    exists k :: 0 <= k < |ranges| && ranges[k].first <= v <= ranges[k].last
  }

  /** In order, none empty, and none touching the next: so each as long as it can be. */
  predicate Maximal(ranges: seq<Range>) {
    && (forall k :: 0 <= k < |ranges| ==> ranges[k].first <= ranges[k].last)
    && (forall j, k :: 0 <= j < k < |ranges| ==> ranges[j].last + 1 < ranges[k].first)
  }

  /** The used blocks that are in no run, as ranges that cannot be joined. */
  ghost predicate AreMissing(f: File, missing: seq<Range>) {
    if HeaderOnly(f) then missing == []
    else Maximal(missing) && forall v: nat :: InRanges(missing, v) <==> 1 <= v <= Used(f.attrs) && !Covered(f.runs, v)
  }

  /** File.Missing: the used virtual blocks in no run, as sorted maximal ranges. */
  method Missing(f: File) returns (missing: seq<Range>)
    requires Addressable(f.runs) && Used(f.attrs) < 0xFFFF_FFFF
    ensures AreMissing(f, missing)
  {
    hide Used, NoBackup, RunBlocks;
    if HeaderOnly(f) {
      return [];
    }
    var used: nat := Used(f.attrs);
    var have := new bool[used + 1](k => false);
    Marked(f.runs, used, have);
    missing := [];
    for v := 1 to used + 1
      invariant Maximal(missing) && (missing != [] ==> missing[|missing| - 1].last < v)
      invariant forall w: nat :: InRanges(missing, w) <==> 1 <= w < v && !Covered(f.runs, w)
      invariant forall w :: 1 <= w <= used ==> (have[w] <==> Covered(f.runs, w))
    {
      hide Covered, InRanges;
      if !have[v] {
        var n := |missing|;
        ghost var before := missing;
        if n > 0 && missing[n - 1].last == v - 1 {
          missing := missing[n - 1 := Range(missing[n - 1].first, v)];
          Extended(before, v);
        } else {
          missing := missing + [Range(v, v)];
          Started(before, v);
        }
      }
    }
  }

  /** The last range taking in the block after it. */
  lemma Extended(ranges: seq<Range>, v: nat)
    requires ranges != [] && Maximal(ranges) && ranges[|ranges| - 1].last == v - 1
    ensures var r := ranges[|ranges| - 1 := Range(ranges[|ranges| - 1].first, v)];
            Maximal(r) && forall w: nat :: InRanges(r, w) <==> InRanges(ranges, w) || w == v
  {
    var n := |ranges| - 1;
    var r := ranges[n := Range(ranges[n].first, v)];
    forall w: nat
      ensures InRanges(r, w) <==> InRanges(ranges, w) || w == v
    {
      if InRanges(ranges, w) {
        var k :| 0 <= k < |ranges| && ranges[k].first <= w <= ranges[k].last;
        assert r[k].first <= w <= r[k].last;
      }
      assert r[n].first <= v <= r[n].last;
      if InRanges(r, w) && w != v {
        var k :| 0 <= k < |r| && r[k].first <= w <= r[k].last;
        assert ranges[k].first <= w <= ranges[k].last;
      }
    }
  }

  /** A new range after the others, the block before it being covered. */
  lemma Started(ranges: seq<Range>, v: nat)
    requires Maximal(ranges) && (ranges != [] ==> ranges[|ranges| - 1].last + 1 < v)
    ensures var r := ranges + [Range(v, v)];
            Maximal(r) && forall w: nat :: InRanges(r, w) <==> InRanges(ranges, w) || w == v
  {
    var n := |ranges|;
    var r := ranges + [Range(v, v)];
    forall w: nat
      ensures InRanges(r, w) <==> InRanges(ranges, w) || w == v
    {
      if InRanges(ranges, w) {
        var k :| 0 <= k < |ranges| && ranges[k].first <= w <= ranges[k].last;
        assert r[k].first <= w <= r[k].last;
      }
      assert r[n].first <= v <= r[n].last;
      if InRanges(r, w) && w != v {
        var k :| 0 <= k < |r| && r[k].first <= w <= r[k].last;
        assert ranges[k].first <= w <= ranges[k].last;
      }
    }
  }

  /** Marks the blocks the runs hold. */
  method Marked(runs: seq<Run>, used: nat, have: array<bool>)
    requires have.Length == used + 1 && forall k :: 0 <= k <= used ==> !have[k]
    requires Addressable(runs)
    modifies have
    ensures forall v :: 1 <= v <= used ==> (have[v] <==> Covered(runs, v))
  {
    hide RunBlocks;
    for i := 0 to |runs|
      invariant forall v :: 1 <= v <= used ==> (have[v] <==> Covered(runs[..i], v))
    {
      CoveredNext(runs, i);
      var v := runs[i].vbn;
      ghost var before := have[..];
      while v < runs[i].vbn + RunBlocks(runs[i]) && v <= used
        invariant runs[i].vbn <= v
        invariant forall w :: 1 <= w <= used ==>
                    (have[w] <==> before[w] || (runs[i].vbn <= w < v && w < runs[i].vbn + RunBlocks(runs[i])))
        decreases used + 1 - v
      {
        have[v] := true;
        v := v + 1;
      }
    }
    assert runs[..|runs|] == runs;
  }

  lemma CoveredNext(runs: seq<Run>, i: nat)
    requires i < |runs|
    ensures forall v: nat ::
              Covered(runs[..i + 1], v) <==>
                Covered(runs[..i], v) || runs[i].vbn <= v < runs[i].vbn + RunBlocks(runs[i])
  {
    forall v: nat
      ensures Covered(runs[..i + 1], v) <==>
                Covered(runs[..i], v) || runs[i].vbn <= v < runs[i].vbn + RunBlocks(runs[i])
    {
      if Covered(runs[..i], v) {
        var k :| 0 <= k < i && runs[k].vbn <= v < runs[k].vbn + RunBlocks(runs[k]);
        assert runs[..i + 1][k] == runs[k];
      }
      assert runs[..i + 1][i] == runs[i];
      if Covered(runs[..i + 1], v) && !(runs[i].vbn <= v < runs[i].vbn + RunBlocks(runs[i])) {
        var k :| 0 <= k < i + 1 && runs[k].vbn <= v < runs[k].vbn + RunBlocks(runs[k]);
        assert runs[..i][k] == runs[k];
      }
    }
  }
}
