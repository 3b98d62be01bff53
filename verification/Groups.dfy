/** Where a save set's redundancy blocks stand among its data blocks, and what each holds. */
module Groups {
  import opened Bytes
  import opened SaveSetStream
  import opened Division

  datatype Slot = Holds(block: DataBlock) | Redundancy

  /** endBlock: the block, and its group's redundancy block when it is the group's last. */
  function Queue(g: nat, slots: seq<Slot>, b: DataBlock): seq<Slot> {
    var s := slots + [Holds(b)];
    if g > 0 && |s| % (g + 1) == g then s + [Redundancy] else s
  }

  function Slots(g: nat, blocks: seq<DataBlock>): seq<Slot> {
    if blocks == [] then [] else Queue(g, Slots(g, blocks[..|blocks| - 1]), blocks[|blocks| - 1])
  }

  /** Close: the short last group's redundancy block. */
  function Closing(g: nat, slots: seq<Slot>): seq<Slot> {
    if g > 0 && |slots| % (g + 1) != 0 then slots + [Redundancy] else slots
  }

  function SaveSetSlots(g: nat, blocks: seq<DataBlock>): seq<Slot> {
    Closing(g, Slots(g, blocks))
  }

  predicate SlotFits(l: Layout, slot: Slot) {
    slot.Holds? ==> Fits(l, slot.block.records)
  }

  predicate SlotsFit(l: Layout, slots: seq<Slot>) {
    forall i :: 0 <= i < |slots| ==> SlotFits(l, slots[i])
  }

  /** The bytes of the next block, after those sofar. */
  function Render(l: Layout, sofar: seq<bytes>, slot: Slot): (r: bytes)
    requires ValidLayout(l) && AllSized(sofar, l.blockSize) && SlotFits(l, slot)
    ensures |r| == l.blockSize
  {
    match slot
    case Holds(b) => DataBytes(l, |sofar| + 1, b)
    case Redundancy => ParityBytes(l, |sofar| + 1, sofar[|sofar| - |sofar| % (l.group + 1)..])
  }

  function Stream(l: Layout, slots: seq<Slot>): (r: seq<bytes>)
    requires ValidLayout(l) && SlotsFit(l, slots)
    ensures |r| == |slots| && AllSized(r, l.blockSize)
  {
    if slots == [] then []
    else
      hide Render, SlotFits;
      var front := Stream(l, slots[..|slots| - 1]);
      front + [Render(l, front, slots[|slots| - 1])]
  }

  lemma StreamAppend(l: Layout, slots: seq<Slot>, slot: Slot)
    requires ValidLayout(l) && SlotsFit(l, slots) && SlotsFit(l, slots + [slot])
    ensures SlotFits(l, slot)
    ensures Stream(l, slots + [slot]) == Stream(l, slots) + [Render(l, Stream(l, slots), slot)]
  {
    assert (slots + [slot])[..|slots|] == slots;
    assert (slots + [slot])[|slots|] == slot;
    hide Render, SlotFits;
  }

  lemma {:induction false} StreamAt(l: Layout, slots: seq<Slot>, i: nat)
    requires ValidLayout(l) && SlotsFit(l, slots) && i < |slots|
    ensures SlotsFit(l, slots[..i]) && Stream(l, slots)[..i] == Stream(l, slots[..i])
    ensures SlotFits(l, slots[i])
    ensures Stream(l, slots)[i] == Render(l, Stream(l, slots[..i]), slots[i])
    decreases |slots|
  {
    hide Render, SlotFits;
    var n := |slots| - 1;
    if i < n {
      StreamAt(l, slots[..n], i);
      assert slots[..n][..i] == slots[..i];
      assert Stream(l, slots)[..i] == Stream(l, slots[..n])[..i];
    } else {
      assert Stream(l, slots)[..n] == Stream(l, slots[..n]);
    }
  }

  // ---- Positions within groups ----

  lemma NextMod(n: nat, m: nat)
    requires m > 0
    ensures (n + 1) % m == if n % m == m - 1 then 0 else n % m + 1
  {
    var q, r := n / m, n % m;
    assert n == q * m + r;
    if r == m - 1 {
      assert n + 1 == (q + 1) * m + 0;
      DivModUnique(n + 1, m, q + 1, 0);
    } else {
      DivModUnique(n + 1, m, q, r + 1);
    }
  }

  /** The positions from a group's start on are 0, 1, 2, … within it. */
  lemma WithinGroup(start: nat, m: nat, k: nat)
    requires m > 0 && start % m == 0 && k < m
    ensures (start + k) % m == k && (start + k) / m * m == start
  {
    assert start == start / m * m;
    DivModUnique(start + k, m, start / m, k);
  }

  lemma StartOf(i: nat, m: nat)
    requires m > 0
    ensures i / m * m == i - i % m && i / m * m % m == 0
  {
    assert i == i / m * m + i % m;
    DivModUnique(i / m * m, m, i / m, 0);
  }

  /** Every group's last block, and no other, is a redundancy block; and so is the last of all once closed. */
  predicate Grouped(g: nat, slots: seq<Slot>, closed: bool) {
    && (forall i :: 0 <= i < |slots| ==>
          (slots[i].Redundancy? <==> g > 0 && (i % (g + 1) == g || (closed && i == |slots| - 1))))
    && (g > 0 && !closed ==> |slots| % (g + 1) != g)
  }

  lemma {:induction false} SlotsGrouped(g: nat, blocks: seq<DataBlock>)
    ensures Grouped(g, Slots(g, blocks), false)
  {
    if blocks != [] {
      var front := Slots(g, blocks[..|blocks| - 1]);
      SlotsGrouped(g, blocks[..|blocks| - 1]);
      NextMod(|front|, g + 1);
      NextMod(|front| + 1, g + 1);
    }
  }

  lemma ClosedGrouped(g: nat, blocks: seq<DataBlock>)
    ensures Grouped(g, SaveSetSlots(g, blocks), true)
  {
    SlotsGrouped(g, blocks);
    var s := Slots(g, blocks);
    if s != [] {
      NextMod(|s| - 1, g + 1);
    }
  }

  function BlocksIn(slots: seq<Slot>): seq<DataBlock> {
    if slots == [] then []
    else
      var front := BlocksIn(slots[..|slots| - 1]);
      if slots[|slots| - 1].Holds? then front + [slots[|slots| - 1].block] else front
  }

  lemma BlocksInAppend(slots: seq<Slot>, slot: Slot)
    ensures BlocksIn(slots + [slot]) == if slot.Holds? then BlocksIn(slots) + [slot.block] else BlocksIn(slots)
  {
    assert (slots + [slot])[..|slots|] == slots;
  }

  /** The data blocks among the slots are those queued, in order. */
  lemma {:induction false} BlocksInSlots(g: nat, blocks: seq<DataBlock>)
    ensures BlocksIn(Slots(g, blocks)) == blocks && BlocksIn(SaveSetSlots(g, blocks)) == blocks
  {
    if blocks != [] {
      var front, b := blocks[..|blocks| - 1], blocks[|blocks| - 1];
      BlocksInSlots(g, front);
      BlocksInAppend(Slots(g, front), Holds(b));
      BlocksInAppend(Slots(g, front) + [Holds(b)], Redundancy);
      assert front + [b] == blocks;
    }
    BlocksInAppend(Slots(g, blocks), Redundancy);
  }

  /** Where rebuild looks for block i's group: its first block, and its redundancy block. */
  function GroupStart(g: nat, i: nat): nat {
    i / (g + 1) * (g + 1)
  }

  function GroupEnd(g: nat, i: nat, n: nat): nat
    requires n > 0
  {
    if GroupStart(g, i) + g < n - 1 then GroupStart(g, i) + g else n - 1
  }

  /** A data block's group is the data blocks from its start to its redundancy block, which is there. */
  lemma GroupOf(g: nat, slots: seq<Slot>, i: nat)
    requires g > 0 && Grouped(g, slots, true) && i < |slots| && slots[i].Holds?
    ensures var start, xor := GroupStart(g, i), GroupEnd(g, i, |slots|);
            && start <= i < xor < |slots| && slots[xor].Redundancy? && xor % (g + 1) == xor - start
            && forall j :: start <= j < xor ==> slots[j].Holds?
  {
    var m := g + 1;
    var start, xor := GroupStart(g, i), GroupEnd(g, i, |slots|);
    StartOf(i, m);
    WithinGroup(start, m, i - start);
    assert i % m == i - start;
    WithinGroup(start, m, xor - start);
    forall j | start <= j < xor
      ensures slots[j].Holds?
    {
      WithinGroup(start, m, j - start);
    }
  }

  /** And its redundancy block's bytes are made of theirs. */
  lemma ParityOfGroup(l: Layout, slots: seq<Slot>, i: nat)
    requires ValidLayout(l) && SlotsFit(l, slots) && l.group > 0 && Grouped(l.group, slots, true)
    requires i < |slots| && slots[i].Holds?
    ensures var s, start, xor := Stream(l, slots), GroupStart(l.group, i), GroupEnd(l.group, i, |slots|);
            start <= i < xor < |slots| && s[xor] == ParityBytes(l, xor + 1, s[start..xor])
  {
    hide Grouped, GroupStart, GroupEnd, Stream, ParityBytes, SlotsFit;
    GroupOf(l.group, slots, i);
    ParityAt(l, slots, GroupStart(l.group, i), GroupEnd(l.group, i, |slots|));
  }

  lemma ParityAt(l: Layout, slots: seq<Slot>, start: nat, xor: nat)
    requires ValidLayout(l) && SlotsFit(l, slots)
    requires start <= xor < |slots| && slots[xor].Redundancy? && xor % (l.group + 1) == xor - start
    ensures Stream(l, slots)[xor] == ParityBytes(l, xor + 1, Stream(l, slots)[start..xor])
  {
    hide Stream, ParityBytes, SlotsFit, AllSized;
    StreamAt(l, slots, xor);
    var s := Stream(l, slots);
    assert s[..xor][start..] == s[start..xor];
  }

  lemma DataAt(l: Layout, slots: seq<Slot>, i: nat)
    requires ValidLayout(l) && SlotsFit(l, slots) && i < |slots| && slots[i].Holds?
    ensures Fits(l, slots[i].block.records) && Stream(l, slots)[i] == DataBytes(l, i + 1, slots[i].block)
  {
    hide Stream, SlotsFit, AllSized, Fits, DataBytes;
    StreamAt(l, slots, i);
  }
}
