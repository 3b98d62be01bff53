/** What repair restores: exactly the damaged data blocks that are alone in their groups. */
module Recovery {
  import opened Bytes
  import opened Crc
  import opened Blocks
  import opened AttributeLists
  import opened SaveSetStream
  import opened Division
  import opened Groups
  import opened Reading

  /** A finished save set's blocks. */
  predicate Complete(l: Layout, slots: seq<Slot>) {
    ValidLayout(l) && SlotsFit(l, slots) && Grouped(l.group, slots, true) && slots != [] && slots[0].Holds?
  }

  /** Block 1's summary says what the group size is. */
  ghost predicate FirstSays(block: bytes, group: nat) {
    && |block| >= HeaderSize
    && var r := FirstRecord(block);
       r.Some? && r.value.kind == RecordSummary && ParseSummary(r.value.body).summary.groupSize == group
  }

  /** Block i passes its checks. */
  ghost predicate Good(blocks: seq<bytes>, i: nat, checkCRC: bool) {
    i < |blocks| && |blocks[i]| >= HeaderSize && Intact(blocks[i], checkCRC)
  }

  ghost predicate Bad(blocks: seq<bytes>, i: nat, checkCRC: bool) {
    i < |blocks| && !Good(blocks, i, checkCRC)
  }

  /** Block i is a redundancy block, by its application word. */
  ghost predicate SaysXOR(blocks: seq<bytes>, i: nat) {
    i < |blocks| && |blocks[i]| >= HeaderSize && Application(blocks[i]) == ApplicationXOR
  }

  /** received is sent, but for blocks whose damage a check shows and whose application word is still their own. */
  ghost predicate Damaged(sent: seq<bytes>, received: seq<bytes>, size: nat, checkCRC: bool) {
    && size >= HeaderSize && |received| == |sent| && AllSized(sent, size) && AllSized(received, size)
    && forall i: nat :: i < |sent| ==>
         received[i] == sent[i]
         || (Bad(received, i, checkCRC) && Application(received[i]) == Application(sent[i]))
  }

  /** Block i's group is otherwise undamaged. */
  ghost predicate Alone(g: nat, received: seq<bytes>, i: nat, checkCRC: bool) {
    i < |received|
    && forall j: nat :: GroupStart(g, i) <= j <= GroupEnd(g, i, |received|) && j != i ==> Good(received, j, checkCRC)
  }

  /** Block i is damaged, and repair rebuilds it. */
  ghost predicate Recoverable(g: nat, slots: seq<Slot>, received: seq<bytes>, i: nat, checkCRC: bool) {
    i < |slots| && Bad(received, i, checkCRC) && slots[i].Holds? && g > 0 && Alone(g, received, i, checkCRC)
  }

  /** Block i is damaged, and beyond repair. */
  ghost predicate Unrecoverable(g: nat, slots: seq<Slot>, received: seq<bytes>, i: nat, checkCRC: bool) {
    i < |slots| && Bad(received, i, checkCRC) && slots[i].Holds? && !(g > 0 && Alone(g, received, i, checkCRC))
  }

  /** A save set, what was sent of it, what was received, and how it is checked. */
  datatype Case = Case(l: Layout, slots: seq<Slot>, sent: seq<bytes>, received: seq<bytes>, checkCRC: bool)

  ghost predicate Setting(c: Case) {
    && Complete(c.l, c.slots) && c.sent == Stream(c.l, c.slots)
    && Damaged(c.sent, c.received, c.l.blockSize, c.checkCRC)
  }

  ghost predicate Saved(c: Case, i: nat) {
    Recoverable(c.l.group, c.slots, c.received, i, c.checkCRC)
  }

  ghost predicate Gone(c: Case, i: nat) {
    Unrecoverable(c.l.group, c.slots, c.received, i, c.checkCRC)
  }

  /** The repair so far, the blocks in bad having been taken. */
  ghost predicate Progress(c: Case, bad: seq<nat>, r: Repairing) {
    && |r.blocks| == |c.sent| == |c.received| && AllSized(r.blocks, c.l.blockSize) && Numbers(r.lost, |c.sent|)
    && forall i: nat :: i < |c.sent| ==> ProgressAt(c, bad, r, i)
  }

  /** Block numbers, from 1 to n. */
  predicate Numbers(list: seq<nat>, n: nat) {
    forall x :: x in list ==> 1 <= x <= n
  }

  ghost predicate ProgressAt(c: Case, bad: seq<nat>, r: Repairing, i: nat) {
    && i < |r.blocks| && i < |c.sent| && i < |c.received|
    && r.blocks[i] == (if i in bad && Saved(c, i) then c.sent[i] else c.received[i])
    && (i + 1 in r.lost <==> i in bad && Gone(c, i))
    && (i + 1 in r.recovered <==> i in bad && Saved(c, i))
  }

  // ---- What was sent ----

  /** Every block written passes its checks, and is of its kind. */
  lemma SentFacts(l: Layout, slots: seq<Slot>, i: nat, checkCRC: bool)
    requires Complete(l, slots) && i < |slots|
    ensures Good(Stream(l, slots), i, checkCRC)
    ensures Application(Stream(l, slots)[i]) == if slots[i].Holds? then ApplicationData else ApplicationXOR
  {
    hide Stream, Intact, Grouped, SlotsFit, DataBytes, ParityBytes, Word, Fits;
    StreamAt(l, slots, i);
    var sofar := Stream(l, slots[..i]);
    match slots[i]
    case Holds(b) =>
      hide Named, ParseCurrent, Counted, Cut;
      DataIntact(l, |sofar| + 1, b, checkCRC);
      DataHeader(l, |sofar| + 1, b);
    case Redundancy =>
      ParityHeader(l, |sofar| + 1, sofar[|sofar| - |sofar| % (l.group + 1)..], checkCRC);
  }

  lemma SettingFacts(c: Case)
    requires Setting(c)
    ensures ValidLayout(c.l) && |c.sent| == |c.received| == |c.slots| > 0
    ensures AllSized(c.sent, c.l.blockSize) && AllSized(c.received, c.l.blockSize)
  {
    hide Stream, Grouped, SlotsFit;
  }

  /** A good block is as it was sent; and a bad one still says of what kind it is. */
  lemma ReceivedFacts(c: Case, i: nat)
    requires Setting(c) && i < |c.slots|
    ensures |c.sent| == |c.received| == |c.slots|
    ensures Good(c.sent, i, c.checkCRC) && (Good(c.received, i, c.checkCRC) ==> c.received[i] == c.sent[i])
    ensures |c.received[i]| >= HeaderSize && |c.sent[i]| >= HeaderSize
    ensures Application(c.received[i]) == Application(c.sent[i])
    ensures Application(c.sent[i]) == if c.slots[i].Holds? then ApplicationData else ApplicationXOR
  {
    hide Intact, Application, Stream, Grouped, SlotsFit;
    SentFacts(c.l, c.slots, i, c.checkCRC);
  }

  lemma EitherWay(c: Case, i: nat)
    requires i < |c.slots| && Bad(c.received, i, c.checkCRC)
    ensures c.slots[i].Redundancy? ==> !Saved(c, i) && !Gone(c, i)
    ensures c.slots[i].Holds? ==> (Saved(c, i) <==> !Gone(c, i))
  {
    hide Alone, Good;
  }

  // ---- Groups ----

  /** Blocks of one group have the same group. */
  lemma SameGroup(g: nat, i: nat, j: nat, n: nat)
    requires g > 0 && i < n && GroupStart(g, i) <= j <= GroupEnd(g, i, n)
    ensures GroupStart(g, j) == GroupStart(g, i) && GroupEnd(g, j, n) == GroupEnd(g, i, n)
  {
    var m := g + 1;
    StartOf(i, m);
    WithinGroup(GroupStart(g, i), m, j - GroupStart(g, i));
  }

  /** A damaged block that is not alone shares its group with another, and neither can be rebuilt. */
  lemma NotAlone(g: nat, slots: seq<Slot>, received: seq<bytes>, i: nat, checkCRC: bool) returns (j: nat)
    requires g > 0 && Bad(received, i, checkCRC) && !Alone(g, received, i, checkCRC)
    ensures GroupStart(g, i) <= j <= GroupEnd(g, i, |received|) < |received| && j != i && Bad(received, j, checkCRC)
    ensures !Recoverable(g, slots, received, j, checkCRC)
  {
    hide GroupStart, GroupEnd, Good;
    InGroup(g, i, |received|);
    j :| GroupStart(g, i) <= j <= GroupEnd(g, i, |received|) && j != i && !Good(received, j, checkCRC);
    SameGroup(g, i, j, |received|);
  }

  // ---- One block's repair ----

  lemma ProgressOf(c: Case, bad: seq<nat>, r: Repairing, i: nat)
    requires Progress(c, bad, r) && i < |c.sent|
    ensures ProgressAt(c, bad, r, i) && |r.blocks| == |c.sent| && AllSized(r.blocks, c.l.blockSize)
  {
    hide ProgressAt;
  }

  lemma RebuildParity(c: Case, bad: seq<nat>, r: Repairing, i: nat)
    requires Setting(c) && Progress(c, bad, r) && i !in bad && i < |c.slots| && c.slots[i].Redundancy?
    ensures c.l.group > 0 && i < |r.blocks| && AllSized(r.blocks, c.l.blockSize)
    ensures Rebuild(r.blocks, c.l.blockSize, i, c.l.group, c.checkCRC) == Harmless
  {
    GroupedParity(c, i);
    ReceivedFacts(c, i);
    ProgressOf(c, bad, r, i);
    hide Setting, Progress, Intact, GroupStart, GroupEnd, Rebuilt, XorAll, Application, Saved, Gone, OthersIntact, Good;
  }

  lemma GroupedParity(c: Case, i: nat)
    requires Setting(c) && i < |c.slots| && c.slots[i].Redundancy?
    ensures c.l.group > 0
  {
    hide Stream, Damaged, SlotsFit;
  }

  lemma RebuildLost(c: Case, bad: seq<nat>, r: Repairing, i: nat)
    requires Setting(c) && Progress(c, bad, r) && i !in bad && Gone(c, i)
    ensures i < |r.blocks| && AllSized(r.blocks, c.l.blockSize)
    ensures Rebuild(r.blocks, c.l.blockSize, i, c.l.group, c.checkCRC) == Hopeless
  {
    hide Setting, Progress, Intact, GroupStart, GroupEnd, Application, Saved, Rebuild, Alone, Good;
    var g := c.l.group;
    SettingFacts(c);
    ReceivedFacts(c, i);
    ProgressOf(c, bad, r, i);
    if g > 0 {
      SettingGroup(c, i);
      var j := NotAlone(g, c.slots, c.received, i, c.checkCRC);
      ProgressOf(c, bad, r, j);
      StillBad(c, bad, r, j);
      hide ProgressAt, Gone;
      RebuildWhenNotAlone(r.blocks, c.l.blockSize, i, g, j, c.checkCRC);
    } else {
      NoGroups(r.blocks, c.l.blockSize, i, c.checkCRC);
    }
  }

  lemma StillBad(c: Case, bad: seq<nat>, r: Repairing, j: nat)
    requires ProgressAt(c, bad, r, j) && |r.blocks| == |c.received| && Bad(c.received, j, c.checkCRC)
    requires !Recoverable(c.l.group, c.slots, c.received, j, c.checkCRC)
    ensures Bad(r.blocks, j, c.checkCRC)
  {
    hide Recoverable, Intact;
    assert !Saved(c, j);
    hide Saved, Gone;
  }

  lemma NoGroups(blocks: seq<bytes>, size: nat, i: nat, checkCRC: bool)
    requires size >= HeaderSize && AllSized(blocks, size) && i < |blocks|
    ensures Rebuild(blocks, size, i, 0, checkCRC) == Hopeless
  {
  }

  lemma RebuildWhenNotAlone(blocks: seq<bytes>, size: nat, i: nat, g: nat, j: nat, checkCRC: bool)
    requires size >= HeaderSize && AllSized(blocks, size) && i < |blocks| && g > 0
    requires i != GroupEnd(g, i, |blocks|) && Application(blocks[i]) != ApplicationXOR
    requires GroupStart(g, i) <= j <= GroupEnd(g, i, |blocks|) && j != i && Bad(blocks, j, checkCRC)
    ensures Rebuild(blocks, size, i, g, checkCRC) == Hopeless
  {
    hide GroupStart, GroupEnd, Intact, Application, Rebuilt, XorAll;
    InGroup(g, i, |blocks|);
    assert !OthersIntact(blocks, GroupStart(g, i), GroupEnd(g, i, |blocks|), i, checkCRC);
    hide OthersIntact;
  }

  /** A data block's group ends at a later redundancy block. */
  lemma SettingGroup(c: Case, i: nat)
    requires Setting(c) && c.l.group > 0 && i < |c.slots| && c.slots[i].Holds?
    ensures var start, xor := GroupStart(c.l.group, i), GroupEnd(c.l.group, i, |c.slots|);
            start <= i < xor < |c.slots| && c.slots[xor].Redundancy?
  {
    hide Stream, Damaged, SlotsFit;
    GroupOf(c.l.group, c.slots, i);
  }

  lemma AloneKept(c: Case, bad: seq<nat>, r: Repairing, i: nat)
    requires Progress(c, bad, r) && i !in bad && Saved(c, i) && i < |c.sent| == |c.received|
    ensures i < |r.blocks| && r.blocks[i] == c.received[i]
  {
    hide Good, GroupStart, GroupEnd;
    ProgressOf(c, bad, r, i);
    hide Progress;
  }

  lemma RebuildAlone(c: Case, bad: seq<nat>, r: Repairing, i: nat)
    requires Setting(c) && Progress(c, bad, r) && i !in bad && Saved(c, i)
    ensures i < |r.blocks| && i < |c.sent| && AllSized(r.blocks, c.l.blockSize)
    ensures Rebuild(r.blocks, c.l.blockSize, i, c.l.group, c.checkCRC) == Restored(c.sent[i])
  {
    hide Setting, Progress, ProgressAt, Intact, GroupStart, GroupEnd, Rebuilt, XorAll, Application, Rebuild, AllSized;
    var g := c.l.group;
    SettingFacts(c);
    ReceivedFacts(c, i);
    ProgressOf(c, bad, r, i);
    AloneKept(c, bad, r, i);
    SettingGroup(c, i);
    var start, xor := GroupStart(g, i), GroupEnd(g, i, |c.slots|);
    ReceivedFacts(c, xor);
    forall j: nat | start <= j <= xor && j != i
      ensures r.blocks[j] == c.sent[j] && Good(r.blocks, j, c.checkCRC)
    {
      GroupUnchanged(c, bad, r, i, j);
    }
    hide Saved;
    RestoredIs(c, i, r.blocks, start, xor);
    RebuildWhenAlone(r.blocks, c.l.blockSize, i, g, c.checkCRC);
  }

  /** The rest of a recoverable block's group is as it was sent. */
  lemma GroupUnchanged(c: Case, bad: seq<nat>, r: Repairing, i: nat, j: nat)
    requires Setting(c) && Progress(c, bad, r) && Saved(c, i) && |c.slots| == |c.received|
    requires GroupStart(c.l.group, i) <= j <= GroupEnd(c.l.group, i, |c.slots|) && j != i
    ensures j < |r.blocks| && j < |c.sent| && r.blocks[j] == c.sent[j] && Good(r.blocks, j, c.checkCRC)
  {
    hide GroupStart, GroupEnd, Application, Intact;
    InGroup(c.l.group, i, |c.slots|);
    ReceivedFacts(c, j);
    ProgressOf(c, bad, r, j);
    hide Setting, Progress;
  }

  /** Rebuilding the group's block i from its others gives b. */
  ghost predicate RebuiltAs(blocks: seq<bytes>, start: nat, xor: nat, i: nat, size: nat, b: bytes) {
    && start <= i < xor < |blocks| && size >= HeaderSize && AllSized(Others(blocks, start, xor, i), size)
    && |blocks[xor]| == size
    && Rebuilt(XorAll(Others(blocks, start, xor, i), size), blocks[xor], i + 1) == b
  }

  ghost predicate SameBut(s: seq<bytes>, blocks: seq<bytes>, start: nat, xor: nat, i: nat) {
    |s| == |blocks| && forall j: nat :: start <= j <= xor < |s| && j != i ==> blocks[j] == s[j]
  }

  lemma RestoredIs(c: Case, i: nat, blocks: seq<bytes>, start: nat, xor: nat)
    requires c.l.group > 0 && i < |c.slots| == |blocks| == |c.sent| && c.slots[i].Holds?
    requires start == GroupStart(c.l.group, i) && xor == GroupEnd(c.l.group, i, |c.slots|)
    requires SameBut(c.sent, blocks, start, xor, i)
    requires Setting(c) && AllSized(blocks, c.l.blockSize)
    ensures i < |c.sent| && RebuiltAs(blocks, start, xor, i, c.l.blockSize, c.sent[i])
  {
    hide Stream, GroupStart, GroupEnd, Rebuilt, XorAll, ParityBytes, DataBytes, SlotsFit, Fits, Grouped, Damaged,
      AllSized;
    var s := c.sent;
    ParityOfGroup(c.l, c.slots, i);
    DataAt(c.l, c.slots, i);
    SizedGroup(s, start, xor, c.l.blockSize);
    OthersAre(s, blocks, start, xor, i);
    RebuildRestores(c.l, xor + 1, s[start..xor], i - start, i + 1, c.slots[i].block);
  }

  lemma SizedGroup(s: seq<bytes>, start: nat, xor: nat, n: nat)
    requires start <= xor <= |s| && AllSized(s, n)
    ensures AllSized(s[start..xor], n)
  {
  }

  lemma OthersAre(s: seq<bytes>, blocks: seq<bytes>, start: nat, xor: nat, i: nat)
    requires start <= i < xor < |s| == |blocks| && forall j: nat :: start <= j <= xor && j != i ==> blocks[j] == s[j]
    ensures var group := s[start..xor];
            Others(blocks, start, xor, i) == group[..i - start] + group[i - start + 1..] + [s[xor]]
  {
  }

  lemma RebuildWhenAlone(blocks: seq<bytes>, size: nat, i: nat, g: nat, checkCRC: bool)
    requires size >= HeaderSize && AllSized(blocks, size) && i < |blocks| && g > 0
    requires i != GroupEnd(g, i, |blocks|) && Application(blocks[i]) != ApplicationXOR
    requires GroupEnd(g, i, |blocks|) < |blocks| && Application(blocks[GroupEnd(g, i, |blocks|)]) == ApplicationXOR
    requires forall j: nat :: GroupStart(g, i) <= j <= GroupEnd(g, i, |blocks|) && j != i ==> Good(blocks, j, checkCRC)
    ensures var start, xor := GroupStart(g, i), GroupEnd(g, i, |blocks|);
            && start <= i < xor && AllSized(Others(blocks, start, xor, i), size)
            && Rebuild(blocks, size, i, g, checkCRC) ==
               Restored(Rebuilt(XorAll(Others(blocks, start, xor, i), size), blocks[xor], i + 1))
  {
    InGroup(g, i, |blocks|);
    hide GroupStart, GroupEnd, Intact, Application, Rebuilt, XorAll, OthersIntact;
    assert Good(blocks, GroupEnd(g, i, |blocks|), checkCRC);
    OthersGood(blocks, GroupStart(g, i), GroupEnd(g, i, |blocks|), i, checkCRC);
  }

  lemma OthersGood(blocks: seq<bytes>, start: nat, xor: nat, i: nat, checkCRC: bool)
    requires AllHeaded(blocks) && xor < |blocks|
    requires forall j: nat :: start <= j <= xor && j != i ==> Good(blocks, j, checkCRC)
    ensures OthersIntact(blocks, start, xor, i, checkCRC)
  {
    hide Intact;
    forall j | start <= j <= xor && j != i
      ensures Intact(blocks[j], checkCRC)
    {
      assert Good(blocks, j, checkCRC);
    }
  }

  // ---- All of them ----

  lemma StepProgress(c: Case, bad: seq<nat>, r: Repairing, i: nat, r': Repairing, outcome: Outcome)
    requires Progress(c, bad, r) && i < |c.sent| && i !in bad
    requires Gone(c, i) <==> outcome.Hopeless?
    requires Saved(c, i) <==> outcome.Restored?
    requires outcome.Restored? ==> outcome.block == c.sent[i] && |outcome.block| == c.l.blockSize
    requires r' == match outcome
                   case Hopeless => r.(lost := r.lost + [i + 1])
                   case Harmless => r
                   case Restored(b) => r.(blocks := r.blocks[i := b], recovered := r.recovered + [i + 1])
    ensures Progress(c, bad + [i], r')
  {
    hide Saved, Gone;
    forall k: nat | k < |c.sent|
      ensures ProgressAt(c, bad + [i], r', k)
    {
      ProgressOf(c, bad, r, k);
      assert k in bad + [i] <==> k in bad || k == i;
      hide Progress;
    }
  }

  /** The damaged blocks of a list, in increasing order. */
  ghost predicate BadList(received: seq<bytes>, checkCRC: bool, bad: seq<nat>) {
    && (forall k :: 0 <= k < |bad| ==> Bad(received, bad[k], checkCRC))
    && (forall j, k :: 0 <= j < k < |bad| ==> bad[j] < bad[k])
  }

  function Fresh(received: seq<bytes>): Repairing {
    Repairing(received, [], [])
  }

  lemma {:induction false} RepairEachIs(c: Case, bad: seq<nat>)
    requires Setting(c) && BadList(c.received, c.checkCRC, bad)
    requires c.l.blockSize >= HeaderSize && AllSized(c.received, c.l.blockSize)
    requires forall k :: 0 <= k < |bad| ==> bad[k] < |c.received|
    ensures Progress(c, bad, RepairEach(Fresh(c.received), c.l.blockSize, bad, c.l.group, c.checkCRC))
  {
    hide Setting, Progress, RepairEach, BadList;
    SettingFacts(c);
    if bad == [] {
      NothingRepaired(Fresh(c.received), c.l.blockSize, c.l.group, c.checkCRC);
      NothingProgress(c);
    } else {
      var front, i := bad[..|bad| - 1], bad[|bad| - 1];
      FrontOfList(c.received, c.checkCRC, bad);
      RepairEachIs(c, front);
      RepairOneIs(c, front, RepairEach(Fresh(c.received), c.l.blockSize, front, c.l.group, c.checkCRC), i);
      RepairLast(Fresh(c.received), c.l.blockSize, bad, c.l.group, c.checkCRC);
      assert front + [i] == bad;
    }
  }

  lemma NothingRepaired(r: Repairing, size: nat, g: nat, checkCRC: bool)
    requires size >= HeaderSize && AllSized(r.blocks, size)
    ensures RepairEach(r, size, [], g, checkCRC) == r
  {
  }

  lemma NothingProgress(c: Case)
    requires |c.sent| == |c.received| && AllSized(c.received, c.l.blockSize)
    ensures Progress(c, [], Fresh(c.received))
  {
    hide Saved, Gone;
  }

  lemma FrontOfList(received: seq<bytes>, checkCRC: bool, bad: seq<nat>)
    requires BadList(received, checkCRC, bad) && bad != []
    ensures BadList(received, checkCRC, bad[..|bad| - 1]) && bad[|bad| - 1] !in bad[..|bad| - 1]
    ensures Bad(received, bad[|bad| - 1], checkCRC)
  {
    hide Bad;
  }

  lemma RepairLast(r: Repairing, size: nat, bad: seq<nat>, g: nat, checkCRC: bool)
    requires size >= HeaderSize && AllSized(r.blocks, size) && bad != []
    requires forall k :: 0 <= k < |bad| ==> bad[k] < |r.blocks|
    ensures RepairEach(r, size, bad, g, checkCRC) ==
            RepairOne(RepairEach(r, size, bad[..|bad| - 1], g, checkCRC), size, bad[|bad| - 1], g, checkCRC)
  {
    hide RepairOne;
  }

  lemma RepairOneIs(c: Case, bad: seq<nat>, r: Repairing, i: nat)
    requires Setting(c) && Progress(c, bad, r) && i !in bad && Bad(c.received, i, c.checkCRC)
    ensures i < |r.blocks| && c.l.blockSize >= HeaderSize && AllSized(r.blocks, c.l.blockSize)
    ensures Progress(c, bad + [i], RepairOne(r, c.l.blockSize, i, c.l.group, c.checkCRC))
  {
    SettingFacts(c);
    EitherWay(c, i);
    assert |r.blocks| == |c.sent| && AllSized(r.blocks, c.l.blockSize);
    hide Setting, Rebuild, Saved, Gone, Bad, Progress;
    if c.slots[i].Redundancy? {
      RebuildParity(c, bad, r, i);
    } else if Saved(c, i) {
      RebuildAlone(c, bad, r, i);
    } else {
      RebuildLost(c, bad, r, i);
    }
    var outcome := Rebuild(r.blocks, c.l.blockSize, i, c.l.group, c.checkCRC);
    StepProgress(c, bad, r, i, RepairOne(r, c.l.blockSize, i, c.l.group, c.checkCRC), outcome);
  }

  lemma {:induction false} BadAre(received: seq<bytes>, checkCRC: bool, i: nat)
    requires AllHeaded(received) && i <= |received|
    ensures BadList(received, checkCRC, BadFrom(received, checkCRC, i))
    ensures forall n: nat :: i <= n && Bad(received, n, checkCRC) ==> n in BadFrom(received, checkCRC, i)
    decreases |received| - i
  {
    hide Intact;
    if i < |received| {
      var rest := BadFrom(received, checkCRC, i + 1);
      BadAre(received, checkCRC, i + 1);
      if !Intact(received[i], checkCRC) {
        var bad := [i] + rest;
        assert forall k :: 0 < k < |bad| ==> bad[k] == rest[k - 1];
        assert Bad(received, i, checkCRC);
      }
    }
  }

  // ---- The group size ----

  lemma {:induction false} FirstParityFrom(received: seq<bytes>, checkCRC: bool, i: nat)
    requires AllHeaded(received) && i <= |received|
    ensures var w := FirstParity(received, checkCRC, i);
            || (w == 0 && forall k: nat :: i <= k < |received| && Good(received, k, checkCRC) ==> !SaysXOR(received, k))
            || (i <= w < |received| && Good(received, w, checkCRC) && SaysXOR(received, w)
                && forall k: nat :: i <= k < w && Good(received, k, checkCRC) ==> !SaysXOR(received, k))
    decreases |received| - i
  {
    hide Intact, Application;
    if i < |received| {
      FirstParityFrom(received, checkCRC, i + 1);
    }
  }

  /** A save set with no group longer than itself has the same groups whatever its group size. */
  lemma OneGroup(g: nat, h: nat, i: nat, n: nat)
    requires i < n && n - 1 <= g && n - 1 <= h
    ensures GroupStart(g, i) == GroupStart(h, i) && GroupEnd(g, i, n) == GroupEnd(h, i, n)
  {
    DivModUnique(i, g + 1, 0, i);
    DivModUnique(i, h + 1, 0, i);
  }

  /** Repairing with h finds the same groups as with g. */
  predicate SameGroups(g: nat, h: nat, n: nat) {
    g == h || (g > 0 && h > 0 && n - 1 <= g && n - 1 <= h)
  }

  lemma RebuildSame(blocks: seq<bytes>, size: nat, i: nat, g: nat, h: nat, checkCRC: bool)
    requires size >= HeaderSize && AllSized(blocks, size) && i < |blocks| && SameGroups(g, h, |blocks|)
    ensures Rebuild(blocks, size, i, g, checkCRC) == Rebuild(blocks, size, i, h, checkCRC)
  {
    hide GroupStart, GroupEnd, Intact, Application, Rebuilt, XorAll, OthersIntact;
    if g != h {
      OneGroup(g, h, i, |blocks|);
    }
  }

  lemma {:induction false} RepairEachSame(r: Repairing, size: nat, bad: seq<nat>, g: nat, h: nat, checkCRC: bool)
    requires size >= HeaderSize && AllSized(r.blocks, size) && forall k :: 0 <= k < |bad| ==> bad[k] < |r.blocks|
    requires SameGroups(g, h, |r.blocks|)
    ensures RepairEach(r, size, bad, g, checkCRC) == RepairEach(r, size, bad, h, checkCRC)
  {
    hide Rebuild, SameGroups;
    if bad != [] {
      var front := bad[..|bad| - 1];
      RepairEachSame(r, size, front, g, h, checkCRC);
      RebuildSame(RepairEach(r, size, front, g, checkCRC).blocks, size, bad[|bad| - 1], g, h, checkCRC);
    }
  }

  /** The group size repair works with is right, whenever block 1 is good or can be rebuilt. */
  lemma GroupSizeRight(c: Case)
    requires Setting(c) && FirstSays(c.sent[0], c.l.group) && AllHeaded(c.received) && c.received != []
    requires !Gone(c, 0)
    ensures SameGroups(c.l.group, GroupSize(c.received, c.checkCRC), |c.received|)
  {
    ReceivedFacts(c, 0);
    if Good(c.received, 0, c.checkCRC) {
      hide Intact, Application, RecordsFrom, ParseSummary;
    } else {
      FirstHolds(c);
      SettingGroup(c, 0);
      StartOf(0, c.l.group + 1);
      hide Intact;
      assert GroupSize(c.received, c.checkCRC) == FirstParity(c.received, c.checkCRC, 0);
      FirstParityRight(c);
    }
  }

  lemma FirstHolds(c: Case)
    requires Setting(c)
    ensures |c.slots| > 0 && c.slots[0].Holds?
  {
    hide Stream, Damaged, SlotsFit;
  }

  lemma FirstParityRight(c: Case)
    requires Setting(c) && AllHeaded(c.received) && |c.received| == |c.slots| && Saved(c, 0)
    ensures SameGroups(c.l.group, FirstParity(c.received, c.checkCRC, 0), |c.received|)
  {
    hide Setting, Intact;
    var g, n := c.l.group, |c.slots|;
    FirstHolds(c);
    SettingGroup(c, 0);
    var xor := GroupEnd(g, 0, n);
    StartOf(0, g + 1);
    assert GroupStart(g, 0) == 0;
    ReceivedFacts(c, xor);
    FirstParityFrom(c.received, c.checkCRC, 0);
    var w := FirstParity(c.received, c.checkCRC, 0);
    assert Good(c.received, xor, c.checkCRC) && SaysXOR(c.received, xor) by {
      hide Application;
    }
    hide Application, FirstParity;
    if w < xor {
      FirstGroupHolds(c, w);
      ReceivedFacts(c, w);
    }
  }

  lemma FirstGroupHolds(c: Case, k: nat)
    requires Setting(c) && c.l.group > 0 && |c.slots| > 0 && c.slots[0].Holds? && k < GroupEnd(c.l.group, 0, |c.slots|)
    ensures k < |c.slots| && c.slots[k].Holds?
  {
    hide Stream, Damaged, SlotsFit;
    GroupOf(c.l.group, c.slots, 0);
    StartOf(0, c.l.group + 1);
  }

  // ---- A block 1 that cannot be rebuilt is given up ----

  lemma FirstGivenUp(c: Case)
    requires Setting(c) && Gone(c, 0) && |c.received| > 0 && AllSized(c.received, c.l.blockSize)
    requires c.l.blockSize >= HeaderSize
    ensures Rebuild(c.received, c.l.blockSize, 0, FirstParity(c.received, c.checkCRC, 0), c.checkCRC) == Hopeless
  {
    var h := FirstParity(c.received, c.checkCRC, 0);
    SettingFacts(c);
    ReceivedFacts(c, 0);
    FirstHolds(c);
    FirstParityFrom(c.received, c.checkCRC, 0);
    if h > 0 {
      ParityIsRedundancy(c, h);
      var j := DamageBefore(c, h);
      StartsAtZero(h, |c.received|);
      hide Setting, Intact, Application, FirstParity, Gone, Rebuild, Good, GroupStart, GroupEnd;
      RebuildWhenNotAlone(c.received, c.l.blockSize, 0, h, j, c.checkCRC);
    } else {
      NoGroups(c.received, c.l.blockSize, 0, c.checkCRC);
    }
  }

  lemma StartsAtZero(h: nat, n: nat)
    requires 0 < h < n
    ensures GroupStart(h, 0) == 0 && GroupEnd(h, 0, n) == h
  {
    StartOf(0, h + 1);
  }

  lemma ParityIsRedundancy(c: Case, w: nat)
    requires Setting(c) && w < |c.received| && SaysXOR(c.received, w)
    ensures c.l.group > 0 && w < |c.slots| && c.slots[w].Redundancy?
  {
    SettingFacts(c);
    ReceivedFacts(c, w);
    hide Application;
    if c.slots[w].Redundancy? {
      GroupedParity(c, w);
    }
  }

  /** Damage in the first group is no later than any good redundancy block. */
  lemma DamageBefore(c: Case, w: nat) returns (j: nat)
    requires Setting(c) && Gone(c, 0) && c.l.group > 0 && 0 < w < |c.slots| && c.slots[w].Redundancy?
    ensures 0 < j <= w && Bad(c.received, j, c.checkCRC)
  {
    SettingFacts(c);
    FirstHolds(c);
    StartOf(0, c.l.group + 1);
    j := NotAlone(c.l.group, c.slots, c.received, 0, c.checkCRC);
    if w < j {
      FirstGroupHolds(c, w);
    }
  }

  lemma {:induction false} LostStays(r: Repairing, size: nat, bad: seq<nat>, k: nat, g: nat, checkCRC: bool, x: nat)
    requires size >= HeaderSize && AllSized(r.blocks, size) && k <= |bad|
    requires forall k :: 0 <= k < |bad| ==> bad[k] < |r.blocks|
    requires x in RepairEach(r, size, bad[..k], g, checkCRC).lost
    ensures x in RepairEach(r, size, bad, g, checkCRC).lost
  {
    hide RepairEach;
    if k == |bad| {
      assert bad[..k] == bad;
    } else {
      assert bad[..|bad| - 1][..k] == bad[..k];
      LostStays(r, size, bad[..|bad| - 1], k, g, checkCRC, x);
      RepairLast(r, size, bad, g, checkCRC);
      hide Rebuild;
    }
  }

  lemma FirstTaken(r: Repairing, size: nat, bad: seq<nat>, g: nat, checkCRC: bool)
    requires size >= HeaderSize && AllSized(r.blocks, size) && bad != []
    requires forall k :: 0 <= k < |bad| ==> bad[k] < |r.blocks|
    requires Rebuild(r.blocks, size, bad[0], g, checkCRC) == Hopeless
    ensures bad[0] + 1 in RepairEach(r, size, bad, g, checkCRC).lost
  {
    hide Rebuild, RepairEach;
    var one := bad[..1];
    RepairLast(r, size, one, g, checkCRC);
    assert one[..0] == [];
    NothingRepaired(r, size, g, checkCRC);
    LostStays(r, size, bad, 1, g, checkCRC, bad[0] + 1);
  }

  /** What repair does with block i. */
  ghost predicate RepairedAt(c: Case, r: Repairing, i: nat) {
    && i < |r.blocks| && i < |c.sent| && i < |c.received|
    && r.blocks[i] == (if Saved(c, i) then c.sent[i] else c.received[i])
    && (i + 1 in r.lost <==> Gone(c, i)) && (i + 1 in r.recovered <==> Saved(c, i))
  }

  /**
   * repair restores, byte for byte, every damaged data block whose group is otherwise undamaged, and gives up exactly
   * the others; unless block 1 is one of those, when the save set is refused anyway.
   */
  lemma RepairExact(c: Case)
    requires Setting(c) && FirstSays(c.sent[0], c.l.group)
    ensures ValidLayout(c.l) && AllSized(c.received, c.l.blockSize) && |c.received| == |c.slots| > 0
    ensures var r := Repair(c.received, c.l.blockSize, c.checkCRC);
            if Gone(c, 0) then 1 in r.lost
            else Numbers(r.lost, |c.slots|) && forall i: nat :: i < |c.slots| ==> RepairedAt(c, r, i)
  {
    SettingFacts(c);
    hide Setting, Gone, Repair, RepairedAt;
    if Gone(c, 0) {
      FirstLost(c);
    } else {
      RepairRight(c);
    }
  }

  lemma FirstLost(c: Case)
    requires Setting(c) && Gone(c, 0) && |c.received| > 0 && AllSized(c.received, c.l.blockSize)
    requires c.l.blockSize >= HeaderSize
    ensures 1 in Repair(c.received, c.l.blockSize, c.checkCRC).lost
  {
    hide Setting, Rebuild, Alone, Good, FirstParity, GroupSize, RepairEach, BadFrom;
    FirstGivenUp(c);
    FirstIsBad(c.received, c.checkCRC);
    FirstTakenLost(c.received, c.l.blockSize, c.checkCRC);
  }

  lemma FirstTakenLost(blocks: seq<bytes>, size: nat, checkCRC: bool)
    requires |blocks| > 0 && AllSized(blocks, size) && size >= HeaderSize
    requires BadFrom(blocks, checkCRC, 0) != [] && BadFrom(blocks, checkCRC, 0)[0] == 0
    requires Rebuild(blocks, size, 0, GroupSize(blocks, checkCRC), checkCRC) == Hopeless
    ensures 1 in Repair(blocks, size, checkCRC).lost
  {
    hide Rebuild, GroupSize, RepairEach, BadFrom;
    FirstTaken(Fresh(blocks), size, BadFrom(blocks, checkCRC, 0), GroupSize(blocks, checkCRC), checkCRC);
  }

  lemma FirstIsBad(blocks: seq<bytes>, checkCRC: bool)
    requires AllHeaded(blocks) && Bad(blocks, 0, checkCRC)
    ensures BadFrom(blocks, checkCRC, 0) != [] && BadFrom(blocks, checkCRC, 0)[0] == 0
    ensures GroupSize(blocks, checkCRC) == FirstParity(blocks, checkCRC, 0)
  {
    hide Intact, FirstRecord, FirstParity, ParseSummary;
    assert BadFrom(blocks, checkCRC, 0) == [0] + BadFrom(blocks, checkCRC, 1);
  }

  lemma RepairRight(c: Case)
    requires Setting(c) && FirstSays(c.sent[0], c.l.group) && !Gone(c, 0)
    requires |c.received| > 0 && AllSized(c.received, c.l.blockSize) && c.l.blockSize >= HeaderSize
    ensures var r := Repair(c.received, c.l.blockSize, c.checkCRC);
            Numbers(r.lost, |c.sent|) && forall i: nat :: i < |c.sent| ==> RepairedAt(c, r, i)
  {
    BadAre(c.received, c.checkCRC, 0);
    hide Setting, GroupSize, BadFrom, Bad, RepairEach, Gone, Saved, SameGroups, FirstSays, RepairedAt;
    GroupSizeRight(c);
    var bad := BadFrom(c.received, c.checkCRC, 0);
    RepairEachIs(c, bad);
    if bad != [] {
      RepairEachSame(Fresh(c.received), c.l.blockSize, bad, c.l.group, GroupSize(c.received, c.checkCRC), c.checkCRC);
    } else {
      NothingRepaired(Fresh(c.received), c.l.blockSize, c.l.group, c.checkCRC);
    }
    hide Progress;
    AllRepaired(c, bad, Repair(c.received, c.l.blockSize, c.checkCRC));
  }

  lemma AllRepaired(c: Case, bad: seq<nat>, r: Repairing)
    requires Progress(c, bad, r) && forall n: nat :: Bad(c.received, n, c.checkCRC) ==> n in bad
    ensures Numbers(r.lost, |c.sent|) && forall i: nat :: i < |c.sent| ==> RepairedAt(c, r, i)
  {
    hide Alone, Bad;
    forall i: nat | i < |c.sent|
      ensures RepairedAt(c, r, i)
    {
      ProgressOf(c, bad, r, i);
      hide Progress;
    }
  }
}
