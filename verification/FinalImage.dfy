/** What a link of an assembly's object leaves in memory, byte by byte. */
module FinalImage {
  import opened Words
  import opened Expressions
  import opened Linker
  import opened Output
  import opened Histories
  import opened Positions
  import opened Emission
  import opened Relocated
  import opened Replay
  import opened Faithful
  import opened Linking
  import opened Allocation

  /** The byte as the last event of the first n that stored it left it. */
  predicate CellIs(S: Setting, n: nat, mem: Memory, p: Cell)
    requires n <= |S.log.events|
  {
    var k := LastEvent(S.log.events[..n], p);
    k >= 0 ==> 0 <= Address(S.env, p) < TWO32 && At(mem, Address(S.env, p)) == EventByte(S.log, S.env, k, p)
  }

  /** Not the address of any byte the first n events stored. */
  ghost predicate Outside(S: Setting, n: nat, a: word)
    requires n <= |S.log.events|
  {
    forall p :: LastEvent(S.log.events[..n], p) >= 0 ==> Address(S.env, p) != a
  }

  ghost predicate MemoryOk(S: Setting, n: nat, start: Memory, mem: Memory)
    requires n <= |S.log.events|
  {
    && (forall p :: CellIs(S, n, mem, p))
    && (forall a: word :: Outside(S, n, a) ==> At(mem, a) == At(start, a))
  }

  lemma CoversSpan(e: Event, p: Cell)
    ensures EventCovers(e, p) <==> SpanOf(e).sect == p.sect && SpanOf(e).lo <= p.off < SpanOf(e).hi
  {
  }

  lemma LastOf(S: Setting, n: nat, p: Cell)
    requires n < |S.log.events|
    ensures LastEvent(S.log.events[..n + 1], p)
              == if EventCovers(S.log.events[n], p) then n else LastEvent(S.log.events[..n], p)
  {
    assert S.log.events[..n + 1] == S.log.events[..n] + [S.log.events[n]];
    LastEventAppend(S.log.events[..n], S.log.events[n], p);
  }

  /** Where a stored byte is: inside its psect's allocation. */
  lemma CoveredFacts(S: Setting, k: nat, p: Cell)
    requires Sound(S) && k < |S.log.events| && EventCovers(S.log.events[k], p)
    ensures p.sect !in S.absolute && 0 <= p.off < S.alloc(p.sect) && 0 <= Address(S.env, p) < TWO32
  {
    hide Sound;
    EventFacts(S, k);
    CoversSpan(S.log.events[k], p);
  }

  /** The bytes an event stores are none of any other's. */
  lemma NotAliased(S: Setting, n: nat, k: nat, p: Cell)
    requires Sound(S) && n < |S.log.events| && k < |S.log.events| && EventCovers(S.log.events[k], p)
    requires !EventCovers(S.log.events[n], p)
    ensures var span := SpanOf(S.log.events[n]);
            !(S.env.base(span.sect) + span.lo <= Address(S.env, p) < S.env.base(span.sect) + span.hi)
  {
    hide Inv, Tracked, Allocated, EventCovers;
    CoveredFacts(S, k, p);
    EventFacts(S, n);
    CoversSpan(S.log.events[n], p);
  }

  lemma CellStep(S: Setting, n: nat, before: Memory, after: Memory, p: Cell)
    requires Sound(S) && n < |S.log.events| && CellIs(S, n, before, p) && EventLaid(S, n, before, after)
    ensures CellIs(S, n + 1, after, p)
  {
    hide Sound, EventByte, At, EventCovers, LastEvent;
    LastOf(S, n, p);
    var span, k := SpanOf(S.log.events[n]), LastEvent(S.log.events[..n + 1], p);
    if k >= 0 {
      CoveredFacts(S, k, p);
      assert LaidAt(S, n, span.sect, span.lo, span.hi, before, after, Address(S.env, p));
      CoversSpan(S.log.events[n], p);
      if k < n {
        NotAliased(S, n, k, p);
      }
    }
  }

  lemma MemoryStep(S: Setting, n: nat, start: Memory, before: Memory, after: Memory)
    requires Sound(S) && n < |S.log.events| && MemoryOk(S, n, start, before) && EventLaid(S, n, before, after)
    ensures MemoryOk(S, n + 1, start, after)
  {
    hide Sound, EventByte, At, CellIs, LastEvent;
    var m := n + 1;
    forall p
      ensures CellIs(S, m, after, p)
    {
      CellStep(S, n, before, after, p);
    }
    forall a: word | Outside(S, n + 1, a)
      ensures At(after, a) == At(start, a)
    {
      OutsideStep(S, n, before, after, a);
    }
  }

  lemma OutsideStep(S: Setting, n: nat, before: Memory, after: Memory, a: word)
    requires Sound(S) && n < |S.log.events| && EventLaid(S, n, before, after) && Outside(S, n + 1, a)
    ensures Outside(S, n, a) && At(after, a) == At(before, a)
  {
    hide Sound, EventByte, At, LastEvent, EventCovers;
    forall p | LastEvent(S.log.events[..n], p) >= 0
      ensures Address(S.env, p) != a
    {
      LastOf(S, n, p);
    }
    var span := SpanOf(S.log.events[n]);
    var p := Cell(span.sect, a - S.env.base(span.sect));
    LastOf(S, n, p);
    CoversSpan(S.log.events[n], p);
    assert LaidAt(S, n, span.sect, span.lo, span.hi, before, after, a);
  }

  // ---- The whole run ----

  lemma RunPrefix(a: seq<Command>, b: seq<Command>, env: Env, st: State)
    requires Run(a + b, env, st).Some?
    ensures Run(a, env, st).Some? && Run(a + b, env, st) == Run(b, env, Run(a, env, st).value)
  {
    hide Run;
    RunConcat(a, b, env, st);
  }

  lemma ToldAdds(S: Setting, n: nat, em: Emitter)
    requires n < |S.log.events|
    ensures var em' := Told(S.log, S.absolute, n, em);
            em'.commands == em.commands + em'.commands[|em.commands|..]
  {
    hide Data, SetLocation, ConstantCommands, PatchCommands;
  }

  lemma TellRest(S: Setting, n: nat, em: Emitter, flushed: Emitter, a: seq<Command>, more: seq<Command>, st: State,
                 mid: State, r: State)
    requires Sound(S) && Poised(S, n, flushed) && n < |S.log.events| && Remaining(S.log, flushed.relocs, n)
    requires Told(S.log, S.absolute, n, flushed).commands == em.commands + more && flushed.commands == em.commands + a
    requires Run(a, S.env, st) == Some(mid) && Run(more, S.env, st) == Some(r) && InStep(S, flushed, mid)
    requires mid.mem == st.mem
    ensures InStep(S, Told(S.log, S.absolute, n, flushed), r) && EventLaid(S, n, st.mem, r.mem)
  {
    hide Sound, Poised, Remaining, Run, Told, EventLaid, InStep;
    ToldAdds(S, n, flushed);
    var em' := Told(S.log, S.absolute, n, flushed);
    var b := em'.commands[|flushed.commands|..];
    assert em'.commands == em.commands + (a + b);
    Same(em.commands, more, a + b);
    RunPrefix(a, b, S.env, st);
    ToldRuns(S, n, flushed, b, mid);
  }

  /** The flush of the absolute start, if it is due, and the event's own commands, lay down the event. */
  lemma TellRuns(S: Setting, n: nat, em: Emitter, more: seq<Command>, st: State, r: State)
    requires Sound(S) && n < |S.log.events| && Follows(S.log, em, n) && Remaining(S.log, em.relocs, n)
    requires InStep(S, em, st)
    requires Tell(S.log, S.absolute, n, em).commands == em.commands + more && Run(more, S.env, st) == Some(r)
    ensures InStep(S, Tell(S.log, S.absolute, n, em), r) && EventLaid(S, n, st.mem, r.mem)
  {
    hide Inv, Tracked, Placed, Allocated, Remaining, Run, Told, EventLaid, FlushAbsStart, Where, InStep;
    var e := S.log.events[n];
    var skip := e.Switch? && e.implicit;
    if e.Switch? && em.sect.None? {
      NothingRuns(S, 0, 0, 0, st);
      TellRest(S, n, em, em, [], more, st, st, r);
    } else {
      var flushed := FlushAbsStart(em, skip);
      FlushRuns(S, em, skip, st);
      var a := flushed.commands[|em.commands|..];
      TellRest(S, n, em, flushed, a, more, st, Run(a, S.env, st).value, r);
    }
  }

  lemma NothingStored(S: Setting, mem: Memory)
    ensures MemoryOk(S, 0, mem, mem)
  {
    hide EventByte, At;
    assert S.log.events[..0] == [];
  }

  /**
   * After every event the linker is in step with the emitter, and every byte is as the last event to store it left it.
   */
  lemma {:induction false} ReplayRuns(S: Setting, n: nat, st: State)
    requires Sound(S) && n <= |S.log.events| && st.stack == []
    requires Run(Replayed(S.log, S.absolute, n).commands, S.env, st).Some?
    ensures var r := Run(Replayed(S.log, S.absolute, n).commands, S.env, st).value;
            InStep(S, Replayed(S.log, S.absolute, n), r) && MemoryOk(S, n, st.mem, r.mem)
  {
    hide Inv, Tracked, Placed, Allocated, Tell, Remaining, Follows, WrittenOnce, EventLaid, RelocationsOf, Run,
      MemoryOk;
    var em := Replayed(S.log, S.absolute, n);
    if n == 0 {
      NothingStored(S, st.mem);
      NothingRuns(S, 0, 0, 0, st);
    } else {
      hide InStep;
      var before := Replayed(S.log, S.absolute, n - 1);
      ReplayedOk(S.log, S.absolute, n - 1);
      TellAdds(S, n - 1, before);
      var more := em.commands[|before.commands|..];
      RunPrefix(before.commands, more, S.env, st);
      ReplayRuns(S, n - 1, st);
      var mid := Run(before.commands, S.env, st).value;
      var r := Run(more, S.env, mid).value;
      TellRuns(S, n - 1, before, more, mid, r);
      MemoryStep(S, n - 1, st.mem, mid.mem, r.mem);
    }
  }

  lemma TellAdds(S: Setting, n: nat, em: Emitter)
    requires n < |S.log.events|
    ensures var em' := Tell(S.log, S.absolute, n, em);
            em'.commands == em.commands + em'.commands[|em.commands|..]
  {
    hide Told, SetLocation;
    var e := S.log.events[n];
    var flushed := if e.Switch? && em.sect.None? then em else FlushAbsStart(em, e.Switch? && e.implicit);
    assert flushed.commands == em.commands + flushed.commands[|em.commands|..];
    ToldAdds(S, n, flushed);
  }

  // ---- The last store of each byte ----

  /**
   * The byte as the program's last store of it has it: what it stored, or, of a field whose value was found later, here
   * or by the linker, the value its tree has at the link. A superseded constant's field keeps what was first stored.
   */
  function LastStored(log: Log, env: Env, p: Cell): octet {
    var j := LastStore(log.stores, p);
    if j < 0 then 0
    else
      var x := log.stores[j];
      if x.fix.None? || x.fix.value >= |log.fixes| then x.data[p.off - x.at]
      else
        match log.fixes[x.fix.value].outcome
        case Applied(t, _) => ValueByte(env, log.fixes[x.fix.value], t, p)
        case Left(t) => ValueByte(env, log.fixes[x.fix.value], t, p)
        case _ => x.data[p.off - x.at]
  }

  lemma {:induction false} LastEntry(stores: seq<Source>, p: Cell)
    requires LastStore(stores, p) >= 0 && stores[LastStore(stores, p)].isData
    ensures var h, j := DataHistory(stores, p), LastStore(stores, p);
            h != [] && h[|h| - 1].event == stores[j].event
  {
    if !Covers(stores[|stores| - 1], p) {
      LastEntry(stores[..|stores| - 1], p);
    }
  }

  /** The image has the last word of the event that stored a byte last. */
  lemma LastByte(log: Log, absolute: set<nat>, p: Cell)
    requires Inv(log, absolute) && LastStore(log.stores, p) >= 0 && log.stores[LastStore(log.stores, p)].isData
    ensures ByteAt(log, log.stores[LastStore(log.stores, p)].event, p) == ByteIn(log.image, p)
  {
    hide Ordered, FieldsApart, Alive, EventIs, ImageHolds, StoreOk, FixOk, EventOk, ByteIn, LastStore, DataHistory;
    LastEntry(log.stores, p);
    assert History(log.owners, p) == DataHistory(log.stores, p);
  }

  /** The field the event has at a byte it stored last is of the fixup that store left. */
  lemma LastField(log: Log, absolute: set<nat>, p: Cell)
    requires Inv(log, absolute) && LastStore(log.stores, p) >= 0 && log.stores[LastStore(log.stores, p)].isData
    ensures var x := log.stores[LastStore(log.stores, p)];
            var i := FieldOf(log, x.event, p);
            if x.fix.Some? && x.fix.value < |log.fixes| && log.fixes[x.fix.value].outcome.Left? then i == x.fix.value
            else i == -1
  {
    hide FieldsApart, Alive, EventIs, ImageHolds, EventOk, EventHolds, History, DataHistory, LastStore, FieldFrom,
      FixOk;
    var j := LastStore(log.stores, p);
    var x := log.stores[j];
    assert StoreOk(log, absolute, j);
    var i := FieldOf(log, x.event, p);
    if i >= 0 {
      HomeIsLast(log, absolute, p, i);
    }
    if x.fix.Some? {
      FixOfStore(log, absolute, j);
      assert log.fixes[x.fix.value].outcome.Left? ==> FieldCovers(log, x.fix.value, x.event, p);
    }
  }

  lemma FixOfStore(log: Log, absolute: set<nat>, j: nat)
    requires Inv(log, absolute) && j < |log.stores| && log.stores[j].fix.Some?
    ensures var x, i := log.stores[j], log.stores[j].fix.value;
            && i < |log.fixes| && FixEvent(log, i) == x.event && log.fixes[i].at == x.at && log.fixes[i].sect == x.sect
            && KindSize(log.fixes[i].kind) == |x.data|
  {
    hide FieldsApart, Alive, EventIs, ImageHolds, EventOk, EventHolds, History, DataHistory, Ordered;
    assert StoreOk(log, absolute, j) && FixOk(log, log.stores[j].fix.value);
  }

  lemma HomeIsLast(log: Log, absolute: set<nat>, p: Cell, i: nat)
    requires Inv(log, absolute) && LastStore(log.stores, p) >= 0
    requires FieldCovers(log, i, log.stores[LastStore(log.stores, p)].event, p)
    ensures log.stores[LastStore(log.stores, p)].fix == Some(i)
  {
    hide FieldsApart, Alive, EventIs, ImageHolds, EventOk, EventHolds, History, DataHistory, StoreOk;
    var j := LastStore(log.stores, p);
    assert FixOk(log, i);
    var h := log.fixes[i].home;
    assert Covers(log.stores[h], p);
    assert Ordered(log.stores, h, j);
  }

  /** The last event to store a byte leaves it as the last store of the program has it. */
  lemma LastEventByte(log: Log, absolute: set<nat>, env: Env, p: Cell)
    requires Inv(log, absolute) && LastStore(log.stores, p) >= 0
    ensures var k := LastEvent(log.events, p);
            0 <= k == log.stores[LastStore(log.stores, p)].event && EventByte(log, env, k, p) == LastStored(log, env, p)
  {
    hide FieldsApart, Alive, EventOk, History, DataHistory, LastStore, LastEvent, ByteAt, ByteIn, FieldOf, LittleEndian,
      ValueByte, AppliedBytes, Storable, FixOk, Ordered;
    var j := LastStore(log.stores, p);
    var x := log.stores[j];
    assert EventIs(log, p) && ImageHolds(log, p) && StoreOk(log, absolute, j);
    if x.isData {
      LastField(log, absolute, p);
      LastByte(log, absolute, p);
      if x.fix.Some? {
        FixOfStore(log, absolute, j);
        var f := log.fixes[x.fix.value];
        if f.outcome.Applied? {
          AppliedStorable(log, absolute, x.fix.value);
          AppliedIsLinked(env, f, f.outcome.expr, p);
        }
      }
    }
  }

  /** A branch's displacement is the same wherever its psect is put. */
  lemma DisplacementMoves(base: word, value: word, at: word, size: nat)
    ensures Wrap(Wrap(base + value) - (Wrap(base + at) + size)) == Wrap(value - at - size)
  {
    hide Wrap;
    WrapSum(base + value, 0 - Wrap(base + at) - size);
    WrapLess(base + at, base + value - size);
  }

  lemma WrapLess(x: int, y: int)
    ensures Wrap(y - Wrap(x)) == Wrap(y - x)
  {
  }

  /**
   * What the assembler stores for a value it can finish is what the linker would have stored, if it stored it
   * (LinkerStores).
   */
  lemma AppliedIsLinked(env: Env, f: Fix, t: Tree, p: Cell)
    requires Storable(f, t) && f.at <= p.off < f.at + KindSize(f.kind)
    ensures AppliedBytes(f, t)[p.off - f.at] == ValueByte(env, f, t, p)
  {
    hide LittleEndian, Wrap;
    if IsBranch(f.kind) {
      DisplacementMoves(env.base(f.sect), t.offset, f.at, KindSize(f.kind));
    }
  }

  // ---- Values the assembler finishes that the linker would refuse ----

  /** The linker, at the field with the value on its stack. */
  predicate AtField(env: Env, f: Fix, t: Tree, st: State) {
    st.stack != [] && Top(st) == Value(t, env, Expressions.Linker) && st.loc == Wrap(env.base(f.sect) + f.at)
  }

  /** The longword checked and stored for it does not depend on where the psect is. */
  function FieldWord(f: Fix, t: Tree): word {
    if IsDisplacement(f.kind) then Wrap(Distance(f, t)) else AppliedValue(t)
  }

  /**
   * The linker's store succeeds exactly where the value fits the command's own field; then it stores the same bytes.
   */
  lemma LinkerStores(env: Env, f: Fix, t: Tree, st: State)
    requires Storable(f, t) && AtField(env, f, t, st)
    ensures var r := Step(Store(StoreOf(f.kind)), env, st);
            && (r.Some? <==> Fits(StoreOf(f.kind), Signed(FieldWord(f, t))))
            && (r.Some? ==> r.value.mem == Write(st.mem, st.loc, AppliedBytes(f, t)))
  {
    hide LittleEndian, Write, Wrap, Signed, Fits;
    if IsBranch(f.kind) {
      DisplacementMoves(env.base(f.sect), t.offset, f.at, KindSize(f.kind));
    }
  }

  /** The distance is from lo to hi once more, or once less, round the address space. */
  predicate RoundTo(n: int, lo: int, hi: int) {
    lo <= n - TWO32 <= hi || lo <= n + TWO32 <= hi
  }

  /**
   * A value of 128 to 255 in a signed byte, or 32768 to 65535 in a signed word; and a branch right round the address
   * space.
   */
  predicate Disputed(f: Fix, t: Tree) {
    match f.kind
    case SignedB => 0x80 <= Signed(AppliedValue(t)) <= 0xFF
    case SignedW => 0x8000 <= Signed(AppliedValue(t)) <= 0xFFFF
    case BranchB => RoundTo(Distance(f, t), -0x80, 0x7F)
    case BranchW => RoundTo(Distance(f, t), -0x8000, 0x7FFF)
    case _ => false
  }

  /**
   * The assembler finishes a value without a report exactly where the linker would store it, but for the disputed
   * values: those in signed fields the assembler takes and the linker refuses, and those branches the other way about.
   */
  lemma AcceptedExactly(env: Env, f: Fix, t: Tree, st: State)
    requires Storable(f, t) && AtField(env, f, t, st)
    ensures (Step(Store(StoreOf(f.kind)), env, st).Some? <==> !OutOfRange(f, t)) <==> !Disputed(f, t)
    ensures Disputed(f, t) ==> (OutOfRange(f, t) <==> IsBranch(f.kind))
  {
    hide Step, LittleEndian, Write;
    LinkerStores(env, f, t, st);
    WrapsRound(Distance(f, t), 0x80);
    WrapsRound(Distance(f, t), 0x8000);
  }

  /** A distance fits once wrapped where it does as it is, or is a whole address space away. */
  lemma WrapsRound(n: int, half: int)
    requires half == 0x80 || half == 0x8000
    ensures -TWO32 - 4 <= n < TWO32 ==>
              (-half <= Signed(Wrap(n)) < half <==> -half <= n < half || RoundTo(n, -half, half - 1))
    ensures -half <= n < half ==> !RoundTo(n, -half, half - 1)
  {
  }

  /**
   * A branch from the bottom of a psect to the top of the address space: out of range to the assembler, -2 to the
   * linker.
   */
  lemma BranchDisputed(env: Env, f: Fix, st: State)
    requires f.kind == BranchB && f.at == 0 && AtField(env, f, Base(f.sect, 0xFFFF_FFFF, false), st)
    ensures OutcomeOf(f.(dead := false), Base(f.sect, 0xFFFF_FFFF, false))
              == Applied(Base(f.sect, 0xFFFF_FFFF, false), true)
    ensures var r := Step(Store(StoreByteDisp), env, st);
            r.Some? && r.value.mem == Write(st.mem, st.loc, [0xFE])
            && AppliedBytes(f, Base(f.sect, 0xFFFF_FFFF, false)) == [0xFE]
  {
    hide Step, Write, AtField;
    var t := Base(f.sect, 0xFFFF_FFFF, false);
    TopDistance(f);
    LinkerStores(env, f, t, st);
  }

  lemma TopDistance(f: Fix)
    requires f.kind == BranchB && f.at == 0
    ensures var t := Base(f.sect, 0xFFFF_FFFF, false);
            && Storable(f, t) && OutOfRange(f, t) && Signed(FieldWord(f, t)) == -2 && AppliedBytes(f, t) == [0xFE]
  {
    assert LittleEndian(0xFFFF_FFFE, 1) == [0xFE];
  }

  /** A signed byte of 200 the assembler stores, with no report, and no linker would. */
  lemma SignedByteDisputed(env: Env, f: Fix, st: State)
    requires f.kind == SignedB && AtField(env, f, Tree.Const(200), st)
    ensures OutcomeOf(f.(dead := false), Tree.Const(200)) == Applied(Tree.Const(200), false)
    ensures AppliedBytes(f, Tree.Const(200)) == [200] && Step(Store(StoreSignedByte), env, st).None?
  {
    assert LittleEndian(200, 1) == [200];
  }

  lemma AppliedStorable(log: Log, absolute: set<nat>, i: nat)
    requires Inv(log, absolute) && i < |log.fixes| && log.fixes[i].outcome.Applied?
    ensures Storable(log.fixes[i], log.fixes[i].outcome.expr)
  {
    hide FieldsApart, Alive, EventOk, History, DataHistory, LastStore, LastEvent, EventIs, ImageHolds, StoreOk, Ordered;
    assert FixOk(log, i);
  }

  // ---- Replay is faithful ----

  /** The linker's memory holds every byte as the program stored it last, and is otherwise as it was. */
  ghost predicate Reproduces(S: Setting, start: Memory, mem: Memory) {
    && (forall p :: LastStore(S.log.stores, p) >= 0 ==>
          0 <= Address(S.env, p) < TWO32 && At(mem, Address(S.env, p)) == LastStored(S.log, S.env, p))
    && (forall a: word :: (forall p :: LastStore(S.log.stores, p) >= 0 ==> Address(S.env, p) != a) ==>
         At(mem, a) == At(start, a))
  }

  lemma MemoryReproduces(S: Setting, start: Memory, mem: Memory)
    requires Inv(S.log, S.absolute) && MemoryOk(S, |S.log.events|, start, mem)
    ensures Reproduces(S, start, mem)
  {
    hide Inv, EventByte, LastStored, LastStore, LastEvent, At;
    var n := |S.log.events|;
    assert S.log.events[..n] == S.log.events;
    forall p
      ensures LastStore(S.log.stores, p) >= 0 <==> LastEvent(S.log.events, p) >= 0
      ensures LastStore(S.log.stores, p) >= 0 ==>
                0 <= Address(S.env, p) < TWO32 && At(mem, Address(S.env, p)) == LastStored(S.log, S.env, p)
    {
      assert CellIs(S, n, mem, p);
      if LastStore(S.log.stores, p) >= 0 {
        LastEventByte(S.log, S.absolute, S.env, p);
      } else {
        NeverStored(S.log, S.absolute, p);
      }
    }
    forall a: word | forall p :: LastStore(S.log.stores, p) >= 0 ==> Address(S.env, p) != a
      ensures Outside(S, n, a)
    {
    }
  }

  lemma NeverStored(log: Log, absolute: set<nat>, p: Cell)
    requires Inv(log, absolute) && LastStore(log.stores, p) < 0
    ensures LastEvent(log.events, p) < 0
  {
    hide FieldsApart, Alive, EventOk, History, DataHistory, LastStore, LastEvent, ImageHolds, StoreOk, Ordered, FixOk;
    assert EventIs(log, p);
  }

  /**
   * For any program, and any link that puts its psects apart and reports no error: after each event the linker's stack
   * is empty and its location is the emitter's; and at the end each byte is as the last store of it in source order has
   * it.
   */
  lemma ReplayIsFaithful(ops: seq<Op>, S: Setting, st: State)
    requires Assembled(ops, S.absolute) == Some(S.log) && 0 in S.absolute && Placed(S) && AllocatesReached(S)
    requires st.stack == []
    requires Run(Object(S.log, S.absolute).commands, S.env, st).Some?
    ensures forall n :: 0 <= n <= |S.log.events| ==> InStepAfter(S, n, st)
    ensures var r := Run(Object(S.log, S.absolute).commands, S.env, st).value;
            r.stack == [] && Reproduces(S, st.mem, r.mem)
  {
    hide Inv, Tracked, Placed, Allocated, AllocatesReached, Marked, Assembled, Run, Replayed, Reproduces, Remaining,
      WrittenOnce, Where;
    AssembledKeeps(ops, S.absolute);
    AssembledTracked(ops, S.absolute);
    AssembledMarked(ops, S.absolute);
    ReachedAllocated(S);
    var n := |S.log.events|;
    var em := Replayed(S.log, S.absolute, n);
    var more := Object(S.log, S.absolute).commands[|em.commands|..];
    FlushAdds(em, false);
    RunPrefix(em.commands, more, S.env, st);
    var mid := Run(em.commands, S.env, st).value;
    ReplayRuns(S, n, st);
    MemoryReproduces(S, st.mem, mid.mem);
    ReplayedOk(S.log, S.absolute, n);
    FlushRuns(S, em, false, mid);
    hide InStep, FlushAbsStart;
    forall k | 0 <= k <= n
      ensures InStepAfter(S, k, st)
    {
      PrefixInStep(S, k, st);
    }
  }

  /** Fixup i was finished from an expression read at here, by the definitions early, once those of defs were made. */
  ghost predicate FinishedFrom(log: Log, env: Env, i: nat, e: Term, early: Definitions, here: Place,
                               defs: Definitions) {
    && i < |log.fixes| && Evaluate(e, Macro, early, here).Ok? && Agrees(env, early) && Agrees(env, defs)
    && var f := log.fixes[i];
       (f.outcome.Applied? || f.outcome.Left?)
       && f.outcome.expr == FixupTree(AsTree(Evaluate(e, Macro, early, here).value), defs, IsAddr(f.kind))
  }

  /** The bytes of a field that holds what its expression means. */
  function MeantByte(log: Log, env: Env, i: nat, e: Term, early: Definitions, here: Place, defs: Definitions,
                     p: Cell): octet
    requires i < |log.fixes| && Evaluate(e, Macro, early, here).Ok?
    requires log.fixes[i].at <= p.off < log.fixes[i].at + KindSize(log.fixes[i].kind)
  {
    var f := log.fixes[i];
    var m := Computes(AsTree(Evaluate(e, Macro, early, here).value), defs, IsAddr(f.kind));
    LittleEndian(StoredWord(StoreOf(f.kind), Meaning(e, env, here, m), Wrap(env.base(f.sect) + f.at)),
      KindSize(f.kind))[p.off - f.at]
  }

  lemma LastStoredMeans(log: Log, absolute: set<nat>, env: Env, i: nat, e: Term, early: Definitions, here: Place,
                        defs: Definitions, p: Cell)
    requires Inv(log, absolute) && FinishedFrom(log, env, i, e, early, here, defs)
    requires LastStore(log.stores, p) == log.fixes[i].home
    ensures log.fixes[i].at <= p.off < log.fixes[i].at + KindSize(log.fixes[i].kind)
    ensures LastStored(log, env, p) == MeantByte(log, env, i, e, early, here, defs, p)
  {
    hide FieldsApart, Alive, EventIs, ImageHolds, EventOk, EventHolds, History, DataHistory, StoreOk, Ordered, Evaluate,
      Meaning, Value, FixupTree, Computes, LittleEndian, Agrees, Wrap, OutOfRange, Storable, StoredWord, LastStore,
      OutcomeOf;
    assert FixOk(log, i);
    FinishedMeans(e, early, here, defs, IsAddr(log.fixes[i].kind), env);
  }

  /**
   * And so, from the source to the image: wherever the last store to a byte is a field whose value was found later, the
   * linked image has there what the field's expression means, whatever its symbols were when it was read.
   */
  lemma LinkedFieldMeans(
      ops: seq<Op>, S: Setting, st: State, i: nat, e: Term, early: Definitions, here: Place, defs: Definitions, p: Cell)
    requires Assembled(ops, S.absolute) == Some(S.log) && 0 in S.absolute && Placed(S) && AllocatesReached(S)
    requires st.stack == []
    requires Run(Object(S.log, S.absolute).commands, S.env, st).Some?
    requires FinishedFrom(S.log, S.env, i, e, early, here, defs) && LastStore(S.log.stores, p) == S.log.fixes[i].home
    ensures S.log.fixes[i].at <= p.off < S.log.fixes[i].at + KindSize(S.log.fixes[i].kind)
    ensures 0 <= Address(S.env, p) < TWO32
    ensures var r := Run(Object(S.log, S.absolute).commands, S.env, st).value;
            At(r.mem, Address(S.env, p)) == MeantByte(S.log, S.env, i, e, early, here, defs, p)
  {
    hide Inv, Placed, AllocatesReached, Assembled, Run, Object, FinishedFrom, LastStored, MeantByte, InStepAfter, At;
    AssembledKeeps(ops, S.absolute);
    ReplayIsFaithful(ops, S, st);
    FinishedRange(S.log, S.env, i, e, early, here, defs);
    LastStoredMeans(S.log, S.absolute, S.env, i, e, early, here, defs, p);
  }

  lemma FinishedRange(log: Log, env: Env, i: nat, e: Term, early: Definitions, here: Place, defs: Definitions)
    requires FinishedFrom(log, env, i, e, early, here, defs)
    ensures i < |log.fixes| && Evaluate(e, Macro, early, here).Ok?
  {
  }

  /** For any program, each relocation is written once, with its own key, and none is left outside any stored data. */
  lemma RelocationsWrittenOnce(ops: seq<Op>, absolute: set<nat>, log: Log)
    requires Assembled(ops, absolute) == Some(log)
    ensures var em := Object(log, absolute);
            && em.relocs == map[]
            && (forall a, b :: 0 <= a < b < |em.fields| ==> em.fields[a] != em.fields[b])
            && forall key :: key in em.fields <==> key in RelocationsOf(log, |log.fixes|)
    ensures forall i: nat, j: nat :: i < j < |log.fixes| ==> KeyOf(log, log.fixes[i]) != KeyOf(log, log.fixes[j])
  {
    hide Inv, Tracked, Assembled, Object, RelocationsOf, KeyOf;
    AssembledKeeps(ops, absolute);
    AssembledTracked(ops, absolute);
    EachWrittenOnce(log, absolute);
    forall i: nat, j: nat | i < j < |log.fixes|
      ensures KeyOf(log, log.fixes[i]) != KeyOf(log, log.fixes[j])
    {
      KeysDiffer(log, absolute, i, j);
    }
  }

  lemma FlushAdds(em: Emitter, skip: bool)
    ensures FlushAbsStart(em, skip).commands == em.commands + FlushAbsStart(em, skip).commands[|em.commands|..]
  {
    hide SetLocation;
  }

  /** The commands of the first n events run, and leave the linker in step with the emitter. */
  predicate InStepAfter(S: Setting, n: nat, st: State) {
    && n <= |S.log.events|
    && var r := Run(Replayed(S.log, S.absolute, n).commands, S.env, st);
       r.Some? && InStep(S, Replayed(S.log, S.absolute, n), r.value)
  }

  lemma {:induction false} PrefixInStep(S: Setting, n: nat, st: State)
    requires Sound(S) && n <= |S.log.events| && st.stack == []
    requires Run(Replayed(S.log, S.absolute, |S.log.events|).commands, S.env, st).Some?
    ensures InStepAfter(S, n, st)
    decreases |S.log.events| - n
  {
    hide Sound, Run, Tell, MemoryOk, InStep;
    if n < |S.log.events| {
      PrefixInStep(S, n + 1, st);
      var before := Replayed(S.log, S.absolute, n);
      TellAdds(S, n, before);
      RunPrefix(before.commands, Replayed(S.log, S.absolute, n + 1).commands[|before.commands|..], S.env, st);
    }
    ReplayRuns(S, n, st);
  }
}
