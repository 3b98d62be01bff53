/**
 Linking the object of an assembly: after every event the location is the emitter's, and at the end every byte is the
 last store's.
 */
module Linking {
  import opened Words
  import opened Expressions
  import opened Linker
  import opened Output
  import opened Histories
  import opened Positions
  import opened Emission
  import opened Relocated
  import opened Replay
  import opened Faithful

  /** The bytes an event stores: from lo up to hi of psect sect. */
  datatype Span = Span(sect: nat, lo: int, hi: int)

  function SpanOf(e: Event): Span {
    match e
    case DataAt(s, offset, size) => Span(s, offset, offset + size)
    case ConstAt(s, offset, size, _, _) => Span(s, offset, offset + size)
    case PatchAt(s, offset, size, _, _) => Span(s, offset, offset + size)
    case _ => Span(0, 0, 0)
  }

  ghost predicate EventLaid(S: Setting, k: nat, before: Memory, after: Memory)
    requires k < |S.log.events|
  {
    var span := SpanOf(S.log.events[k]);
    Laid(S, k, span.sect, span.lo, span.hi, before, after)
  }

  /** Each relocatable psect ends below the top of the address space, and no two share a byte. */
  ghost predicate Placed(S: Setting) {
    && (forall s: nat :: s !in S.absolute ==> S.env.base(s) + S.alloc(s) < TWO32)
    && (forall s: nat, t: nat :: s !in S.absolute && t !in S.absolute && s != t ==>
          S.env.base(s) + S.alloc(s) <= S.env.base(t) || S.env.base(t) + S.alloc(t) <= S.env.base(s))
  }

  /** The object allocates what its events store. */
  ghost predicate Allocated(S: Setting) {
    forall k :: 0 <= k < |S.log.events| ==> SpanOf(S.log.events[k]).hi <= S.alloc(SpanOf(S.log.events[k]).sect)
  }

  ghost predicate Sound(S: Setting) {
    Inv(S.log, S.absolute) && Tracked(S.log) && 0 in S.absolute && Placed(S) && Allocated(S)
  }

  /** The linker's stack is empty, and, in a relocatable psect, its location is the emitter's. */
  predicate InStep(S: Setting, em: Emitter, st: State) {
    && st.stack == []
    && (em.sect.Some? && em.sect.value !in S.absolute ==> st.loc == Wrap(S.env.base(em.sect.value) + em.loc))
  }

  // ---- Commands ----

  lemma SetLocationRuns(env: Env, s: nat, offset: word, st: State)
    ensures Run(SetLocation(s, offset), env, st) == Some(st.(loc := Wrap(env.base(s) + offset)))
  {
    hide StackPsectOffset, StackedValue;
    var c := StackPsectOffset(s, offset, false);
    StackPsectOffsetExact(s, offset, false);
    RunConcat([c], [SetRelocBase], env, st);
    RunOne(c, env, st);
    var v := Wrap(env.base(s) + offset);
    RunOne(SetRelocBase, env, Push(st, v));
    assert Pop(Push(st, v)) == st;
    assert SetLocation(s, offset) == [c] + [SetRelocBase];
  }

  lemma ConstantRuns(env: Env, v: word, k: StoreKind, st: State)
    requires !StoresDisplacement(k) && Run(ConstantCommands(v, k), env, st).Some?
    ensures Run(ConstantCommands(v, k), env, st)
            == Some(st.(mem := Write(st.mem, st.loc, LittleEndian(v, StoreSize(k))),
              loc := Wrap(st.loc + StoreSize(k))))
  {
    hide StackConstant, StackedValue, Fits, Write, LittleEndian;
    var c := StackConstant(v);
    StackConstantExact(v);
    RunConcat([c], [Store(k)], env, st);
    RunOne(c, env, st);
    RunOne(Store(k), env, Push(st, v));
    assert Pop(Push(st, v)) == st;
    assert ConstantCommands(v, k) == [c] + [Store(k)];
  }

  lemma AugmentRuns(env: Env, v: word, st: State)
    ensures Run([AugmentRelocBase(v)], env, st) == Some(st.(loc := Wrap(st.loc + v)))
  {
    RunOne(AugmentRelocBase(v), env, st);
  }

  lemma WrapBoth(x: int, y: int)
    ensures Wrap(Wrap(x) + Wrap(y)) == Wrap(x + y)
  {
    hide Wrap;
    WrapSum(x, Wrap(y));
    WrapSum(y, x);
  }

  lemma WrapMoves(base: word, from: word, to: word, n: int)
    ensures Wrap(Wrap(base + from) + Wrap(to - from)) == Wrap(base + to)
    ensures Wrap(Wrap(base + from) + Wrap(n)) == Wrap(base + Wrap(from + n))
  {
    hide Wrap;
    WrapBoth(base + from, to - from);
    WrapBoth(base + from, n);
    WrapSum(from + n, base);
  }

  /** There and back. */
  lemma WrapReturns(at: word, loc: word, offset: word, size: word)
    ensures Wrap(Wrap(Wrap(at + Wrap(offset - loc)) + size) + Wrap(loc - offset - size)) == at
  {
    hide Wrap;
    WrapSum(offset - loc, at);
    WrapSum(at + offset - loc, size);
    WrapBoth(at + offset - loc + size, loc - offset - size);
    WrapSum(at, 0);
    WrapWord(at);
  }

  lemma WrapWord(w: word)
    ensures Wrap(w) == w
  {
  }

  lemma Same(front: seq<Command>, a: seq<Command>, b: seq<Command>)
    requires front + a == front + b
    ensures a == b
  {
    assert (front + a)[|front|..] == a && (front + b)[|front|..] == b;
  }

  lemma NothingLaid(S: Setting, k: nat, s: nat, p: int, mem: Memory)
    ensures Laid(S, k, s, p, p, mem, mem)
  {
    hide EventByte, At;
  }

  /** A constant's bytes, stored where its event has them, are the event's. */
  lemma ConstantLaid(S: Setting, k: nat, s: nat, offset: word, size: word, value: word, mem: Memory)
    requires Sound(S) && k < |S.log.events| && SpanOf(S.log.events[k]) == Span(s, offset, offset + size)
    requires s !in S.absolute && size <= 4
    requires match S.log.events[k]
             case ConstAt(_, _, n, v, _) => v == value && n == size
             case PatchAt(_, _, n, v, _) => v == value && n == size
             case _ => false
    ensures S.env.base(s) + offset + size < TWO32
    ensures EventLaid(S, k, mem, Write(mem, S.env.base(s) + offset, LittleEndian(value, size)))
  {
    hide Inv, Tracked, LittleEndian, Laid, Write;
    assert SpanOf(S.log.events[k]).hi <= S.alloc(SpanOf(S.log.events[k]).sect);
    LaidWrite(S, k, s, offset, LittleEndian(value, size), mem);
  }

  // ---- Events ----

  lemma EventFacts(S: Setting, n: nat)
    requires Sound(S) && n < |S.log.events|
    ensures EventOk(S.log.events[n], S.absolute) && TakesUp(Where(S.log.events[..n]), S.log.events[n])
    ensures var span := SpanOf(S.log.events[n]);
            span.hi <= S.alloc(span.sect) && (span.sect !in S.absolute ==> S.env.base(span.sect) + span.hi < TWO32)
  {
    hide Where, FixOk, StoreOk, Ordered, FieldsApart, Alive, History, DataHistory, EventIs, ImageHolds;
    assert SpanOf(S.log.events[n]).hi <= S.alloc(SpanOf(S.log.events[n]).sect);
  }

  /** flushAbsStart, before an event, leaves the linker in step: the emitter was in the absolute psect. */
  lemma FlushRuns(S: Setting, em: Emitter, skip: bool, st: State)
    requires 0 in S.absolute && InStep(S, em, st) && (em.absStart ==> em.sect == Some(0))
    ensures var em' := FlushAbsStart(em, skip);
            var more := em'.commands[|em.commands|..];
            em'.commands == em.commands + more && em'.sect == em.sect && em'.loc == em.loc && em'.relocs == em.relocs
            && Run(more, S.env, st).Some? && InStep(S, em', Run(more, S.env, st).value)
            && Run(more, S.env, st).value.mem == st.mem
  {
    hide SetLocation;
    SetLocationRuns(S.env, 0, 0, st);
    var more := FlushAbsStart(em, skip).commands[|em.commands|..];
    assert more == [] || more == SetLocation(0, 0);
  }

  /** What an event, told, adds to the object. */
  ghost predicate Adds(S: Setting, n: nat, em: Emitter, em': Emitter, more: seq<Command>) {
    n < |S.log.events| && em' == Told(S.log, S.absolute, n, em) && em'.commands == em.commands + more
  }

  /** The emitter is where the event takes up. */
  predicate Poised(S: Setting, n: nat, em: Emitter) {
    && n < |S.log.events|
    && var at := Where(S.log.events[..n]);
       em.loc == at.loc && at.sect == (if em.sect.Some? then em.sect.value else 0)
  }

  lemma Standing(S: Setting, n: nat, em: Emitter)
    requires Sound(S) && Poised(S, n, em)
    ensures 0 in S.absolute && em.loc == Where(S.log.events[..n]).loc
    ensures em.sect.Some? ==> em.sect.value == Where(S.log.events[..n]).sect
    ensures Where(S.log.events[..n]).sect !in S.absolute ==> em.sect == Some(Where(S.log.events[..n]).sect)
  {
    hide Inv, Tracked, Placed, Allocated;
  }

  lemma MoveRuns(S: Setting, n: nat, em: Emitter, more: seq<Command>, st: State)
    requires Sound(S) && Poised(S, n, em) && Adds(S, n, em, Told(S.log, S.absolute, n, em), more) && InStep(S, em, st)
    requires var e := S.log.events[n]; e.Switch? || e.SetTo? || e.Gap?
    ensures var em' := Told(S.log, S.absolute, n, em);
            var r := Run(more, S.env, st);
            r.Some? && InStep(S, em', r.value) && EventLaid(S, n, st.mem, r.value.mem)
  {
    hide Sound, Wrap, Poised, Where, Laid, Run, SetLocation;
    EventFacts(S, n);
    Standing(S, n, em);
    NothingLaid(S, n, 0, 0, st.mem);
    NothingRuns(S, n, 0, 0, st);
    var at := |em.commands|;
    assert more == Told(S.log, S.absolute, n, em).commands[at..];
    match S.log.events[n]
    case Switch(s, offset, _) => SetLocationRuns(S.env, s, offset, st);
    case SetTo(s, offset) =>
      AugmentRuns(S.env, Wrap(offset - em.loc), st);
      WrapMoves(S.env.base(s), em.loc, offset, 0);
    case Gap(s, k) =>
      AugmentRuns(S.env, k, st);
      WrapWord(k);
      WrapMoves(S.env.base(s), em.loc, 0, k);
    case _ =>
  }

  lemma DataEventRuns(S: Setting, n: nat, em: Emitter, more: seq<Command>, st: State)
    requires Sound(S) && Poised(S, n, em) && Adds(S, n, em, Told(S.log, S.absolute, n, em), more) && InStep(S, em, st)
    requires Remaining(S.log, em.relocs, n) && S.log.events[n].DataAt? && Run(more, S.env, st).Some?
    ensures var em' := Told(S.log, S.absolute, n, em);
            var r := Run(more, S.env, st).value;
            InStep(S, em', r) && EventLaid(S, n, st.mem, r.mem)
  {
    hide Inv, Tracked, Placed, Allocated, Where, Laid, Run, Data, Remaining, Clear, Ahead;
    EventFacts(S, n);
    var e := S.log.events[n];
    RemainingData(S.log, S.absolute, n, em.relocs);
    hide WrittenOnce;
    Same(em.commands, more, Data(S.log, n, e.sect, e.offset, e.offset + e.size, em.relocs).commands);
    DataRuns(S, n, e.sect, e.offset, e.offset + e.size, em.relocs, st);
  }

  lemma ConstEventRuns(S: Setting, n: nat, em: Emitter, more: seq<Command>, st: State)
    requires Sound(S) && Poised(S, n, em) && Adds(S, n, em, Told(S.log, S.absolute, n, em), more) && InStep(S, em, st)
    requires S.log.events[n].ConstAt? && Run(more, S.env, st).Some?
    ensures var em' := Told(S.log, S.absolute, n, em);
            var r := Run(more, S.env, st).value;
            InStep(S, em', r) && EventLaid(S, n, st.mem, r.mem)
  {
    hide Sound, Wrap, Poised, Where, Laid, Run, ConstantCommands, LittleEndian, Write, EventLaid;
    EventFacts(S, n);
    Standing(S, n, em);
    var e := S.log.events[n];
    var k := if e.form.SignedByte? then StoreSignedByte else StoreOfSize(e.size);
    Same(em.commands, more, ConstantCommands(e.value, k));
    ConstantRuns(S.env, e.value, k, st);
    assert StoreSize(k) == e.size;
    WrapWord(e.size);
    WrapMoves(S.env.base(e.sect), em.loc, 0, e.size);
    ConstantLaid(S, n, e.sect, e.offset, e.size, e.value, st.mem);
    WrapWord(S.env.base(e.sect) + e.offset);
  }

  lemma PatchRuns(env: Env, loc: word, offset: word, size: word, value: word, immediate: bool, st: State)
    requires size == 1 || size == 2 || size == 4
    requires Run(PatchCommands(loc, offset, size, value, immediate), env, st).Some?
    ensures var at := Wrap(st.loc + Wrap(offset - loc));
            Run(PatchCommands(loc, offset, size, value, immediate), env, st)
            == Some(st.(mem := Write(st.mem, at, LittleEndian(value, size)), loc := st.loc))
  {
    hide LittleEndian, Write, Run, ConstantCommands, Wrap;
    var at := Wrap(st.loc + Wrap(offset - loc));
    var back := Wrap(loc - offset - size);
    var first, last := [AugmentRelocBase(Wrap(offset - loc))], [AugmentRelocBase(back)];
    var middle := if immediate then [StoreImmediate(LittleEndian(value, size))]
      else ConstantCommands(value, StoreOfSize(size));
    RunConcat(first, middle, env, st);
    RunConcat(first + middle, last, env, st);
    AugmentRuns(env, Wrap(offset - loc), st);
    var st1 := st.(loc := at);
    var st2 := st1.(mem := Write(st.mem, at, LittleEndian(value, size)), loc := Wrap(at + size));
    if immediate {
      RunOne(StoreImmediate(LittleEndian(value, size)), env, st1);
    } else {
      ConstantRuns(env, value, StoreOfSize(size), st1);
    }
    AugmentRuns(env, back, st2);
    WrapReturns(st.loc, loc, offset, size);
  }

  lemma PatchEventRuns(S: Setting, n: nat, em: Emitter, more: seq<Command>, st: State)
    requires Sound(S) && Poised(S, n, em) && Adds(S, n, em, Told(S.log, S.absolute, n, em), more) && InStep(S, em, st)
    requires S.log.events[n].PatchAt? && Run(more, S.env, st).Some?
    ensures var em' := Told(S.log, S.absolute, n, em);
            var r := Run(more, S.env, st).value;
            InStep(S, em', r) && EventLaid(S, n, st.mem, r.mem)
  {
    hide Sound, Wrap, Poised, Where, Laid, Run, PatchCommands, LittleEndian, Write, EventLaid;
    EventFacts(S, n);
    Standing(S, n, em);
    var e := S.log.events[n];
    Same(em.commands, more, PatchCommands(em.loc, e.offset, e.size, e.value, e.immediate));
    PatchRuns(S.env, em.loc, e.offset, e.size, e.value, e.immediate, st);
    ConstantLaid(S, n, e.sect, e.offset, e.size, e.value, st.mem);
    WrapWord(S.env.base(e.sect) + e.offset);
    WrapMoves(S.env.base(e.sect), em.loc, e.offset, 0);
  }

  lemma ToldRuns(S: Setting, n: nat, em: Emitter, more: seq<Command>, st: State)
    requires Sound(S) && Poised(S, n, em) && Adds(S, n, em, Told(S.log, S.absolute, n, em), more) && InStep(S, em, st)
    requires Remaining(S.log, em.relocs, n) && Run(more, S.env, st).Some?
    ensures var em' := Told(S.log, S.absolute, n, em);
            var r := Run(more, S.env, st).value;
            InStep(S, em', r) && EventLaid(S, n, st.mem, r.mem)
  {
    hide Sound, Poised, InStep, Remaining, Run, Told, EventLaid;
    match S.log.events[n]
    case DataAt(_, _, _) => DataEventRuns(S, n, em, more, st);
    case ConstAt(_, _, _, _, _) => ConstEventRuns(S, n, em, more, st);
    case PatchAt(_, _, _, _, _) => PatchEventRuns(S, n, em, more, st);
    case _ => MoveRuns(S, n, em, more, st);
  }
}
