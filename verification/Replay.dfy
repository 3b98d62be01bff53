/** Running the object's commands on the linker: what each event leaves in memory, and where it leaves the location. */
module Replay {
  import opened Words
  import opened Expressions
  import opened Linker
  import opened Output
  import opened Histories
  import opened Emission
  import opened Relocated

  /** An assembly, and a link of it: where each psect is put, and how much of it is allocated. */
  datatype Setting = Setting(log: Log, absolute: set<nat>, env: Env, alloc: nat -> nat)

  function Address(env: Env, p: Cell): int {
    env.base(p.sect) + p.off
  }

  /** The byte at p of fixup f's field, once it holds t's value as the linker has it. */
  function ValueByte(env: Env, f: Fix, t: Tree, p: Cell): octet {
    if f.at <= p.off < f.at + KindSize(f.kind) then
      var v := Value(t, env, Expressions.Linker);
      LittleEndian(StoredWord(StoreOf(f.kind), v, Wrap(env.base(f.sect) + f.at)), KindSize(f.kind))[p.off - f.at]
    else 0
  }

  /** The byte the linker stores for a field left to it. */
  function FieldByte(log: Log, env: Env, i: int, p: Cell): octet {
    if 0 <= i < |log.fixes| && log.fixes[i].outcome.Left?
    then ValueByte(env, log.fixes[i], log.fixes[i].outcome.expr, p) else 0
  }

  function ConstantByte(size: word, value: word, k: int): octet {
    if 0 <= k < size <= 4 then LittleEndian(value, size)[k] else 0
  }

  /** The byte that replaying an event leaves at p. */
  function EventByte(log: Log, env: Env, k: nat, p: Cell): octet {
    if k >= |log.events| then 0
    else
      match log.events[k]
      case DataAt(_, _, _) =>
        var i := FieldOf(log, k, p);
        if i >= 0 then FieldByte(log, env, i, p) else ByteAt(log, k, p)
      case ConstAt(_, offset, size, value, _) => ConstantByte(size, value, p.off - offset)
      case PatchAt(_, offset, size, value, _) => ConstantByte(size, value, p.off - offset)
      case _ => 0
  }

  predicate LaidAt(S: Setting, k: nat, s: nat, lo: int, hi: int, before: Memory, after: Memory, a: word) {
    At(after, a) ==
    if S.env.base(s) + lo <= a < S.env.base(s) + hi then EventByte(S.log, S.env, k, Cell(s, a - S.env.base(s)))
    else At(before, a)
  }

  /** The event's bytes from lo up to hi of psect s are in memory, and nothing else has changed. */
  ghost predicate Laid(S: Setting, k: nat, s: nat, lo: int, hi: int, before: Memory, after: Memory) {
    forall a: word :: LaidAt(S, k, s, lo, hi, before, after, a)
  }

  lemma LaidJoin(S: Setting, k: nat, s: nat, lo: int, mid: int, hi: int, m0: Memory, m1: Memory, m2: Memory)
    requires lo <= mid <= hi && Laid(S, k, s, lo, mid, m0, m1) && Laid(S, k, s, mid, hi, m1, m2)
    ensures Laid(S, k, s, lo, hi, m0, m2)
  {
    hide EventByte, At;
    forall a: word
      ensures LaidAt(S, k, s, lo, hi, m0, m2, a)
    {
      assert LaidAt(S, k, s, lo, mid, m0, m1, a) && LaidAt(S, k, s, mid, hi, m1, m2, a);
    }
  }

  /** Bytes written one after another are laid down, if they are the event's. */
  lemma LaidWrite(S: Setting, k: nat, s: nat, lo: int, data: seq<octet>, before: Memory)
    requires 0 <= lo && S.env.base(s) + lo + |data| < TWO32
    requires forall q :: lo <= q < lo + |data| ==> EventByte(S.log, S.env, k, Cell(s, q)) == data[q - lo]
    ensures Laid(S, k, s, lo, lo + |data|, before, Write(before, S.env.base(s) + lo, data))
  {
    hide EventByte, At;
    var at: word := S.env.base(s) + lo;
    var after, hi := Write(before, at, data), lo + |data|;
    forall a: word
      ensures LaidAt(S, k, s, lo, hi, before, after, a)
    {
      WriteAt(before, at, data, a);
      if Within(a, at, |data|) {
        assert EventByte(S.log, S.env, k, Cell(s, a - S.env.base(s))) == data[a - S.env.base(s) - lo];
      }
    }
  }

  /** The linker is where its psect's offset p is. */
  predicate AtOffset(S: Setting, s: nat, p: int, st: State) {
    p >= 0 && st.loc == S.env.base(s) + p
  }

  lemma {:induction false} StoredRuns(S: Setting, k: nat, s: nat, p: int, n: nat, st: State)
    requires k < |S.log.events| && S.log.events[k].DataAt? && AtOffset(S, s, p, st) && S.env.base(s) + p + n < TWO32
    requires forall q :: p <= q < p + n ==> FieldOf(S.log, k, Cell(s, q)) == -1
    ensures var r := Run(Stored(S.log, k, s, p, n), S.env, st);
            r.Some? && r.value.stack == st.stack && AtOffset(S, s, p + n, r.value)
            && Laid(S, k, s, p, p + n, st.mem, r.value.mem)
    decreases n
  {
    hide ByteAt, FieldOf, At, Write;
    if n > 0 {
      StoredRuns(S, k, s, p, n - 1, st);
      var front, b := Stored(S.log, k, s, p, n - 1), ByteAt(S.log, k, Cell(s, p + n - 1));
      var mid := Run(front, S.env, st).value;
      RunConcat(front, [StoreImmediate([b])], S.env, st);
      RunOne(StoreImmediate([b]), S.env, mid);
      LaidWrite(S, k, s, p + n - 1, [b], mid.mem);
      LaidJoin(S, k, s, p, p + n - 1, p + n, st.mem, mid.mem, Write(mid.mem, mid.loc, [b]));
    }
  }

  lemma StoreRuns(S: Setting, k: nat, i: nat, v: word, st: State)
    requires i < |S.log.fixes| && S.log.fixes[i].outcome.Left? && k < |S.log.events| && S.log.events[k].DataAt?
    requires var f := S.log.fixes[i];
             && v == Value(f.outcome.expr, S.env, Expressions.Linker) && st.stack != [] && Top(st) == v
             && AtOffset(S, f.sect, f.at, st) && S.env.base(f.sect) + f.at + KindSize(f.kind) < TWO32
             && (forall q :: f.at <= q < f.at + KindSize(f.kind) ==> FieldOf(S.log, k, Cell(f.sect, q)) == i)
             && Step(Store(StoreOf(f.kind)), S.env, st).Some?
    ensures var f, r := S.log.fixes[i], Step(Store(StoreOf(S.log.fixes[i].kind)), S.env, st).value;
            && r.stack == Pop(st).stack && AtOffset(S, f.sect, f.at + KindSize(f.kind), r)
            && Laid(S, k, f.sect, f.at, f.at + KindSize(f.kind), st.mem, r.mem)
  {
    hide FieldOf, At, Write, Laid, StoredWord, Fits, LittleEndian, Value;
    var f := S.log.fixes[i];
    var data := LittleEndian(StoredWord(StoreOf(f.kind), v, st.loc), KindSize(f.kind));
    forall q | f.at <= q < f.at + |data|
      ensures EventByte(S.log, S.env, k, Cell(f.sect, q)) == data[q - f.at]
    {
      assert FieldOf(S.log, k, Cell(f.sect, q)) == i;
    }
    LaidWrite(S, k, f.sect, f.at, data, st.mem);
  }

  /** A field's commands lay down its operand's bytes and its value. */
  lemma FieldRuns(S: Setting, k: nat, s: nat, p: int, n: nat, i: nat, st: State)
    requires Inv(S.log, S.absolute) && Operand(S.log, s, p, n, i, k) && k < |S.log.events| && S.log.events[k].DataAt?
    requires AtOffset(S, s, p, st) && S.env.base(s) + p + n + KindSize(S.log.fixes[i].kind) < TWO32
    requires Run(FieldCommands(S.log, k, s, p, n, RelocationOf(S.log, i)), S.env, st).Some?
    ensures var r := Run(FieldCommands(S.log, k, s, p, n, RelocationOf(S.log, i)), S.env, st).value;
            var p' := p + n + KindSize(S.log.fixes[i].kind);
            r.stack == st.stack && AtOffset(S, s, p', r) && Laid(S, k, s, p, p', st.mem, r.mem)
  {
    hide Inv, FieldOf, At, Write, Laid, StoredWord, Fits, LittleEndian, Value, Stored, Program, EventByte, Run, Step;
    var f := S.log.fixes[i];
    var t, middle, last := f.outcome.expr, Stored(S.log, k, s, p, n), Store(StoreOf(f.kind));
    var v := Value(t, S.env, Expressions.Linker);
    forall q | p <= q < p + n + KindSize(f.kind)
      ensures FieldOf(S.log, k, Cell(s, q)) == if q < p + n then -1 else i
    {
      OperandBytes(S.log, S.absolute, k, s, p, n, i, q);
    }
    ProgramComputesValue(t, S.env, st);
    RunConcat(Program(t), middle, S.env, st);
    RunConcat(Program(t) + middle, [last], S.env, st);
    StoredRuns(S, k, s, p, n, Push(st, v));
    var st2 := Run(middle, S.env, Push(st, v)).value;
    RunOne(last, S.env, st2);
    StoreRuns(S, k, i, v, st2);
    LaidJoin(S, k, s, p, p + n, p + n + KindSize(f.kind), st.mem, st2.mem, Step(last, S.env, st2).value.mem);
    assert Pop(st2).stack == st.stack;
  }

  lemma AheadAfter(log: Log, relocs: Relocations, s: nat, p: int, event: int, key: Key, p': int)
    requires Ahead(log, relocs, s, p, event) && p <= p' && key.offset < p'
    ensures Ahead(log, relocs - {key}, s, p', event)
  {
    hide IndexOf, RelocationOf;
    forall q | q >= p'
      ensures Matches(log, relocs - {key}, Key(s, q, event), IndexOf(log, Key(s, q, event)))
    {
      assert Matches(log, relocs, Key(s, q, event), IndexOf(log, Key(s, q, event)));
    }
  }

  lemma AheadNext(log: Log, relocs: Relocations, s: nat, p: int, event: int)
    requires Ahead(log, relocs, s, p, event)
    ensures Ahead(log, relocs, s, p + 1, event)
  {
    hide IndexOf, Matches;
  }

  /** A data event's commands lay down its bytes, from p to its end, and leave the stack as it was. */
  lemma {:induction false} DataRuns(S: Setting, k: nat, s: nat, p: int, end: int, relocs: Relocations, st: State)
    requires InData(S.log, S.absolute, k, s, p, end) && Clear(S.log, k, p) && Ahead(S.log, relocs, s, p, k)
    requires AtOffset(S, s, p, st) && S.env.base(s) + end < TWO32
    requires Run(Data(S.log, k, s, p, end, relocs).commands, S.env, st).Some?
    ensures var r := Run(Data(S.log, k, s, p, end, relocs).commands, S.env, st).value;
            r.stack == st.stack && AtOffset(S, s, end, r) && Laid(S, k, s, p, end, st.mem, r.mem)
    decreases end - p
  {
    hide Inv, Clear, Ahead, Laid, FieldCommands, Stored, FieldOf, IndexOf, PrefixAt, Run, AtOffset, RelocationOf;
    if p >= end {
      NothingRuns(S, k, s, p, st);
    } else {
      var n := PrefixAt(relocs, s, p, end, k);
      var key := Key(s, p + n, k);
      if key in relocs {
        var i := Found(S.log, S.absolute, k, s, p, end, relocs);
        var p' := p + n + KindSize(S.log.fixes[i].kind);
        var first, rest := FieldCommands(S.log, k, s, p, n, relocs[key]), Data(S.log, k, s, p', end, relocs - {key});
        KindOf(S.log, i);
        RunConcat(first, rest.commands, S.env, st);
        FieldRuns(S, k, s, p, n, i, st);
        var mid := Run(first, S.env, st).value;
        AheadAfter(S.log, relocs, s, p, k, key, p');
        DataRuns(S, k, s, p', end, relocs - {key}, mid);
        LaidJoin(S, k, s, p, p', end, st.mem, mid.mem, Run(rest.commands, S.env, mid).value.mem);
      } else {
        NoneFound(S.log, S.absolute, k, s, p, end, relocs);
        var first, rest := Stored(S.log, k, s, p, 1), Data(S.log, k, s, p + 1, end, relocs);
        RunConcat(first, rest.commands, S.env, st);
        StoredRuns(S, k, s, p, 1, st);
        var mid := Run(first, S.env, st).value;
        AheadNext(S.log, relocs, s, p, k);
        DataRuns(S, k, s, p + 1, end, relocs, mid);
        LaidJoin(S, k, s, p, p + 1, end, st.mem, mid.mem, Run(rest.commands, S.env, mid).value.mem);
      }
    }
  }

  lemma KindOf(log: Log, i: nat)
    requires i < |log.fixes| && log.fixes[i].outcome.Left?
    ensures RelocationOf(log, i).kind == log.fixes[i].kind
  {
  }

  lemma NothingRuns(S: Setting, k: nat, s: nat, p: int, st: State)
    ensures Run([], S.env, st) == Some(st) && Laid(S, k, s, p, p, st.mem, st.mem)
  {
    hide EventByte, At;
  }
}
