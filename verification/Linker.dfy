/**
 The object language's TIR commands (section 7.4 of the VMS Linker Utility Manual), the linker's stack machine
 that runs them, and the stack programs the assembler writes for the values it leaves to the linker.
 */
module Linker {
  import opened Words
  import opened Expressions

  /** A constant's or a psect offset's size in a command, and whether stacking it extends its sign. */
  datatype Form = UnsignedByte | SignedByte | UnsignedWord | SignedWord | Longword

  /** How a store command writes the value it pops. */
  datatype StoreKind =
    | StoreByte | StoreWord | StoreLong | StoreSignedByte | StoreSignedWord
    | StoreByteDisp | StoreWordDisp | StoreLongDisp | StoreAddress

  datatype Command =
    | StackConst(form: Form, value: word)
    | StackPsect(form: Form, psect: nat, value: word)
    | StackGlobal(name: string)
    | StackEntryMask(name: string)
    | Operate(op: Operator)
    | OperateNegate
    | OperateComplement
    | SetRelocBase
    | AugmentRelocBase(value: word)
    | StoreImmediate(data: seq<octet>)
    | Store(kind: StoreKind)

  /** The value a stack command pushes for its operand. */
  function StackedValue(form: Form, value: word): word {
    match form
    case SignedByte => if value < 0x80 then value else Wrap(value - 0x100)
    case SignedWord => if value < 0x8000 then value else Wrap(value - 0x1_0000)
    case _ => value
  }

  /** Whether a command of this form has room for its operand. */
  predicate Encodable(form: Form, value: word) {
    match form
    case UnsignedByte => value <= 0xFF
    case SignedByte => value <= 0xFF
    case UnsignedWord => value <= 0xFFFF
    case SignedWord => value <= 0xFFFF
    case Longword => true
  }

  function StackConstant(v: word): Command {
    var s := Signed(v);
    if v <= 0xFF then StackConst(UnsignedByte, v)
    else if -128 <= s < 0 then StackConst(SignedByte, v % 0x100)
    else if v <= 0xFFFF then StackConst(UnsignedWord, v)
    else if -32768 <= s < 0 then StackConst(SignedWord, v % 0x1_0000)
    else StackConst(Longword, v)
  }

  function StackPsectOffset(psect: nat, offset: word, long: bool): Command {
    var s := Signed(offset);
    if !long && -128 <= s <= 127 then StackPsect(SignedByte, psect, offset % 0x100)
    else if !long && -32768 <= s <= 32767 then StackPsect(SignedWord, psect, offset % 0x1_0000)
    else StackPsect(Longword, psect, offset)
  }

  /** Postfix order: the commands that leave t's value on the linker's stack. */
  function Program(t: Tree): seq<Command> {
    match t
    case Const(v) => [StackConstant(v)]
    case Base(s, offset, dot) => [StackPsectOffset(s, offset, dot)]
    case Sym(key) => [StackGlobal(key)]
    case Mask(entry) => [StackEntryMask(entry)]
    case Neg(l) => Program(l) + [OperateNegate]
    case Com(l) => Program(l) + [OperateComplement]
    case Binary(op, l, r) => Program(l) + Program(r) + [Operate(op)]
  }

  // ---- The machine ----

  datatype State = State(stack: seq<word>, loc: word, mem: Memory)

  function StoreSize(k: StoreKind): (n: nat)
    ensures 1 <= n <= 4
  {
    match k
    case StoreByte => 1
    case StoreSignedByte => 1
    case StoreByteDisp => 1
    case StoreWord => 2
    case StoreSignedWord => 2
    case StoreWordDisp => 2
    case _ => 4
  }

  predicate StoresDisplacement(k: StoreKind) {
    k == StoreByteDisp || k == StoreWordDisp || k == StoreLongDisp
  }

  /** The longword whose low bytes are stored for value v at loc. */
  function StoredWord(k: StoreKind, v: word, loc: word): word {
    if StoresDisplacement(k) then Wrap(v - (loc + StoreSize(k))) else v
  }

  /** A byte or word value must fit as signed, or, unless it is a displacement or a signed field, as unsigned. */
  predicate Fits(k: StoreKind, v: int) {
    match k
    case StoreByte => -0x80 <= v <= 0xFF
    case StoreWord => -0x8000 <= v <= 0xFFFF
    case StoreSignedByte => -0x80 <= v <= 0x7F
    case StoreByteDisp => -0x80 <= v <= 0x7F
    case StoreSignedWord => -0x8000 <= v <= 0x7FFF
    case StoreWordDisp => -0x8000 <= v <= 0x7FFF
    case _ => true
  }

  function Push(st: State, v: word): State {
    st.(stack := st.stack + [v])
  }

  function Top(st: State): word
    requires st.stack != []
  {
    st.stack[|st.stack| - 1]
  }

  function Pop(st: State): State
    requires st.stack != []
  {
    st.(stack := st.stack[..|st.stack| - 1])
  }

  /** Runs one command; None is the linker's error. */
  function Step(c: Command, env: Env, st: State): Option<State> {
    match c
    case StackConst(form, v) => Some(Push(st, StackedValue(form, v)))
    case StackPsect(form, psect, v) => Some(Push(st, Wrap(env.base(psect) + StackedValue(form, v))))
    case StackGlobal(name) => Some(Push(st, env.external(name)))
    case StackEntryMask(name) => Some(Push(st, env.mask(name)))
    case OperateNegate => if st.stack == [] then None else Some(Push(Pop(st), Negate(Top(st))))
    case OperateComplement => if st.stack == [] then None else Some(Push(Pop(st), Complement(Top(st))))
    case Operate(op) =>
      if |st.stack| < 2 then None
      else Some(Push(Pop(Pop(st)), Apply(Expressions.Linker, op, Top(Pop(st)), Top(st))))
    case SetRelocBase => if st.stack == [] then None else Some(Pop(st).(loc := Top(st)))
    case AugmentRelocBase(v) => Some(st.(loc := Wrap(st.loc + v)))
    case StoreImmediate(data) =>
      Some(st.(mem := Write(st.mem, st.loc, data), loc := Wrap(st.loc + |data|)))
    case Store(k) =>
      if st.stack == [] then None
      else
        var w := StoredWord(k, Top(st), st.loc);
        if !Fits(k, Signed(w)) then None
        else
          var n := StoreSize(k);
          Some(Pop(st).(mem := Write(st.mem, st.loc, LittleEndian(w, n)), loc := Wrap(st.loc + n)))
  }

  function Run(cmds: seq<Command>, env: Env, st: State): Option<State>
    decreases |cmds|
  {
    if cmds == [] then Some(st)
    else
      match Step(cmds[0], env, st)
      case None => None
      case Some(st') => Run(cmds[1..], env, st')
  }

  lemma {:induction false} RunConcat(c1: seq<Command>, c2: seq<Command>, env: Env, st: State)
    ensures Run(c1 + c2, env, st)
            == match Run(c1, env, st) { case None => None case Some(st') => Run(c2, env, st') }
    decreases |c1|
  {
    if c1 == [] {
      assert c1 + c2 == c2;
    } else {
      assert (c1 + c2)[1..] == c1[1..] + c2;
      var next := Step(c1[0], env, st);
      if next.Some? {
        RunConcat(c1[1..], c2, env, next.value);
      }
    }
  }

  lemma RunOne(c: Command, env: Env, st: State)
    ensures Run([c], env, st) == Step(c, env, st)
  {
    if Step(c, env, st).Some? {
      assert Run([], env, Step(c, env, st).value) == Some(Step(c, env, st).value);
    }
  }

  // ---- Stack code computes the tree ----

  lemma ByteExtends(v: word)
    requires -128 <= Signed(v) <= 127
    ensures v % 0x100 <= 0xFF && StackedValue(SignedByte, v % 0x100) == v
  {
    if v >= SIGN {
      assert v % 0x100 == v - 0xFFFF_FF00;
    } else {
      assert v % 0x100 == v;
    }
  }

  lemma WordExtends(v: word)
    requires -32768 <= Signed(v) <= 32767
    ensures v % 0x1_0000 <= 0xFFFF && StackedValue(SignedWord, v % 0x1_0000) == v
  {
    if v >= SIGN {
      assert v % 0x1_0000 == v - 0xFFFF_0000;
    } else {
      assert v % 0x1_0000 == v;
    }
  }

  /** The short forms extend back to the longword they were chosen for, and have room for it. */
  lemma StackConstantExact(v: word)
    ensures var c := StackConstant(v);
            c.StackConst? && Encodable(c.form, c.value) && StackedValue(c.form, c.value) == v
  {
    var s := Signed(v);
    if v > 0xFF && -128 <= s < 0 {
      hide StackedValue;
      ByteExtends(v);
    } else if v > 0xFFFF && -32768 <= s < 0 {
      hide StackedValue;
      WordExtends(v);
    }
  }

  /** No shorter constant command can push v, signed or unsigned. */
  lemma StackConstantShortest(v: word, form: Form, operand: word)
    requires Encodable(form, operand) && StackedValue(form, operand) == v
    ensures FormSize(StackConstant(v).form) <= FormSize(form)
  {
  }

  function FormSize(form: Form): nat {
    match form
    case UnsignedByte => 1
    case SignedByte => 1
    case UnsignedWord => 2
    case SignedWord => 2
    case Longword => 4
  }

  lemma StackPsectOffsetExact(psect: nat, offset: word, long: bool)
    ensures var c := StackPsectOffset(psect, offset, long);
            c.StackPsect? && c.psect == psect && Encodable(c.form, c.value) && StackedValue(c.form, c.value) == offset
  {
    var s := Signed(offset);
    if !long && -128 <= s <= 127 {
      hide StackedValue;
      ByteExtends(offset);
    } else if !long && -32768 <= s <= 32767 {
      hide StackedValue;
      WordExtends(offset);
    }
  }

  /** For every tree, its stack program pushes exactly its value, and leaves the stack below, the location and
      the memory as they were. */
  lemma {:induction false} ProgramComputesValue(t: Tree, env: Env, st: State)
    ensures Run(Program(t), env, st) == Some(Push(st, Value(t, env, Expressions.Linker)))
    decreases t, 0
  {
    match t
    case Const(v) =>
      StackConstantExact(v);
      RunOne(StackConstant(v), env, st);
    case Base(s, offset, dot) =>
      StackPsectOffsetExact(s, offset, dot);
      RunOne(StackPsectOffset(s, offset, dot), env, st);
    case Sym(key) => RunOne(StackGlobal(key), env, st);
    case Mask(entry) => RunOne(StackEntryMask(entry), env, st);
    case Neg(l) => UnaryComputes(l, OperateNegate, env, st);
    case Com(l) => UnaryComputes(l, OperateComplement, env, st);
    case Binary(op, l, r) =>
      var m := Expressions.Linker;
      ProgramComputesValue(l, env, st);
      var st1 := Push(st, Value(l, env, m));
      ProgramComputesValue(r, env, st1);
      var st2 := Push(st1, Value(r, env, m));
      RunConcat(Program(l), Program(r), env, st);
      RunConcat(Program(l) + Program(r), [Operate(op)], env, st);
      RunOne(Operate(op), env, st2);
      assert Pop(st2) == st1;
      assert Pop(st1) == st;
  }

  lemma {:induction false} UnaryComputes(l: Tree, c: Command, env: Env, st: State)
    requires c == OperateNegate || c == OperateComplement
    ensures Run(Program(l) + [c], env, st)
            == Some(Push(st, if c == OperateNegate then Negate(Value(l, env, Expressions.Linker))
                             else Complement(Value(l, env, Expressions.Linker))))
    decreases l, 1
  {
    ProgramComputesValue(l, env, st);
    RunConcat(Program(l), [c], env, st);
    RunOne(c, env, Push(st, Value(l, env, Expressions.Linker)));
    assert Pop(Push(st, Value(l, env, Expressions.Linker))) == st;
  }
}
