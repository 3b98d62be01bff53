/**
 The one field a MACRO assembly hangs its fixup for in the wrong psect: exactly where a source's first store is of a
 value not known yet, read before anything has chosen a psect (pseudo.go, psect.go).
 */
module StrayFixups {
  import opened Words
  import opened Expressions
  import opened Output
  import opened MacroRun
  import opened SourceImage
  import opened Histories
  import TwoPass

  /** Read in an absolute psect, where nothing can be stored, and waiting. */
  predicate LooksStray(n: Note) {
    Reads(n) && n.here.Absolute? && Evaluate(n.e, Macro, n.early, n.here).value.Unknown?
  }

  predicate IsStray(n: Note) {
    n.Value? && n.stray
  }

  /** Only the first store can be stray, and is just if it looks so. */
  predicate Led(a: Assembly) {
    && (a.implicitAbs ==> a.notes == [] && a.log.cur == 0) && (a.notes == [] ==> a.stray.None?)
    && (forall j :: 0 < j < |a.notes| ==> !IsStray(a.notes[j]))
    && (a.notes != [] ==> (a.stray.Some? <==> IsStray(a.notes[0])) && (IsStray(a.notes[0]) <==> LooksStray(a.notes[0])))
  }

  /** b has stored more, none of it stray. */
  predicate Follows(a: Assembly, b: Assembly) {
    && |a.notes| <= |b.notes| && b.notes[..|a.notes|] == a.notes
    && (forall j :: |a.notes| <= j < |b.notes| ==> !IsStray(b.notes[j]))
    && (a.notes == [] && b.notes != [] ==> !LooksStray(b.notes[0]))
    && (b.stray.Some? <==> a.stray.Some?)
    && (b.implicitAbs ==> a.implicitAbs && b.notes == a.notes && b.log.cur == a.log.cur)
  }

  lemma FollowsLed(a: Assembly, b: Assembly)
    requires Led(a) && Follows(a, b)
    ensures Led(b)
  {
    hide LooksStray, IsStray;
    assert forall j :: 0 <= j < |a.notes| ==> b.notes[j] == b.notes[..|a.notes|][j];
  }

  lemma FollowsOn(a: Assembly, b: Assembly, c: Assembly)
    requires Follows(a, b) && Follows(b, c)
    ensures Follows(a, c)
  {
    hide LooksStray, IsStray;
    assert c.notes[..|b.notes|][..|a.notes|] == c.notes[..|a.notes|];
    assert forall j :: 0 <= j < |b.notes| ==> c.notes[j] == c.notes[..|b.notes|][j];
  }

  lemma DoFollows(o: Options, a: Assembly, op: Op, notes: seq<Note>)
    requires Do(o, a, op, notes).Some?
    requires a.implicitAbs ==> notes == [] && (op.Statement? || op.MoveTo? || op.Complete?)
    requires forall k :: 0 <= k < |notes| ==> !IsStray(notes[k]) && (k == 0 && a.notes == [] ==> !LooksStray(notes[k]))
    ensures Follows(a, Do(o, a, op, notes).value)
  {
    hide LooksStray, IsStray, LogEvent, StoreImage, Emit, EmitField, EmitConst, EmitPatch;
  }

  lemma BlankFollows(o: Options, a: Assembly)
    requires UseBlank(o, a).Some?
    ensures Follows(a, UseBlank(o, a).value) && !UseBlank(o, a).value.implicitAbs
  {
    hide LooksStray, IsStray, Do;
    if a.implicitAbs {
      DoFrame(o, a.(implicitAbs := false), Enter(Blank, true), []);
      DoFollows(o, a.(implicitAbs := false), Enter(Blank, true), []);
    }
  }

  lemma {:induction false} WrittenFollows(o: Options, a: Assembly, data: seq<octet>)
    requires !a.implicitAbs && StoreWritten(o, a, data).Some?
    ensures Follows(a, StoreWritten(o, a, data).value) && !StoreWritten(o, a, data).value.implicitAbs
  {
    hide Do, Follows;
    if data == [] {
      SameFollows(a, a);
    } else {
      var k := |data| - 1;
      var b := StoreWritten(o, a, data[..k]).value;
      WrittenFollows(o, a, data[..k]);
      DoFollows(o, b, Op.Bytes([data[k]]), [Written]);
      DoFrame(o, b, Op.Bytes([data[k]]), [Written]);
      FollowsOn(a, b, StoreWritten(o, a, data).value);
    }
  }

  /** Nothing stored. */
  lemma SameFollows(a: Assembly, b: Assembly)
    requires b.notes == a.notes && (b.stray.Some? <==> a.stray.Some?)
    requires b.implicitAbs ==> a.implicitAbs && b.log.cur == a.log.cur
    ensures Follows(a, b)
  {
    hide LooksStray, IsStray;
  }

  lemma PlanFollows(o: Options, a: Assembly, p: Plan, n: Note)
    requires !a.implicitAbs && !IsStray(n) && StorePlan(o, a, p, n).Some?
    requires a.notes == [] && a.log.cur !in o.absolute ==> !LooksStray(n)
    ensures Follows(a, StorePlan(o, a, p, n).value) && !StorePlan(o, a, p, n).value.implicitAbs
  {
    hide Follows, LooksStray, IsStray, Emit, EmitBytes, Untouched;
    if p.tree.Some? {
      var op, notes := Field(p.pre, p.data, p.kind), Writtens(|p.pre|) + [n];
      DoFrame(o, a, op, notes);
      FieldNotStray(a, notes, |p.pre|, n);
      DoFollows(o, a, op, notes);
      var c := Do(o, a, op, notes).value;
      SameFollows(c, Hang(c, p.tree.value));
      FollowsOn(a, c, Hang(c, p.tree.value));
    } else {
      WrittenFollows(o, a, p.pre);
      WrittenPlace(o, a, p.pre);
      var b := StoreWritten(o, a, p.pre).value;
      if p.data != [] {
        DoFrame(o, b, Op.Bytes(p.data), [n]);
        DoFollows(o, b, Op.Bytes(p.data), [n]);
        FollowsOn(a, b, Do(o, b, Op.Bytes(p.data), [n]).value);
      }
    }
  }

  lemma FieldNotStray(a: Assembly, notes: seq<Note>, k: nat, n: Note)
    requires notes == Writtens(k) + [n] && !IsStray(n) && (a.notes == [] ==> !LooksStray(n))
    ensures forall k :: 0 <= k < |notes| ==> !IsStray(notes[k]) && (k == 0 && a.notes == [] ==> !LooksStray(notes[k]))
  {
    hide Evaluate;
  }

  lemma {:induction false} WrittenPlace(o: Options, a: Assembly, data: seq<octet>)
    requires StoreWritten(o, a, data).Some?
    ensures StoreWritten(o, a, data).value.log.cur == a.log.cur
  {
    hide Emit, Untouched;
    if data != [] {
      var k := |data| - 1;
      var b := StoreWritten(o, a, data[..k]).value;
      WrittenPlace(o, a, data[..k]);
      DoFrame(o, b, Op.Bytes([data[k]]), [Written]);
      EmitFrame(b.log, [data[k]], None);
    }
  }

  // ---- Operands and items ----

  lemma RelativeRead(o: Options, a: Assembly, n: Note, k: nat)
    requires n.Value? && n.here == MacroRun.Here(o, a, k) && a.log.cur !in o.absolute
    ensures !LooksStray(n)
  {
    hide Evaluate;
  }

  lemma OperandFollows(o: Options, a: Assembly, p: Operand)
    requires !a.implicitAbs && StoreOperand(o, a, p).Some?
    ensures Follows(a, StoreOperand(o, a, p).value) && !StoreOperand(o, a, p).value.implicitAbs
  {
    hide Follows, LooksStray, StorePlan, PlanOf, Evaluate;
    var x := ReadHere(o, a, OperandTerm(p), ReadAfter(p)).value;
    var plan := PlanOf(o, p, x, a.log.cur, Loc(a.log, a.log.cur)).value;
    var n := Value(plan.kind, OperandTerm(p), a.defs, MacroRun.Here(o, a, ReadAfter(p)), false);
    if a.log.cur !in o.absolute {
      RelativeRead(o, a, n, ReadAfter(p));
    }
    PlanFollows(o, a, plan, n);
  }

  lemma {:induction false} OperandsFollow(o: Options, a: Assembly, ps: seq<Operand>)
    requires !a.implicitAbs && StoreOperands(o, a, ps).Some?
    ensures Follows(a, StoreOperands(o, a, ps).value) && !StoreOperands(o, a, ps).value.implicitAbs
  {
    hide Follows, StoreOperand;
    if ps == [] {
      SameFollows(a, a);
    } else {
      var b := StoreOperands(o, a, ps[..|ps| - 1]).value;
      OperandsFollow(o, a, ps[..|ps| - 1]);
      OperandFollows(o, b, ps[|ps| - 1]);
      FollowsOn(a, b, StoreOperands(o, a, ps).value);
    }
  }

  /** A copy: the first of all may be stray. */
  lemma CopyLed(o: Options, a: Assembly, p: Plan, n: Note)
    requires Led(a) && n.Value? && !n.stray && StoreCopy(o, a, p, n).Some?
    requires a.implicitAbs ==> (p.tree.Some? <==> LooksStray(n)) && |p.data| > 0 && p.pre == []
    requires !a.implicitAbs && a.notes == [] && a.log.cur !in o.absolute ==> !LooksStray(n)
    ensures var b := StoreCopy(o, a, p, n).value;
            Led(b) && !b.implicitAbs && (a.implicitAbs || p.tree.Some? || p.data != [] ==> b.notes != [])
  {
    hide LooksStray, StorePlan, UseBlank, Follows;
    if !a.implicitAbs {
      PlanFollows(o, a, p, n);
      FollowsLed(a, StorePlan(o, a, p, n).value);
      PlanNotes(o, a, p, n);
    } else {
      BlankFollows(o, a);
      var b := UseBlank(o, a).value;
      BlankNotes(o, a);
      FollowsLed(a, b);
      if p.tree.None? {
        PlanFollows(o, b, p, n);
        FollowsLed(b, StorePlan(o, b, p, n).value);
        PlanNotes(o, b, p, n);
      } else {
        var c, q := b.(stray := Some(Stray(p.kind, p.tree.value, None))), p.(tree := None);
        PlanNotes(o, c, q, n.(stray := true));
        StrayLooks(n);
      }
    }
  }

  lemma StrayLooks(n: Note)
    requires LooksStray(n)
    ensures LooksStray(n.(stray := true))
  {
    hide Evaluate;
  }

  lemma BlankNotes(o: Options, a: Assembly)
    requires UseBlank(o, a).Some?
    ensures UseBlank(o, a).value.notes == a.notes
  {
    hide Proper, Output.Apply;
  }

  /** What a plan adds. */
  lemma PlanNotes(o: Options, a: Assembly, p: Plan, n: Note)
    requires StorePlan(o, a, p, n).Some?
    ensures var b := StorePlan(o, a, p, n).value;
            && b.stray == a.stray && b.implicitAbs == a.implicitAbs
            && b.notes == a.notes + Writtens(|p.pre|) + (if p.tree.Some? || p.data != [] then [n] else [])
  {
    hide Proper, Output.Apply;
    if p.tree.None? {
      WrittenNotes(o, a, p.pre);
    }
  }

  lemma {:induction false} WrittenNotes(o: Options, a: Assembly, data: seq<octet>)
    requires StoreWritten(o, a, data).Some?
    ensures var b := StoreWritten(o, a, data).value;
            b.notes == a.notes + Writtens(|data|) && b.stray == a.stray && b.implicitAbs == a.implicitAbs
  {
    hide Proper, Output.Apply;
    if data != [] {
      var k := |data| - 1;
      WrittenNotes(o, a, data[..k]);
      assert Writtens(|data|) == Writtens(k) + [Written];
    }
  }

  lemma {:induction false} CopiesLed(o: Options, a: Assembly, p: Plan, n: Note, count: nat)
    requires Led(a) && n.Value? && !n.stray && p.data != [] && p.pre == [] && StoreCopies(o, a, p, n, count).Some?
    requires a.implicitAbs ==> (p.tree.Some? <==> LooksStray(n))
    requires !a.implicitAbs && a.notes == [] && a.log.cur !in o.absolute ==> !LooksStray(n)
    ensures var b := StoreCopies(o, a, p, n, count).value;
            Led(b) && (if count == 0 then b == a else !b.implicitAbs && b.notes != [])
  {
    hide Led, StoreCopy, LooksStray;
    if count > 0 {
      CopiesLed(o, a, p, n, count - 1);
      CopyLed(o, StoreCopies(o, a, p, n, count - 1).value, p, n);
    }
  }

  lemma DatumLed(o: Options, a: Assembly, d: Datum)
    requires Led(a) && 0 in o.absolute && StoreDatum(o, a, d).Some?
    ensures Led(StoreDatum(o, a, d).value)
  {
    hide Led, Evaluate, StoreCopies, ReadNumber, LittleEndian;
    var n := Value(DatumKind(d), d.e, a.defs, MacroRun.Here(o, a, 0), false);
    var x := ReadHere(o, a, d.e, 0).value;
    LedPlace(a);
    if a.log.cur !in o.absolute {
      RelativeRead(o, a, n, 0);
    }
    CopiesLed(o, a, NowOrLater([], n.kind, x), n, ReadNumber(o, a, d.count).value);
  }

  lemma LedPlace(a: Assembly)
    requires Led(a)
    ensures a.implicitAbs ==> a.log.cur == 0
  {
  }

  lemma {:induction false} DataLed(o: Options, a: Assembly, ds: seq<Datum>)
    requires Led(a) && 0 in o.absolute && StoreData(o, a, ds).Some?
    ensures Led(StoreData(o, a, ds).value)
  {
    hide Led, StoreDatum;
    if ds != [] {
      DataLed(o, a, ds[..|ds| - 1]);
      DatumLed(o, StoreData(o, a, ds[..|ds| - 1]).value, ds[|ds| - 1]);
    }
  }

  lemma PointerFollows(o: Options, a: Assembly, e: Term, data: seq<octet>)
    requires !a.implicitAbs && StorePointer(o, a, e, data).Some?
    ensures Follows(a, StorePointer(o, a, e, data).value) && !StorePointer(o, a, e, data).value.implicitAbs
  {
    hide Follows, LooksStray, StorePlan, Evaluate;
    var n := Value(Pidr, e, a.defs, MacroRun.Here(o, a, 0), false);
    if a.log.cur !in o.absolute {
      RelativeRead(o, a, n, 0);
    }
    PlanFollows(o, a, AddressPlan(ReadHere(o, a, e, 0).value, data), n);
  }

  lemma {:induction false} PointersFollow(o: Options, a: Assembly, es: seq<Term>)
    requires StorePointers(o, a, es).Some?
    ensures Follows(a, StorePointers(o, a, es).value)
  {
    hide Follows, StorePointer, UseBlank;
    if es == [] {
      SameFollows(a, a);
    } else {
      var front := es[..|es| - 1];
      var b := StorePointers(o, a, front).value;
      PointersFollow(o, a, front);
      BlankFollows(o, b);
      var c := UseBlank(o, b).value;
      PointerFollows(o, c, es[|es| - 1], LittleEndian(0, 4));
      FollowsOn(a, b, c);
      FollowsOn(a, c, StorePointers(o, a, es).value);
    }
  }

  /** A constant, or a patch of one. */
  lemma ConstFollows(o: Options, a: Assembly, op: Op)
    requires !a.implicitAbs && Do(o, a, op, [Written]).Some?
    ensures Follows(a, Do(o, a, op, [Written]).value) && !Do(o, a, op, [Written]).value.implicitAbs
  {
    hide Follows, Do;
    DoFrame(o, a, op, [Written]);
    DoFollows(o, a, op, [Written]);
  }

  lemma StringFollows(o: Options, a: Assembly, line: Line)
    requires (line.Ascii? || line.Counted? || line.Described?) && StoreString(o, a, line).Some?
    ensures Follows(a, StoreString(o, a, line).value)
  {
    hide Follows, StorePointer, UseBlank, Do, StoreWritten, LittleEndian;
    BlankFollows(o, a);
    var b, end := UseBlank(o, a).value, StoreString(o, a, line).value;
    var at, n := Loc(b.log, b.log.cur), |line.data|;
    match line
    case Ascii(data) =>
      WrittenFollows(o, b, data);
      FollowsOn(a, b, end);
    case Counted(data) =>
      var op := Op.Const(1, 0, ConstForm.SignedByte);
      ConstFollows(o, b, op);
      var c := Do(o, b, op, [Written]).value;
      CountedFollows(o, a, b, c, data, Patch(at, 1, n, true));
    case Described(data) =>
      var op := Op.Const(4, 0x10E_0000, ConstForm.Plain);
      ConstFollows(o, b, op);
      var c := Do(o, b, op, [Written]).value;
      var address := LittleEndian(Wrap(Loc(c.log, c.log.cur) + 4), 4);
      var e := Infix(Add, Term.Here, Number(4));
      PointerFollows(o, c, e, address);
      var d := StorePointer(o, c, e, address).value;
      FollowsOn(b, c, d);
      CountedFollows(o, a, b, d, data, Patch(at, 2, n, false));
    case _ =>
  }

  /** The string, and then its count patched. */
  lemma CountedFollows(o: Options, a: Assembly, b: Assembly, c: Assembly, data: seq<octet>, op: Op)
    requires Follows(a, b) && Follows(b, c) && !c.implicitAbs && StoreWritten(o, c, data).Some?
    requires Do(o, StoreWritten(o, c, data).value, op, [Written]).Some?
    ensures Follows(a, Do(o, StoreWritten(o, c, data).value, op, [Written]).value)
  {
    hide Follows, Do, StoreWritten;
    WrittenFollows(o, c, data);
    var d := StoreWritten(o, c, data).value;
    ConstFollows(o, d, op);
    FollowsOn(a, b, c);
    FollowsOn(a, c, d);
    FollowsOn(a, d, Do(o, d, op, [Written]).value);
  }

  // ---- Definitions and statements ----

  lemma {:induction false} CompleteEachFollows(o: Options, a: Assembly, order: seq<nat>)
    requires CompleteEach(o, a, order).Some?
    ensures Follows(a, CompleteEach(o, a, order).value)
  {
    hide Follows, Do, FinalTree;
    if order == [] {
      SameFollows(a, a);
    } else {
      var k := |order| - 1;
      CompleteEachFollows(o, a, order[..k]);
      var b := CompleteEach(o, a, order[..k]).value;
      var i := order[k];
      var c := b.(fixups := b.fixups[i := b.fixups[i].(done := Some(b.defs))]);
      SameFollows(b, c);
      DoFollows(o, c, Complete(i, FinalTree(b.defs, b.log.fixes[i].kind, b.fixups[i].tree)), []);
      FollowsOn(b, c, CompleteEach(o, a, order).value);
      FollowsOn(a, b, CompleteEach(o, a, order).value);
    }
  }

  lemma DefineFollows(o: Options, a: Assembly, name: string, p: Place)
    requires Define(o, a, name, p).Some?
    ensures Follows(a, Define(o, a, name, p).value)
  {
    hide Follows, CompleteEach, Released, FinalTree;
    var b := Settled(a.(defs := a.defs[name := p], once := a.once && name !in a.defs), false);
    SameFollows(a, b);
    CompleteEachFollows(o, b, Released(b, name, |b.fixups|));
    FollowsOn(a, b, Define(o, a, name, p).value);
  }

  lemma DefineHereFollows(o: Options, a: Assembly, name: string)
    requires DefineHere(o, a, name).Some?
    ensures Follows(a, DefineHere(o, a, name).value) && !DefineHere(o, a, name).value.implicitAbs
  {
    hide Define, UseBlank, Released;
    BlankFollows(o, a);
    var b := UseBlank(o, a).value;
    DefineFollows(o, b, name, MacroRun.Here(o, b, 0));
    hide Follows;
    FollowsOn(a, b, DefineHere(o, a, name).value);
    FollowsImplicit(b, DefineHere(o, a, name).value);
  }

  lemma FollowsImplicit(a: Assembly, b: Assembly)
    requires Follows(a, b)
    ensures b.implicitAbs ==> a.implicitAbs
  {
    hide LooksStray, IsStray;
  }

  lemma AssignFollows(o: Options, a: Assembly, name: string, e: Term)
    requires Assign(o, a, name, e).Some?
    ensures Follows(a, Assign(o, a, name, e).value)
  {
    hide Follows, Define, ReadKnown, SimpleRelocatable;
    match ReadKnown(o, a, e)
    case Some(Known(v, _)) => DefineFollows(o, a, name, Absolute(v));
    case Some(Unknown(t)) =>
      var place := SimpleRelocatable(t).value;
      DefineFollows(o, a, name, Relative(place.0, place.1));
    case None =>
  }

  lemma MoveFollows(o: Options, a: Assembly, e: Term)
    requires Move(o, a, e).Some?
    ensures Follows(a, Move(o, a, e).value)
  {
    hide Follows, Do, ReadKnown, SimpleRelocatable;
    match ReadKnown(o, a, e)
    case Some(Known(v, _)) => DoFollows(o, a, MoveTo(v), []);
    case Some(Unknown(t)) => DoFollows(o, a, MoveTo(SimpleRelocatable(t).value.1), []);
    case None =>
  }

  lemma BlockFollows(o: Options, a: Assembly, size: word, count: Term)
    requires Block(o, a, size, count).Some?
    ensures Follows(a, Block(o, a, size, count).value)
  {
    hide Follows, Do, ReadNumber, UseBlank;
    BlankFollows(o, a);
    var n, b := ReadNumber(o, a, count).value, UseBlank(o, a).value;
    DoFollows(o, b, Skip(Wrap(n * size), n == 0), []);
    FollowsOn(a, b, Block(o, a, size, count).value);
  }

  lemma EntryFollows(o: Options, a: Assembly, name: string, mask: Term)
    requires EntryPoint(o, a, name, mask).Some?
    ensures Follows(a, EntryPoint(o, a, name, mask).value)
  {
    hide Follows, Do, ReadNumber, DefineHere;
    DefineHereFollows(o, a, name);
    var b := DefineHere(o, a, name).value;
    ConstFollows(o, b, Op.Const(2, ReadNumber(o, b, mask).value, EntryMask(name)));
    FollowsOn(a, b, EntryPoint(o, a, name, mask).value);
  }

  lemma InstructionFollows(o: Options, a: Assembly, opcode: seq<octet>, operands: seq<Operand>)
    requires StoreInstruction(o, a, opcode, operands).Some?
    ensures Follows(a, StoreInstruction(o, a, opcode, operands).value)
  {
    hide Follows, UseBlank, StoreWritten, StoreOperands;
    BlankFollows(o, a);
    var b := UseBlank(o, a).value;
    WrittenFollows(o, b, opcode);
    var c := StoreWritten(o, b, opcode).value;
    OperandsFollow(o, c, operands);
    FollowsOn(a, b, c);
    FollowsOn(a, c, StoreOperands(o, c, operands).value);
  }

  lemma PsectFollows(o: Options, a: Assembly, s: nat)
    requires Do(o, a.(implicitAbs := false), Enter(s, false), []).Some?
    ensures Follows(a, Do(o, a.(implicitAbs := false), Enter(s, false), []).value)
  {
    hide Follows, Do;
    var b := a.(implicitAbs := false);
    SameFollows(a, b);
    DoFollows(o, b, Enter(s, false), []);
    FollowsOn(a, b, Do(o, b, Enter(s, false), []).value);
  }

  lemma BodyFollows(o: Options, a: Assembly, line: Line)
    requires !line.DataOf? && Body(o, a, line).Some?
    ensures Follows(a, Body(o, a, line).value)
  {
    hide Follows, Do, DefineHere, Assign, Move, Block, StorePointers, EntryPoint, StoreInstruction, StoreString;
    match line
    case LabelHere(name) => DefineHereFollows(o, a, name);
    case AssignTo(name, e) => AssignFollows(o, a, name, e);
    case InPsect(s) => PsectFollows(o, a, s);
    case OriginAt(e) => MoveFollows(o, a, e);
    case BlockOf(size, count) => BlockFollows(o, a, size, count);
    case AddressOf(es) => PointersFollow(o, a, es);
    case EntryHere(name, mask) => EntryFollows(o, a, name, mask);
    case Instruction(opcode, operands) => InstructionFollows(o, a, opcode, operands);
    case _ => StringFollows(o, a, line);
  }

  lemma BodyLed(o: Options, a: Assembly, line: Line)
    requires Led(a) && 0 in o.absolute && Body(o, a, line).Some?
    ensures Led(Body(o, a, line).value)
  {
    hide Led, Follows, StoreData;
    if line.DataOf? {
      DataLed(o, a, line.items);
    } else {
      BodyFollows(o, a, line);
      FollowsLed(a, Body(o, a, line).value);
    }
  }

  lemma StatementLed(o: Options, a: Assembly, line: Line)
    requires Led(a) && 0 in o.absolute && MacroRun.Statement(o, a, line).Some?
    ensures Led(MacroRun.Statement(o, a, line).value)
  {
    hide Led, Follows, Do, Body, CompleteEach, FinalTree;
    DoFollows(o, a, Op.Statement, []);
    var b := Do(o, a, Op.Statement, []).value;
    FollowsLed(a, b);
    BodyLed(o, b, line);
    var c := Body(o, b, line).value;
    var d := Settled(c.(ready := []), false);
    SameFollows(c, d);
    CompleteEachFollows(o, d, c.ready);
    FollowsLed(c, d);
    FollowsLed(d, CompleteEach(o, d, c.ready).value);
  }

  lemma {:induction false} StatementsLed(o: Options, lines: seq<Line>)
    requires 0 in o.absolute && Statements(o, lines).Some?
    ensures Led(Statements(o, lines).value)
  {
    hide Led, MacroRun.Statement;
    if lines == [] {
      BegunLed();
    } else {
      StatementsLed(o, lines[..|lines| - 1]);
      StatementLed(o, Statements(o, lines[..|lines| - 1]).value, lines[|lines| - 1]);
    }
  }

  lemma BegunLed()
    ensures Led(Begun)
  {
  }

  /**
   * A source's fixup is left in the wrong psect exactly where its first store is of a value read in . ABS . and not
   * known there; and no other store of it ever is.
   */
  lemma StrayExactly(o: Options, lines: seq<Line>, order: seq<nat>)
    requires 0 in o.absolute && AssembledLines(o, lines, order).Some?
    ensures var a := AssembledLines(o, lines, order).value;
            && (a.stray.Some? <==> a.notes != [] && LooksStray(a.notes[0]))
            && forall j :: 0 <= j < |a.notes| ==> (IsStray(a.notes[j]) <==> j == 0 && LooksStray(a.notes[0]))
  {
    hide LooksStray, IsStray, Follows, Statements, CompleteEach, FinalTree, Reported, StrayReported, AllExternal;
    StatementsLed(o, lines);
    var a := Statements(o, lines).value;
    var c := Settled(a, true);
    SameFollows(a, c);
    CompleteEachFollows(o, c, order);
    FollowsLed(a, c);
    FollowsLed(c, CompleteEach(o, c, order).value);
  }

  // ---- A source that loses a value ----

  const Alone: Options := Options({0}, TwoPass.Long, key => false)

  function ByteX(signed: bool): Datum {
    Datum(TwoPass.Byte, signed, Name("X"), Number(1))
  }

  function KindOfX(signed: bool): Kind {
    if signed then SignedB else AddrB
  }

  /** .SIGNED_BYTE X, or .BYTE X, and then X = 5, before any .PSECT. */
  function StraySource(signed: bool): seq<Line> {
    [DataOf([ByteX(signed)]), AssignTo("X", Number(5))]
  }

  function NoteOfX(signed: bool): Note {
    Value(KindOfX(signed), Name("X"), map[], Absolute(0), true)
  }

  /** After the byte. */
  predicate AfterX(a: Assembly, signed: bool) {
    && a.defs == map[] && a.once && a.notes == [NoteOfX(signed)] && a.fixups == [] && a.ready == [] && !a.implicitAbs
    && a.stray == Some(Stray(KindOfX(signed), Sym("X"), None)) && a.log.cur == 1 && a.log.fixes == []
    && |a.log.stores| == 1
    && a.log.stores[0] == Output.Source(1, 0, [0], 1, a.log.stores[0].event, true, None)
  }

  lemma XDatum(a: Assembly, signed: bool)
    requires a == Do(Alone, Begun, Op.Statement, []).value
    ensures StoreDatum(Alone, a, ByteX(signed)).Some? && AfterX(StoreDatum(Alone, a, ByteX(signed)).value, signed)
  {
    hide StoreCopy, AfterX;
    var x, n := Unknown(Sym("X")), Value(KindOfX(signed), Name("X"), map[], Absolute(0), false);
    assert ReadHere(Alone, a, Name("X"), 0) == Ok(x) && MacroRun.Here(Alone, a, 0) == Absolute(0);
    assert ReadNumber(Alone, a, Number(1)) == Some(1);
    var p := NowOrLater([], KindOfX(signed), x);
    assert LittleEndian(0, 1) == [0];
    assert p == Plan([], KindOfX(signed), [0], Some(Sym("X")));
    XCopied(a, p, n, signed);
    assert StoreCopies(Alone, a, p, n, 0) == Some(a);
    assert StoreCopies(Alone, a, p, n, 1) == StoreCopy(Alone, a, p, n);
  }

  lemma XStored(signed: bool)
    ensures MacroRun.Statement(Alone, Begun, DataOf([ByteX(signed)])).Some?
    ensures AfterX(MacroRun.Statement(Alone, Begun, DataOf([ByteX(signed)])).value, signed)
  {
    hide StoreDatum, FinalTree;
    var a := Do(Alone, Begun, Op.Statement, []).value;
    XDatum(a, signed);
    var b := StoreDatum(Alone, a, ByteX(signed)).value;
    assert [ByteX(signed)][..0] == [];
    assert StoreData(Alone, a, []) == Some(a);
    assert StoreData(Alone, a, [ByteX(signed)]) == Some(b);
    hide StoreData, Do;
    assert "X" in Leaves(Sym("X")) && "X" !in b.defs;
    assert Settled(b, false) == b && b.(ready := []) == b;
    assert CompleteEach(Alone, b, []) == Some(b);
  }

  lemma XCopied(a: Assembly, p: Plan, n: Note, signed: bool)
    requires a == Do(Alone, Begun, Op.Statement, []).value && p == Plan([], KindOfX(signed), [0], Some(Sym("X")))
    requires n == Value(KindOfX(signed), Name("X"), map[], Absolute(0), false)
    ensures StoreCopy(Alone, a, p, n).Some? && AfterX(StoreCopy(Alone, a, p, n).value, signed)
  {
    var b := UseBlank(Alone, a).value;
    assert b.log.cur == 1 && Loc(b.log, 1) == 0 && b.log.stores == [] && b.log.fixes == [];
    var c := b.(stray := Some(Stray(KindOfX(signed), Sym("X"), None)));
    assert StoreWritten(Alone, c, []) == Some(c);
    EmitFrame(c.log, [0], None);
    EmittedFirst(c.log);
  }

  lemma EmittedFirst(log: Log)
    requires log.stores == []
    ensures var x := Emit(log, [0], None).stores; |x| == 1 && x[0].stmt == log.stmt && x[0].isData
  {
    hide Claim, StoreImage, Overwrites, LogEvent;
  }

  lemma XAssigned(a: Assembly, signed: bool)
    requires AfterX(a, signed)
    ensures var b := MacroRun.Statement(Alone, a, AssignTo("X", Number(5)));
            && b.Some? && b.value.notes == a.notes && b.value.log.stores == a.log.stores && b.value.fixups == []
            && b.value.once
            && b.value.log.fixes == [] && b.value.defs == map["X" := Absolute(5)]
            && b.value.stray == Some(Stray(KindOfX(signed), Sym("X"), Some(Tree.Const(5))))
  {
    var b := Do(Alone, a, Op.Statement, []).value;
    NumberRead(Alone, b, 5);
    hide ReadKnown;
    var defs := map["X" := Absolute(5)];
    assert Leaves(Sym("X")) == ["X"];
    assert FinalTree(defs, KindOfX(signed), Sym("X")) == Tree.Const(5) by {
      assert Substituted(Sym("X"), defs) == Tree.Const(5);
    }
    var c := b.(defs := defs, stray := Some(Stray(KindOfX(signed), Sym("X"), Some(Tree.Const(5)))));
    assert Released(c, "X", 0) == [];
    assert CompleteEach(Alone, c, []) == Some(c);
  }

  /** It assembles; the byte linked would be zero, where the source means five. */
  lemma StrayAssembles(env: Env, signed: bool)
    requires env.external("X") == 5
    ensures var a := AssembledLines(Alone, StraySource(signed), []);
            && a.Some? && a.value.once && Agrees(env, a.value.defs)
            && a.value.stray == Some(Stray(KindOfX(signed), Sym("X"), Some(Tree.Const(5))))
            && SourceByte(a.value, env, Cell(1, 0)) == 0 && Meant(NoteOfX(signed), env, Assembler, 1, 0) == [5]
  {
    hide MacroRun.Statement, AfterX;
    var lines := StraySource(signed);
    assert lines[..1] == [DataOf([ByteX(signed)])] && lines[..1][..0] == [];
    assert Statements(Alone, []) == Some(Begun);
    XStored(signed);
    var a := MacroRun.Statement(Alone, Begun, DataOf([ByteX(signed)])).value;
    assert Statements(Alone, lines[..1]) == Some(a);
    XAssigned(a, signed);
    var b := MacroRun.Statement(Alone, a, AssignTo("X", Number(5))).value;
    assert Statements(Alone, lines) == Some(b);
    assert CompleteEach(Alone, b, []) == Some(b);
    XByte(a, b, env, signed);
  }

  /** .SIGNED_BYTE: its object is written with no error, and the byte linked is zero, where the source means five. */
  lemma StrayLost(env: Env)
    requires env.external("X") == 5
    ensures var a := AssembledLines(Alone, StraySource(true), []);
            && a.Some? && Writable(a.value) && a.value.once && Agrees(env, a.value.defs)
            && SourceByte(a.value, env, Cell(1, 0)) == 0 && Meant(NoteOfX(true), env, Assembler, 1, 0) == [5]
  {
    hide AssembledLines;
    StrayAssembles(env, true);
  }

  /** .BYTE: it assembles, and its object cannot be written. */
  lemma StrayRefused()
    ensures var a := AssembledLines(Alone, StraySource(false), []);
            a.Some? && !Writable(a.value)
  {
    hide AssembledLines;
    StrayAssembles(Env(s => 0, name => 5, name => 0), false);
  }

  lemma XByte(a: Assembly, b: Assembly, env: Env, signed: bool)
    requires AfterX(a, signed) && b.notes == a.notes && b.log.stores == a.log.stores && env.external("X") == 5
    ensures SourceByte(b, env, Cell(1, 0)) == 0 && Meant(NoteOfX(signed), env, Assembler, 1, 0) == [5]
  {
    assert LastStore(b.log.stores, Cell(1, 0)) == 0;
    assert LittleEndian(5, 1) == [5];
  }
}
