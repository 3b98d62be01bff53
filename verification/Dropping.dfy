/**
 The constants a MACRO assembly never stores: exactly those of fields stored over while they waited (overwrite.go,
 reloc.go).
 */
module Dropping {
  import opened Words
  import opened Expressions
  import opened Output
  import opened Histories
  import opened MacroRun
  import opened SourceImage
  import TwoPass

  // ---- Which fields are stored over ----

  /** n bytes stored here would go over the field of a fixup that waits. */
  predicate Strikes(log: Log, n: nat, i: nat) {
    && 0 < n && i < |log.fixes| && log.fixes[i].outcome.Waiting? && log.fixes[i].sect == log.cur
    && log.fixes[i].at < Loc(log, log.cur) + n && Loc(log, log.cur) < log.fixes[i].at + KindSize(log.fixes[i].kind)
  }

  /** The bytes of data an operation stores. */
  function SizeOf(op: Op): nat {
    match op
    case Bytes(data) => |data|
    case Field(pre, data, _) => |pre| + |data|
    case _ => 0
  }

  /** The n-th operation stores data over the field of fixup i, which waits. */
  predicate StruckAt(ops: seq<Op>, absolute: set<nat>, i: nat, n: nat) {
    n < |ops| && Assembled(ops[..n], absolute).Some? && Strikes(Assembled(ops[..n], absolute).value, SizeOf(ops[n]), i)
  }

  predicate Struck(ops: seq<Op>, absolute: set<nat>, i: nat) {
    exists n: nat | n < |ops| :: StruckAt(ops, absolute, i, n)
  }

  lemma EmitStrikes(log: Log, absolute: set<nat>, data: seq<octet>, fill: Option<Filling>, i: nat)
    requires Inv(log, absolute) && 0 < |data| && RoomFor(log, absolute, |data|) && i < |log.fixes|
    ensures var n := Emit(log, data, fill);
            i < |n.fixes| && n.fixes[i] == log.fixes[i].(dead := log.fixes[i].dead || Strikes(log, |data|, i))
  {
    hide Inv, RoomFor, Claim, StoreImage, LogEvent, Overwrites, Mark;
    if Strikes(log, |data|, i) {
      Superseding(log, absolute, data, i);
    }
  }

  lemma EmitMoves(log: Log, absolute: set<nat>, data: seq<octet>, fill: Option<Filling>)
    requires RoomFor(log, absolute, |data|)
    ensures var n := Emit(log, data, fill); n.cur == log.cur && Loc(n, n.cur) == Loc(log, log.cur) + |data|
  {
    hide Claim, StoreImage, LogEvent, Overwrites, Mark, Supersede;
  }

  lemma {:induction false} BytesStrike(log: Log, absolute: set<nat>, pre: seq<octet>, m: nat, i: nat)
    requires Inv(log, absolute) && RoomFor(log, absolute, |pre| + m) && i < |log.fixes|
    ensures var l := EmitBytes(log, pre);
            && l.cur == log.cur && Loc(l, l.cur) == Loc(log, log.cur) + |pre|
            && i < |l.fixes| && l.fixes[i] == log.fixes[i].(dead := log.fixes[i].dead || Strikes(log, |pre|, i))
  {
    hide Inv, RoomFor, Emit;
    if pre != [] {
      var k := |pre| - 1;
      BytesStrike(log, absolute, pre[..k], 1 + m, i);
      EmitBytesKeeps(log, absolute, pre[..k], 1 + m);
      var l := EmitBytes(log, pre[..k]);
      RoomLess(l, absolute, 1 + m, 1);
      EmitStrikes(l, absolute, [pre[k]], None, i);
      EmitMoves(l, absolute, [pre[k]], None);
    }
  }

  lemma RoomLess(log: Log, absolute: set<nat>, n: nat, m: nat)
    requires RoomFor(log, absolute, n) && m <= n
    ensures RoomFor(log, absolute, m)
  {
  }

  lemma FieldStrikes(log: Log, absolute: set<nat>, pre: seq<octet>, data: seq<octet>, kind: Kind, i: nat)
    requires Inv(log, absolute) && Proper(log, absolute, Field(pre, data, kind)) && i < |log.fixes|
    ensures var n := EmitField(log, pre, data, kind);
            i < |n.fixes| && n.fixes[i] == log.fixes[i].(dead := log.fixes[i].dead || Strikes(log, |pre| + |data|, i))
  {
    hide Inv, RoomFor, Emit, EmitBytes;
    BytesStrike(log, absolute, pre, |data|, i);
    EmitBytesKeeps(log, absolute, pre, |data|);
    EmitStrikes(EmitBytes(log, pre), absolute, data, Some(Filling(kind, |pre|)), i);
  }

  /** What an operation makes of the fixups there are, and of those it adds. */
  lemma OpStrikes(log: Log, absolute: set<nat>, op: Op, i: nat)
    requires Inv(log, absolute) && Proper(log, absolute, op)
    ensures var n := Output.Apply(log, absolute, op);
            && |log.fixes| <= |n.fixes|
            && (i < |log.fixes| ==>
                  var f := log.fixes[i];
                  n.fixes[i] == if op.Complete? && op.fix == i then f.(outcome := OutcomeOf(f, op.tree))
                                else f.(dead := f.dead || Strikes(log, SizeOf(op), i)))
            && (|log.fixes| <= i < |n.fixes| ==> !n.fixes[i].dead && n.fixes[i].outcome.Waiting?)
  {
    hide Inv, RoomFor, Emit, EmitField, StoreImage, OutcomeOf, AppliedBytes, LittleEndian, LogEvent, Mark;
    match op
    case Bytes(data) =>
      EmitFixes(log, data, None);
      if i < |log.fixes| {
        EmitStrikes(log, absolute, data, None, i);
      }
    case Field(pre, data, kind) =>
      FieldAdds(log, pre, data, kind);
      if i < |log.fixes| {
        FieldStrikes(log, absolute, pre, data, kind, i);
      }
    case _ =>
  }

  lemma FieldAdds(log: Log, pre: seq<octet>, data: seq<octet>, kind: Kind)
    ensures var n := EmitField(log, pre, data, kind);
            |n.fixes| == |log.fixes| + 1 && !n.fixes[|log.fixes|].dead && n.fixes[|log.fixes|].outcome.Waiting?
  {
    hide Emit;
    BytesAdd(log, pre);
    EmitFixes(EmitBytes(log, pre), data, Some(Filling(kind, |pre|)));
  }

  lemma {:induction false} BytesAdd(log: Log, pre: seq<octet>)
    ensures |EmitBytes(log, pre).fixes| == |log.fixes|
  {
    hide Emit;
    if pre != [] {
      BytesAdd(log, pre[..|pre| - 1]);
      EmitFixes(EmitBytes(log, pre[..|pre| - 1]), [pre[|pre| - 1]], None);
    }
  }

  lemma StruckNext(ops: seq<Op>, absolute: set<nat>, i: nat)
    requires ops != []
    ensures var n := |ops| - 1;
            Struck(ops, absolute, i) <==> Struck(ops[..n], absolute, i) || StruckAt(ops, absolute, i, n)
  {
    hide Strikes, Assembled;
    var front := ops[..|ops| - 1];
    forall n: nat | n < |front|
      ensures StruckAt(ops, absolute, i, n) <==> StruckAt(front, absolute, i, n)
    {
      assert front[..n] == ops[..n];
    }
    hide StruckAt;
    if Struck(ops, absolute, i) && !StruckAt(ops, absolute, i, |front|) {
      var n: nat :| n < |ops| && StruckAt(ops, absolute, i, n);
      assert n < |front|;
    }
  }

  /** In every run a fixup ends dead exactly where data was stored over its field while it waited. */
  lemma {:induction false} DeadWhereStruck(ops: seq<Op>, absolute: set<nat>, i: nat)
    requires Assembled(ops, absolute).Some?
    ensures var log := Assembled(ops, absolute).value;
            (i < |log.fixes| && log.fixes[i].dead) <==> Struck(ops, absolute, i)
  {
    hide Inv, Proper, Output.Apply, Strikes, Struck;
    if ops == [] {
      NoneStruck(absolute, i);
    } else {
      var n := |ops| - 1;
      var log := Assembled(ops[..n], absolute).value;
      DeadWhereStruck(ops[..n], absolute, i);
      AssembledKeeps(ops[..n], absolute);
      OpStrikes(log, absolute, ops[n], i);
      StruckNext(ops, absolute, i);
      NoStrike(log, ops[n], i);
    }
  }

  lemma NoStrike(log: Log, op: Op, i: nat)
    ensures (op.Complete? || i >= |log.fixes|) ==> !Strikes(log, SizeOf(op), i)
  {
  }

  lemma NoneStruck(absolute: set<nat>, i: nat)
    ensures !Struck([], absolute, i) && Assembled([], absolute).value.fixes == []
  {
  }

  // ---- Which constants are dropped ----

  /** The n-th operation finishes fixup i, stored over before, with a constant that is no .ADDRESS. */
  predicate DroppedAt(ops: seq<Op>, absolute: set<nat>, i: nat, n: nat) {
    && n < |ops| && ops[n].Complete? && ops[n].fix == i && ops[n].tree.Const? && Struck(ops[..n], absolute, i)
    && Assembled(ops[..n], absolute).Some?
    && var log := Assembled(ops[..n], absolute).value; i < |log.fixes| && log.fixes[i].kind != Pidr
  }

  /**
   * In every run a fixup's value is dropped exactly where it is finished as a constant after its field was stored over.
   */
  lemma {:induction false} DroppedExactly(ops: seq<Op>, absolute: set<nat>, i: nat)
    requires Assembled(ops, absolute).Some?
    ensures var log := Assembled(ops, absolute).value;
            (i < |log.fixes| && log.fixes[i].outcome.Dropped?) <==>
              exists n: nat | n < |ops| :: DroppedAt(ops, absolute, i, n)
  {
    hide Inv, Proper, Output.Apply, Struck, DroppedAt;
    if ops != [] {
      var n := |ops| - 1;
      var log := Assembled(ops[..n], absolute).value;
      DroppedExactly(ops[..n], absolute, i);
      AssembledKeeps(ops[..n], absolute);
      OpStrikes(log, absolute, ops[n], i);
      DeadWhereStruck(ops[..n], absolute, i);
      DroppedLast(ops, absolute, i);
      forall k: nat | k < n
        ensures DroppedAt(ops, absolute, i, k) <==> DroppedAt(ops[..n], absolute, i, k)
      {
        DroppedSame(ops, absolute, i, k);
      }
      CompletesOnce(ops, absolute, i);
    }
  }

  lemma DroppedSame(ops: seq<Op>, absolute: set<nat>, i: nat, k: nat)
    requires k < |ops| - 1
    ensures DroppedAt(ops, absolute, i, k) <==> DroppedAt(ops[..|ops| - 1], absolute, i, k)
  {
    hide Struck, Assembled;
    assert ops[..|ops| - 1][..k] == ops[..k];
  }

  lemma DroppedLast(ops: seq<Op>, absolute: set<nat>, i: nat)
    requires ops != [] && Assembled(ops, absolute).Some?
    ensures var n := |ops| - 1;
            var log := Assembled(ops[..n], absolute).value;
            DroppedAt(ops, absolute, i, n) <==>
              ops[n].Complete? && ops[n].fix == i && ops[n].tree.Const? && Struck(ops[..n], absolute, i)
              && i < |log.fixes| && log.fixes[i].kind != Pidr
  {
    hide Struck, Proper, Output.Apply;
  }

  lemma CompletesOnce(ops: seq<Op>, absolute: set<nat>, i: nat)
    requires ops != [] && Assembled(ops, absolute).Some?
    ensures var n := |ops| - 1;
            var log := Assembled(ops[..n], absolute).value;
            ops[n].Complete? && ops[n].fix == i ==> i < |log.fixes| && log.fixes[i].outcome.Waiting?
  {
    hide Output.Apply, RoomFor;
  }

  /** And so of a source: a store keeps its placeholder exactly where its fixup is dropped by its operations. */
  lemma GivenUpExactly(o: Options, lines: seq<Line>, order: seq<nat>, a: Assembly, x: Output.Source)
    requires AssembledLines(o, lines, order) == Some(a)
    ensures GivenUp(a, x) <==>
              x.fix.Some? && exists n: nat | n < |a.ops| :: DroppedAt(a.ops, o.absolute, x.fix.value, n)
  {
    hide AssembledLines, Kept, Assembled, DroppedAt;
    LinesKept(o, lines, order);
    KeptLog(o, a);
    if x.fix.Some? {
      DroppedExactly(a.ops, o.absolute, x.fix.value);
    }
  }

  // ---- A source that loses half a word ----

  const Alone: Options := Options({0}, TwoPass.Long, key => false)

  const WordX: Datum := Datum(TwoPass.Word, false, Name("X"), Number(1))
  const ByteFive: Datum := Datum(TwoPass.Byte, false, Number(5), Number(1))

  /** .WORD X at 0 of a psect, a byte of 5 over its first byte, and then X = 1234 (hexadecimal). */
  function LostSource(): seq<Line> {
    [InPsect(1), DataOf([WordX]), OriginAt(Number(0)), DataOf([ByteFive]), AssignTo("X", Number(0x1234))]
  }

  function NoteOfWord(): Note {
    Value(AddrW, Name("X"), map[], Relative(1, 0), false)
  }

  predicate InOne(a: Assembly, stmt: nat, loc: word) {
    a.once && !a.implicitAbs && a.ready == [] && a.stray.None? && a.log.cur == 1 && a.log.stmt == stmt
    && Loc(a.log, 1) == loc
  }

  /** After .PSECT. */
  predicate AfterPsect(a: Assembly) {
    InOne(a, 1, 0) && a.defs == map[] && a.notes == [] && a.fixups == [] && a.log.fixes == [] && a.log.stores == []
  }

  /** After .WORD X, the field as it then is, and whether it is dead. */
  predicate WithWord(a: Assembly, dead: bool) {
    && a.defs == map[] && |a.notes| > 0 && a.notes[0] == NoteOfWord() && a.fixups == [Pending(Sym("X"), None)]
    && a.log.fixes == [Fix(1, 0, AddrW, 0, 2, dead, Waiting, 0)] && |a.log.stores| == |a.notes|
    && var x := a.log.stores[0]; x.sect == 1 && x.at == 0 && x.data == [0, 0] && x.fix == Some(0) && x.stmt == 2
  }

  predicate AfterWord(a: Assembly, stmt: nat, loc: word) {
    InOne(a, stmt, loc) && WithWord(a, false) && |a.notes| == 1
  }

  predicate AfterFive(a: Assembly) {
    InOne(a, 4, 1) && WithWord(a, true) && |a.notes| == 2 && a.log.stores[1].sect == 1 && a.log.stores[1].at == 0
    && |a.log.stores[1].data| == 1
  }

  lemma PsectEntered()
    ensures var r := MacroRun.Statement(Alone, Begun, InPsect(1)); r.Some? && AfterPsect(r.value)
  {
    var a := Do(Alone, Begun, Op.Statement, []).value;
    var b := Do(Alone, a.(implicitAbs := false), Enter(1, false), []).value;
    Flushed(Alone, b);
  }

  lemma Flushed(o: Options, a: Assembly)
    requires a.ready == [] && a.stray.None?
    ensures FlushReady(o, a) == Some(a)
  {
    assert a.(ready := []) == a;
    assert CompleteEach(o, a, []) == Some(a);
  }

  lemma WordStored(a: Assembly)
    requires AfterPsect(a)
    ensures var r := MacroRun.Statement(Alone, a, DataOf([WordX])); r.Some? && AfterWord(r.value, 2, 2)
  {
    hide StorePlan, FlushReady, AfterWord;
    var b := Do(Alone, a, Op.Statement, []).value;
    var x, n := Unknown(Sym("X")), NoteOfWord();
    assert ReadHere(Alone, b, Name("X"), 0) == Ok(x) && MacroRun.Here(Alone, b, 0) == Relative(1, 0);
    assert ReadNumber(Alone, b, Number(1)) == Some(1);
    assert LittleEndian(0, 2) == [0, 0];
    var p := NowOrLater([], AddrW, x);
    assert p == Plan([], AddrW, [0, 0], Some(Sym("X")));
    WordPlanned(b, p, n);
    var c := StorePlan(Alone, b, p, n).value;
    OneCopy(Alone, b, p, n, WordX, c);
    AfterFlush(c);
  }

  lemma AfterFlush(c: Assembly)
    requires AfterWord(c, 2, 2)
    ensures FlushReady(Alone, c) == Some(c)
  {
    Flushed(Alone, c);
  }

  /** A datum stored once, in a psect already chosen. */
  lemma OneCopy(o: Options, a: Assembly, p: Plan, n: Note, d: Datum, c: Assembly)
    requires !a.implicitAbs && StorePlan(o, a, p, n) == Some(c)
    requires ReadNumber(o, a, d.count) == Some(1) && ReadHere(o, a, d.e, 0).Ok?
    requires var x := ReadHere(o, a, d.e, 0).value;
             (x.Known? ==> DatumFits(DatumKind(d), x.v)) && p == NowOrLater([], DatumKind(d), x)
    requires n == Value(DatumKind(d), d.e, a.defs, MacroRun.Here(o, a, 0), false)
    ensures StoreData(o, a, [d]) == Some(c)
  {
    hide StorePlan, Evaluate, DatumFits, NowOrLater, ReadNumber, ReadHere;
    assert [d][..0] == [];
    assert StoreData(o, a, []) == Some(a);
    assert StoreCopies(o, a, p, n, 0) == Some(a);
    assert StoreCopies(o, a, p, n, 1) == StoreCopy(o, a, p, n);
  }

  lemma WordPlanned(b: Assembly, p: Plan, n: Note)
    requires InOne(b, 2, 0) && b.defs == map[] && b.notes == [] && b.fixups == [] && b.log.fixes == []
    requires b.log.stores == []
    requires p == Plan([], AddrW, [0, 0], Some(Sym("X"))) && n == NoteOfWord()
    ensures StorePlan(Alone, b, p, n).Some? && AfterWord(StorePlan(Alone, b, p, n).value, 2, 2)
  {
    hide Emit;
    EmitFixes(b.log, [0, 0], Some(Filling(AddrW, 0)));
    EmitStores(b.log, [0, 0], Some(Filling(AddrW, 0)));
    assert EmitBytes(b.log, []) == b.log;
    assert Leaves(Sym("X")) == ["X"];
    assert Writtens(0) + [n] == [n];
  }

  lemma EmitStores(log: Log, data: seq<octet>, fill: Option<Filling>)
    requires Loc(log, log.cur) + |data| < TWO32
    ensures var n := Emit(log, data, fill);
            && n.stores == log.stores + [n.stores[|log.stores|]] && n.stmt == log.stmt && n.cur == log.cur
            && Loc(n, log.cur) == Loc(log, log.cur) + |data|
  {
    hide Claim, StoreImage, LogEvent, Overwrites, Supersede, Mark;
  }

  lemma OriginSet(a: Assembly)
    requires AfterWord(a, 2, 2)
    ensures var r := MacroRun.Statement(Alone, a, OriginAt(Number(0))); r.Some? && AfterWord(r.value, 3, 0)
  {
    var b := Do(Alone, a, Op.Statement, []).value;
    assert ReadKnown(Alone, b, Number(0)) == Some(Known(0, None));
    var c := Do(Alone, b, MoveTo(0), []).value;
    Flushed(Alone, c);
  }

  lemma FiveStored(a: Assembly)
    requires AfterWord(a, 3, 0) && Inv(a.log, Alone.absolute)
    ensures var r := MacroRun.Statement(Alone, a, DataOf([ByteFive])); r.Some? && AfterFive(r.value)
  {
    hide StorePlan, Inv;
    var b := Do(Alone, a, Op.Statement, []).value;
    OpKeeps(a.log, Alone.absolute, Op.Statement);
    var n := Value(AddrB, Number(5), map[], Relative(1, 0), false);
    assert ReadHere(Alone, b, Number(5), 0) == Ok(Known(5, None)) && MacroRun.Here(Alone, b, 0) == Relative(1, 0);
    assert ReadNumber(Alone, b, Number(1)) == Some(1);
    assert LittleEndian(5, 1) == [5];
    var p := NowOrLater([], AddrB, Known(5, None));
    assert p == Plan([], AddrB, [5], Option.None);
    FivePlanned(b, p, n);
    var c := StorePlan(Alone, b, p, n).value;
    OneCopy(Alone, b, p, n, ByteFive, c);
    Flushed(Alone, c);
  }

  lemma FivePlanned(b: Assembly, p: Plan, n: Note)
    requires AfterWord(b.(log := b.log.(stmt := 3)), 3, 0) && b.log.stmt == 4 && Inv(b.log, Alone.absolute)
    requires p == Plan([], AddrB, [5], Option.None)
    ensures StorePlan(Alone, b, p, n).Some? && AfterFive(StorePlan(Alone, b, p, n).value)
  {
    hide Emit, Inv;
    assert RoomFor(b.log, Alone.absolute, 1);
    EmitStrikes(b.log, Alone.absolute, [5], Option.None, 0);
    EmitFixes(b.log, [5], Option.None);
    EmitStores(b.log, [5], Option.None);
    assert StoreWritten(Alone, b, []) == Some(b);
  }

  lemma XFound(a: Assembly)
    requires AfterFive(a)
    ensures var r := MacroRun.Statement(Alone, a, AssignTo("X", Number(0x1234)));
            && r.Some? && r.value.notes == a.notes && r.value.log.stores == a.log.stores && r.value.once
            && r.value.stray.None?
            && r.value.defs == map["X" := Absolute(0x1234)] && |r.value.fixups| == 1
            && r.value.fixups[0].tree == Sym("X") && r.value.fixups[0].done.Some?
            && |r.value.log.fixes| == 1 && r.value.log.fixes[0].outcome.Dropped?
  {
    var b := Do(Alone, a, Op.Statement, []).value;
    NumberRead(Alone, b, 0x1234);
    hide ReadKnown;
    var defs := map["X" := Absolute(0x1234)];
    var c := b.(defs := defs);
    assert Leaves(Sym("X")) == ["X"];
    assert FinalTree(defs, AddrW, Sym("X")) == Tree.Const(0x1234) by {
      assert Substituted(Sym("X"), defs) == Tree.Const(0x1234);
    }
    assert Settled(c, false) == c;
    assert Released(c, "X", 0) == [];
    assert Released(c, "X", 1) == [0];
    assert [0][..0] == [];
    assert CompleteEach(Alone, c, []) == Some(c);
    var d := CompleteEach(Alone, c, [0]).value;
    Flushed(Alone, d);
  }

  /**
   * It assembles with no error, and the word's second byte is linked as zero, where the source means 12 (hexadecimal).
   */
  lemma HalfLost(env: Env)
    requires env.external("X") == 0x1234
    ensures var a := AssembledLines(Alone, LostSource(), []);
            && a.Some? && Writable(a.value) && a.value.once && Agrees(env, a.value.defs)
            && SourceByte(a.value, env, Cell(1, 1)) == 0
            && Meant(NoteOfWord(), env, Assembler, 1, 0) == [0x34, 0x12]
  {
    hide MacroRun.Statement, AfterPsect, AfterWord, AfterFive;
    var l := LostSource();
    assert l[..4][..3] == l[..3] && l[..3][..2] == l[..2] && l[..2][..1] == l[..1] && l[..1][..0] == [];
    assert Statements(Alone, []) == Some(Begun);
    PsectEntered();
    var a1 := Statements(Alone, l[..1]).value;
    WordStored(a1);
    var a2 := Statements(Alone, l[..2]).value;
    OriginSet(a2);
    var a3 := Statements(Alone, l[..3]).value;
    StatementsKept(Alone, l[..3]);
    KeptLog(Alone, a3);
    AssembledKeeps(a3.ops, Alone.absolute);
    FiveStored(a3);
    var a4 := Statements(Alone, l[..4]).value;
    XFound(a4);
    Lost(a4, Statements(Alone, l).value, env);
  }

  lemma Lost(a: Assembly, b: Assembly, env: Env)
    requires AfterFive(a) && b.notes == a.notes && b.log.stores == a.log.stores && b.stray.None?
    requires b.defs == map["X" := Absolute(0x1234)] && |b.fixups| == 1
    requires b.fixups[0].tree == Sym("X") && b.fixups[0].done.Some?
    requires |b.log.fixes| == 1 && b.log.fixes[0].outcome.Dropped? && env.external("X") == 0x1234
    requires Statements(Alone, LostSource()) == Some(b)
    ensures AssembledLines(Alone, LostSource(), []) == Some(b)
    ensures SourceByte(b, env, Cell(1, 1)) == 0 && Meant(NoteOfWord(), env, Assembler, 1, 0) == [0x34, 0x12]
  {
    hide Statements;
    assert Leaves(Sym("X")) == ["X"];
    assert AllExternal(Alone, b) && MacroRun.Waiting(b, []);
    assert CompleteEach(Alone, b, []) == Some(b);
    assert LastStore(b.log.stores, Cell(1, 1)) == 0;
    assert LittleEndian(0x1234, 2) == [0x34, 0x12];
  }
}
