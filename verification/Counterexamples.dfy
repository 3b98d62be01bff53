/** A program whose one-pass image is not its two-pass image, in a section based at zero and in one that is not. */
module Counterexamples {
  import opened Words
  import opened Expressions
  import opened TwoPass
  import opened OnePass
  import opened Supersession
  import opened Painting
  import opened Passes
  import opened Limits
  import opened ForwardLists
  import opened Backpatch

  lemma OneItem(a: Asm, item: Item)
    ensures StepItems(a, [item]) == StepItem(a, item)
  {
    assert [item][..0] == [];
    assert StepItems(a, []) == Some(a);
  }

  function WordOfX(): Statement {
    Store(false, [Data(Word, Name("X"), 1)])
  }

  function ByteFive(): Statement {
    Store(false, [Data(Byte, Number(5), 1)])
  }

  /** .WORD X at %X220, then, back there, .BYTE 5, then X, which is %X221. */
  function Program(): seq<Statement> {
    [WordOfX(), Origin(Number(0x220)), ByteFive(), Label("X")]
  }

  function Waiting(stmt: nat, dead: bool): Fixup {
    Fixup(0x220, Address(Word), 0, Sym("X"), 1, stmt, dead)
  }

  function WordRecord(): Stored {
    Field(1, 0x220, Address(Word), 0, Name("X"), 0x220, {"X"}, 0)
  }

  function ByteRecord(): Stored {
    Field(3, 0x220, Address(Byte), 0, Number(5), 0x220, {}, 5)
  }

  /** The state after .WORD X. */
  ghost predicate AfterWord(b: Asm) {
    && (b.base == 0 || b.base == 0x200)
    && b.symbols == map["X" := Symbol(0, [0])] && b.fixups == [Waiting(1, false)]
    && b.image == map[0x220 := 0, 0x221 := 0]
    && b.owners == map[0x220 - b.base := [1], 0x221 - b.base := [1]]
    && b.lay.defs == map[] && b.lay.stmt == 1 && b.lay.log == [WordRecord()]
  }

  lemma WordClaims(lo: word)
    requires lo < 0x1000
    ensures Claim(map[], lo, lo + 2, 1) == map[lo := [1], lo + 1 := [1]]
  {
    var o0: Owners := map[];
    assert History(o0, lo) + [1] == [1];
    var o1: Owners := map[lo := [1]];
    assert History(o1, lo + 1) + [1] == [1];
    assert Claim(o1, lo + 1, lo + 2, 1) == Claim(map[lo := [1], lo + 1 := [1]], lo + 2, lo + 2, 1);
  }

  lemma WordWrites()
    ensures Write(map[], 0x220, [0, 0]) == map[0x220 := 0, 0x221 := 0]
  {
    assert [0, 0][1..] == [0] && [0][1..] == [];
    assert Write(map[0x220 := 0], 0x221, [0]) == Write(map[0x220 := 0, 0x221 := 0], 0x222, []);
  }

  lemma XAttaches()
    ensures Attach(map[], ["X"], 0) == (map["X" := Symbol(0, [0])], 1)
  {
    var linked: Symbols := map["X" := Symbol(0, [0])];
    assert [0] + [] == [0];
    assert ["X"][1..] == [];
    assert Attach(linked, [], 0) == (linked, 0);
  }

  /** One copy of a datum is one field. */
  lemma OneCopy(a: Asm, w: Width, x: ExprVal, e: Term, here: word)
    ensures StoreValue(a, Data(w, e, 1), x) == StoreField(a, Address(w), x, e, a.lay.pc, Placeholder(AsTree(x)))
  {
    hide StoreField;
    var ph := Placeholder(AsTree(x));
    assert StoreCopies(a, Address(w), x, e, a.lay.pc, ph, 0) == a;
    assert StoreCopies(a, Address(w), x, e, a.lay.pc, ph, 1) == StoreField(a, Address(w), x, e, a.lay.pc, ph);
  }

  lemma FirstStore(a: Asm)
    requires a == Asm(a.base, Layout(0x220, 0, 1, map[], {}, [], []), map[], [], map[], map[], [])
    requires a.base == 0 || a.base == 0x200
    ensures AfterWord(StoreField(a, Address(Word), Unknown(Sym("X")), Name("X"), 0x220, 0))
  {
    hide Write, Claim, Attach;
    assert LittleEndian(0, 2) == [0, 0];
    assert Offset(a) == 0x220 - a.base;
    WordClaims(0x220 - a.base);
    WordWrites();
    XAttaches();
    assert !Overwrites(a.owners, Offset(a), Wrap(Offset(a) + 2), 1);
    assert Leaves(Sym("X")) == ["X"] && Waits(Unknown(Sym("X"))) == {"X"};
  }

  lemma FirstStatement(base: word)
    requires base == 0 || base == 0x200
    ensures var b := StepStatement(Start(base, 0x220), WordOfX()); b.Some? && AfterWord(b.value) && b.value.base == base
  {
    var a1 := NextStatement(Start(base, 0x220));
    var a2 := a1.(lay := LayCaseBase(a1.lay, false));
    var x := Unknown(Sym("X"));
    assert Read(a2.lay, Name("X"), 0x220) == Ok(x);
    assert Placeholder(Sym("X")) == 0;
    hide AfterWord, StoreField, StoreValue, Evaluate;
    OneItem(a2, Data(Word, Name("X"), 1));
    OneCopy(a2, Word, x, Name("X"), 0x220);
    FirstStore(a2);
    FieldBase(a2, Address(Word), x, Name("X"), 0x220, 0);
  }

  lemma FieldBase(a: Asm, kind: FieldKind, x: ExprVal, e: Term, here: word, ph: word)
    ensures StoreField(a, kind, x, e, here, ph).base == a.base
  {
  }

  /** The state after .BYTE 5: the fixup is dead just where the section is based at zero. */
  ghost predicate AfterByte(c: Asm) {
    && (c.base == 0 || c.base == 0x200)
    && c.symbols == map["X" := Symbol(0, [0])] && c.fixups == [Waiting(1, c.base == 0)]
    && c.image == map[0x220 := 5, 0x221 := 0]
    && c.lay.defs == map[] && c.lay.pc == 0x221 && c.lay.log == [WordRecord(), ByteRecord()]
  }

  lemma SecondStore(a: Asm)
    requires AfterWord(a.(lay := a.lay.(stmt := 1))) && a.lay.stmt == 3 && a.lay.pc == 0x220 && a.lay.caseBase == 0
    ensures AfterByte(StoreField(a, Address(Byte), Known(5, None), Number(5), 0x220, 5))
  {
    assert FieldBytes(Address(Byte), 0x220, 0, 5) == [5];
    var lo: word := 0x220 - a.base;
    assert Offset(a) == lo;
    assert OwnedByOther(a.owners, lo, 3);
    assert Overwrites(a.owners, lo, lo + 1, 3);
    assert Superseded(Waiting(1, false), lo, lo + 1, 3) == Waiting(1, a.base == 0);
    assert Supersede([Waiting(1, false)], lo, lo + 1, 3) == [Waiting(1, a.base == 0)];
    ByteWrites(a.image);
    hide Write, Claim, Supersede, Overwrites, FieldBytes;
  }

  lemma ByteWrites(image: Memory)
    ensures Write(image, 0x220, [5]) == image[0x220 := 5]
  {
    assert [5][1..] == [];
    assert Write(image[0x220 := 5], 0x221, []) == image[0x220 := 5];
  }

  lemma ByteOver(b: Asm)
    requires AfterWord(b)
    ensures var b1 := StepStatement(b, Origin(Number(0x220)));
            b1.Some? && var c := StepStatement(b1.value, ByteFive());
            c.Some? && AfterByte(c.value) && c.value.base == b.base
  {
    assert ReadNow(NextStatement(b).lay, Number(0x220)) == Some(0x220);
    var b1 := StepStatement(b, Origin(Number(0x220))).value;
    var a1 := NextStatement(b1);
    var a2 := a1.(lay := LayCaseBase(a1.lay, false));
    var x := Known(5, None);
    assert Read(a2.lay, Number(5), 0x220) == Ok(x);
    assert Placeholder(AsTree(x)) == 5;
    SecondStore(a2);
    hide AfterWord, AfterByte, StoreField, StoreValue, Evaluate, ReadNow;
    OneItem(a2, Data(Byte, Number(5), 1));
    OneCopy(a2, Byte, x, Number(5), 0x220);
    FieldBase(a2, Address(Byte), x, Number(5), 0x220, 5);
  }

  lemma DefineX(c: Asm)
    requires AfterByte(c)
    ensures var d := StepStatement(c, Label("X"));
            && d.Some? && d.value.lay.log == c.lay.log && d.value.lay.defs == map["X" := Absolute(0x221)]
            && At(d.value.image, 0x220) == (if c.base == 0 then 5 else 0x21)
            && At(d.value.image, 0x221) == (if c.base == 0 then 0 else 2)
  {
    var a := NextStatement(c);
    var b := SetSymbol(a, "X", 0x221, Here);
    assert WaitersOn(a.symbols, "X") == [0];
    var f := Decrement(b, 0);
    assert f.fixups[0].pending == 0;
    var t := f.fixups[0].expr;
    assert Substituted(t, f.lay.defs) == Const(0x221);
    assert Resolved(t, f.lay.defs) == Const(0x221);
    assert FixupFits(Address(Word), 0x220, 0, 0x221);
    assert [0][1..] == [];
    assert Complete(b, [0]) == Complete(CompleteFixup(f, 0).value, []);
    assert FieldBytes(Address(Word), 0x220, 0, 0x221) == [0x21, 2];
    WriteAt(f.image, 0x220, [0x21, 2], 0x220);
    WriteAt(f.image, 0x220, [0x21, 2], 0x221);
  }

  /** Pass two leaves 5, then the high byte of X. */
  lemma TwoPassBytes(env: Env)
    requires env.external("X") == 0x221
    ensures var log := [WordRecord(), ByteRecord()];
            At(PassTwo(log, env), 0x220) == 5 && At(PassTwo(log, env), 0x221) == 2
  {
    var log := [WordRecord(), ByteRecord()];
    assert log[..1] == [WordRecord()] && log[..1][..0] == [];
    assert LastStore([], 0x221) == -1;
    assert LastStore([WordRecord()], 0x221) == 0;
    assert LastStore(log, 0x220) == 1 && LastStore(log, 0x221) == 0;
    PassTwoAt(log, env, 0x220);
    PassTwoAt(log, env, 0x221);
    assert FieldBytes(Address(Word), 0x220, 0, 0x221) == [0x21, 2];
    assert FieldBytes(Address(Byte), 0x220, 0, 5) == [5];
  }

  /** One pass gives another image than two. Based at zero, where the later store supersedes the fixup, the rest of its
      field is never stored; based elsewhere, where the overlap is not recognized, the fixup stores over the later 5. */
  lemma OnePassDiffers(base: word)
    requires base == 0 || base == 0x200
    ensures var d := Assemble(Program(), base, 0x220);
            && d.Some?
            && var two := PassTwo(d.value.lay.log, TableEnv(d.value.lay.defs));
            && At(two, 0x220) == 5 && At(two, 0x221) == 2
            && (base == 0 ==> At(d.value.image, 0x220) == 5 && At(d.value.image, 0x221) == 0)
            && (base == 0x200 ==> At(d.value.image, 0x220) == 0x21 && At(d.value.image, 0x221) == 2)
  {
    Steps(base);
    var b := StepStatement(Start(base, 0x220), WordOfX()).value;
    var b1 := StepStatement(b, Origin(Number(0x220))).value;
    var c := StepStatement(b1, ByteFive()).value;
    hide StepStatement, PassTwo, TableEnv, Assemble;
    DefineX(c);
    FourStatements(WordOfX(), Origin(Number(0x220)), ByteFive(), Label("X"), base, b, b1, c);
    assert TableEnv(map["X" := Absolute(0x221)]).external("X") == 0x221 by {
      XTable();
    }
    TwoPassBytes(TableEnv(map["X" := Absolute(0x221)]));
    AfterByteLog(c);
  }

  lemma XTable()
    ensures TableEnv(map["X" := Absolute(0x221)]).external("X") == 0x221
  {
  }

  lemma AfterByteLog(c: Asm)
    requires AfterByte(c)
    ensures c.lay.log == [WordRecord(), ByteRecord()]
  {
  }

  lemma FourStatements(s1: Statement, s2: Statement, s3: Statement, s4: Statement, base: word, b: Asm, b1: Asm, c: Asm)
    requires StepStatement(Start(base, 0x220), s1) == Some(b)
    requires StepStatement(b, s2) == Some(b1) && StepStatement(b1, s3) == Some(c)
    ensures Assemble([s1, s2, s3, s4], base, 0x220) == StepStatement(c, s4)
  {
    hide StepStatement;
    assert [s1][..0] == [] && [s1, s2][..1] == [s1] && [s1, s2, s3][..2] == [s1, s2]
           && [s1, s2, s3, s4][..3] == [s1, s2, s3];
    assert Assemble([], base, 0x220) == Some(Start(base, 0x220));
    assert Assemble([s1], base, 0x220) == Some(b);
    assert Assemble([s1, s2], base, 0x220) == Some(b1);
    assert Assemble([s1, s2, s3], base, 0x220) == Some(c);
  }

  lemma Steps(base: word)
    requires base == 0 || base == 0x200
    ensures var b := StepStatement(Start(base, 0x220), WordOfX());
            && b.Some?
            && var b1 := StepStatement(b.value, Origin(Number(0x220)));
            && b1.Some?
            && var c := StepStatement(b1.value, ByteFive());
            && c.Some? && AfterByte(c.value) && c.value.base == base
  {
    hide StepStatement, AfterWord, AfterByte;
    FirstStatement(base);
    ByteOver(StepStatement(Start(base, 0x220), WordOfX()).value);
  }

  // ---- A field given up for nothing ----

  function RawByte(b: octet): Statement {
    Store(false, [Raw([b])])
  }

  /** A byte at %X420, .WORD X at %X220, and back at %X420 another byte. */
  function Distant(): seq<Statement> {
    [Origin(Number(0x420)), RawByte(1), Origin(Number(0x220)), WordOfX(), Origin(Number(0x420)), RawByte(5)]
  }

  function FarWord(): Stored {
    Field(4, 0x220, Address(Word), 0, Name("X"), 0x220, {"X"}, 0)
  }

  function DistantLog(): seq<Stored> {
    [Literal(2, 0x420, [1]), FarWord(), Literal(6, 0x420, [5])]
  }

  lemma OriginLaid(lay: Layout, v: word)
    ensures LayStatement(lay, Origin(Number(v))) == lay.(stmt := lay.stmt + 1, pc := v)
  {
    assert ReadNow(lay.(stmt := lay.stmt + 1), Number(v)) == Some(v);
  }

  lemma RawLaid(lay: Layout, b: octet)
    requires lay.caseBase == 0
    ensures LayStatement(lay, RawByte(b))
            == lay.(stmt := lay.stmt + 1, pc := Wrap(lay.pc + 1), log := lay.log + [Literal(lay.stmt + 1, lay.pc, [b])])
  {
    var next := LayCaseBase(lay.(stmt := lay.stmt + 1), false);
    assert [Raw([b])][..0] == [];
    assert LayItems(next, []) == next;
    assert LayItems(next, [Raw([b])]) == LayItem(next, Raw([b]));
  }

  lemma WordLaid(lay: Layout)
    requires lay.caseBase == 0 && lay.pc == 0x220 && lay.stmt == 3 && lay.defs == map[]
    ensures LayStatement(lay, WordOfX())
            == lay.(stmt := 4, pc := 0x222, waiting := lay.waiting + {"X"}, log := lay.log + [FarWord()])
  {
    var next := LayCaseBase(lay.(stmt := lay.stmt + 1), false);
    var item := Data(Word, Name("X"), 1);
    assert [item][..0] == [];
    assert LayItems(next, []) == next;
    assert LayItems(next, [item]) == LayItem(next, item);
    var x := Unknown(Sym("X"));
    assert Read(next, Name("X"), next.pc) == Ok(x);
    assert LayCopies(next, Address(Word), x, Name("X"), next.pc, 0, 0) == next;
    assert LeafSet(Sym("X")) == {"X"};
  }

  lemma DistantLaid(start: word)
    ensures PassOne(Distant(), start) == Layout(0x421, 0, 6, map[], {"X"}, DistantLog(), [])
  {
    hide LayStatement;
    var p := Distant();
    assert p[..1][..0] == [] && p[..2][..1] == p[..1] && p[..3][..2] == p[..2] && p[..4][..3] == p[..3];
    assert p[..5][..4] == p[..4] && p[..5] == p[..|p| - 1];
    assert PassOne([], start) == Layout(start, 0, 0, map[], {}, [], []);
    OriginLaid(PassOne([], start), 0x420);
    RawLaid(PassOne(p[..1], start), 1);
    OriginLaid(PassOne(p[..2], start), 0x220);
    WordLaid(PassOne(p[..3], start));
    OriginLaid(PassOne(p[..4], start), 0x420);
    RawLaid(PassOne(p[..5], start), 5);
  }

  lemma OriginSteps(a: Asm, v: word)
    ensures StepStatement(a, Origin(Number(v))).Some?
  {
    assert ReadNow(NextStatement(a).lay, Number(v)) == Some(v);
  }

  lemma RawSteps(a: Asm, b: octet)
    ensures StepStatement(a, RawByte(b)).Some?
  {
    var c := NextStatement(a);
    OneItem(c.(lay := LayCaseBase(c.lay, false)), Raw([b]));
  }

  lemma WordSteps(a: Asm)
    requires a.lay.defs == map[]
    ensures StepStatement(a, WordOfX()).Some?
  {
    var c := NextStatement(a);
    var d := c.(lay := LayCaseBase(c.lay, false));
    assert Read(d.lay, Name("X"), d.lay.pc) == Ok(Unknown(Sym("X")));
    OneItem(d, Data(Word, Name("X"), 1));
  }

  lemma DistantAssembles(base: word, start: word)
    ensures Assemble(Distant(), base, start).Some?
  {
    hide StepStatement, LayStatement;
    var p := Distant();
    assert p[..1][..0] == [] && p[..2][..1] == p[..1] && p[..3][..2] == p[..2] && p[..4][..3] == p[..3];
    assert p[..5][..4] == p[..4] && p[..5] == p[..|p| - 1];
    assert Assemble([], base, start) == Some(Start(base, start));
    OriginSteps(Start(base, start), 0x420);
    RawSteps(Assemble(p[..1], base, start).value, 1);
    OriginSteps(Assemble(p[..2], base, start).value, 0x220);
    FirstThree(base, start);
    WordSteps(Assemble(p[..3], base, start).value);
    OriginSteps(Assemble(p[..4], base, start).value, 0x420);
    RawSteps(Assemble(p[..5], base, start).value, 5);
  }

  lemma FirstThree(base: word, start: word)
    requires Assemble(Distant()[..3], base, start).Some?
    ensures Assemble(Distant()[..3], base, start).value.lay.defs == map[]
  {
    hide StepStatement, LayStatement;
    var p := Distant();
    RunLayout(p[..3], base, start);
    assert p[..1][..0] == [] && p[..2][..1] == p[..1] && p[..3][..2] == p[..2];
    OriginLaid(PassOne([], start), 0x420);
    RawLaid(PassOne(p[..1], start), 1);
    OriginLaid(PassOne(p[..2], start), 0x220);
  }

  lemma FarHit(lay: Layout)
    requires lay.log == DistantLog() && forall i :: 0 <= i < |lay.equations| ==> lay.equations[i].stores == 3
    ensures Hits(lay, 0x200, 1, 2) && !Overlapping(lay.log[1], lay.log[2])
  {
    var log := lay.log;
    assert "X" in log[1].waits && !DefinedBefore(lay, "X", 2);
    assert Covers(log[2], 0x420) && LastStore(log[..2], 0x420) == 0 by {
      assert log[..2][..1] == [log[0]] && [log[0]][..0] == [];
    }
    HitsExactly(lay, 0x200, 1, 2);
  }

  /**
   * In a section based at %X200 the byte stored again at %X420, offset %X220, supersedes the fixup of the field at
   * %X220 that it is nowhere near.
   */
  lemma SupersededUntouched(start: word)
    ensures Assemble(Distant(), 0x200, start).Some? && PassOne(Distant(), start).log == DistantLog()
    ensures !Overlapping(DistantLog()[0], FarWord()) && !Overlapping(DistantLog()[2], FarWord())
    ensures var a := Assemble(Distant(), 0x200, start).value;
            |a.fixups| == |a.home| && exists i :: 0 <= i < |a.fixups| && a.home[i] == 1 && a.fixups[i].dead
  {
    hide Assemble, PassOne, Hits, ClaimsAre, DeadIs, Timed, HomeMatches;
    DistantAssembles(0x200, start);
    DistantLaid(start);
    RunTrack(Distant(), 0x200, start);
    RunLayout(Distant(), 0x200, start);
    var a := Assemble(Distant(), 0x200, start).value;
    assert a.lay.log[1].Field? && a.lay.log[1].waits != {};
    assert 1 in a.home;
    var i :| 0 <= i < |a.home| && a.home[i] == 1;
    DeadExactly(Distant(), 0x200, start, i);
    FarHit(PassOne(Distant(), start));
    assert Hits(PassOne(Distant(), start), 0x200, 1, 2);
  }

  /** Telling fixups that are all superseded of their last symbol stores nothing, and is no error. */
  lemma {:induction false} SupersededTold(a: Asm, ws: seq<nat>, env: Env)
    requires TablesAgree(a) && ListsSound(a) && ListsComplete(a) && Told(a, ws) && Counted(a, ws)
    requires Homes(a) && Means(a, env) && Agrees(env, a.lay.defs)
    requires forall i :: 0 <= i < |a.fixups| ==> a.fixups[i].dead
    ensures Complete(a, ws).Some?
    decreases |ws|
  {
    if ws != [] {
      CompleteTells(a, ws);
      hide TablesAgree, ListsSound, ListsComplete, Counted, Agrees, Complete, Homes, Means, Finished;
      DeadTold(a, ws, env);
      var c := Tell(a, ws[0]).value;
      TellKeepsLists(a, ws);
      FrameHomes(a, c, env);
      SupersededTold(c, ws[1..], env);
    } else {
      assert Complete(a, ws) == Some(a);
    }
  }

  lemma DeadTold(a: Asm, ws: seq<nat>, env: Env)
    requires TablesAgree(a) && ListsComplete(a) && Homes(a) && Means(a, env) && Agrees(env, a.lay.defs)
    requires ws != [] && Told(a, ws) && Counted(a, ws) && a.fixups[ws[0]].dead
    ensures Tell(a, ws[0]).Some? && TellFrame(a, Tell(a, ws[0]).value)
  {
    var i := ws[0];
    DecrementCounts(a, ws);
    DecrementFrame(a, i);
    hide Counted, TablesAgree, ListsComplete, Agrees, Decrement, Awaited, Means;
    if Decrement(a, i).fixups[i].pending == 0 {
      assert Awaited(a, i) == {};
      CompletedRight(a, i, env);
    }
  }

  lemma DistantLabelled(start: word)
    ensures Assemble(Distant() + [Label("X")], 0x200, start).Some?
    ensures PassOne(Distant() + [Label("X")], start)
            == Layout(0x421, 0, 7, map["X" := Absolute(0x421)], {}, DistantLog(), [Equation("X", Here, 0x421, 3)])
  {
    hide StepStatement, LayStatement, Linked, Homes, Means, Painted, Track;
    var p, env := Distant() + [Label("X")], TableEnv(map["X" := Absolute(0x421)]);
    assert p[..|p| - 1] == Distant();
    DistantLaid(start);
    DistantAssembles(0x200, start);
    var a := Assemble(Distant(), 0x200, start).value;
    RunLayout(Distant(), 0x200, start);
    RunKeepsLinked(Distant(), 0x200, start);
    RunTrack(Distant(), 0x200, start);
    RunSound(Distant(), 0x200, start, env);
    AllDead(a, start);
    LabelSteps(a, env);
    LabelLaid(a.lay);
  }

  lemma LabelLaid(lay: Layout)
    requires lay.defs == map[] && lay.equations == []
    ensures LayStatement(lay, Label("X"))
            == lay.(stmt := lay.stmt + 1, defs := map["X" := Absolute(lay.pc)], waiting := lay.waiting - {"X"},
                    equations := [Equation("X", Here, lay.pc, |lay.log|)])
  {
  }

  lemma AllDead(a: Asm, start: word)
    requires Assemble(Distant(), 0x200, start) == Some(a)
    ensures forall i :: 0 <= i < |a.fixups| ==> a.fixups[i].dead
  {
    hide Assemble, PassOne, Hits, ClaimsAre, DeadIs, Timed, Housed;
    DistantLaid(start);
    RunTrack(Distant(), 0x200, start);
    RunLayout(Distant(), 0x200, start);
    forall i: nat | i < |a.fixups|
      ensures a.fixups[i].dead
    {
      DeadExactly(Distant(), 0x200, start, i);
      assert HomeMatches(a.fixups[i], a.lay.log[a.home[i]]);
      assert a.home[i] == 1;
      FarHit(PassOne(Distant(), start));
      assert Hits(PassOne(Distant(), start), 0x200, 1, 2);
    }
  }

  lemma LabelSteps(a: Asm, env: Env)
    requires Linked(a) && Homes(a) && Means(a, env) && a.lay.defs == map[] && a.lay.pc == 0x421
    requires env.external("X") == 0x421
    requires forall i :: 0 <= i < |a.fixups| ==> a.fixups[i].dead
    ensures StepStatement(a, Label("X")).Some?
  {
    hide Means, Complete, HomeMatches;
    var b := NextStatement(a);
    SameLinksLinked(a, b);
    assert Homes(b) && Means(b, env) by {
      NextMeans(a, b, env);
    }
    SetSymbolFrame(b, "X", b.lay.pc, Here);
    SetSymbolLists(b, "X", b.lay.pc, Here, env);
    SupersededTold(SetSymbol(b, "X", b.lay.pc, Here), WaitersOn(b.symbols, "X"), env);
    LinkedInRange(b);
  }

  lemma NextMeans(a: Asm, b: Asm, env: Env)
    requires Homes(a) && Means(a, env) && b == NextStatement(a)
    ensures Homes(b) && Means(b, env)
  {
    hide Linear, Expressions.Value, MeaningAt, HomeMatches;
  }

  /** So the field keeps its placeholder, zero, where two passes store the low byte of X. */
  lemma LostForNothing(start: word)
    ensures var p := Distant() + [Label("X")];
            && Assemble(p, 0x200, start).Some?
            && At(Assemble(p, 0x200, start).value.image, 0x220) == 0
            && At(PassTwo(PassOne(p, start).log, TableEnv(PassOne(p, start).defs)), 0x220) == 0x21
  {
    hide Assemble, PassOne, PassTwo, Hits;
    var p := Distant() + [Label("X")];
    DistantLabelled(start);
    ImageExactly(p, 0x200, start, 0x220);
    var lay := PassOne(p, start);
    FarHit(lay);
    FarBytes(lay, At(Assemble(p, 0x200, start).value.image, 0x220));
  }

  lemma FarBytes(lay: Layout, v: octet)
    requires lay.log == DistantLog() && lay.defs == map["X" := Absolute(0x421)] && Hits(lay, 0x200, 1, 2)
    requires PaintedAt(lay, 0x200, TableEnv(lay.defs), 0x220, v)
    ensures v == 0 && At(PassTwo(lay.log, TableEnv(lay.defs)), 0x220) == 0x21
  {
    hide Hits, PassTwo;
    var env := TableEnv(lay.defs);
    assert !Covers(lay.log[0], 0x220) && !Covers(lay.log[2], 0x220) && Covers(lay.log[1], 0x220);
    assert Hit(lay, 0x200, 1);
    FarLast(lay.log);
    assert LittleEndian(0, 2)[0] == 0;
    PassTwoAt(lay.log, env, 0x220);
    assert FieldBytes(Address(Word), 0x220, 0, 0x421) == [0x21, 4];
  }

  lemma FarLast(log: seq<Stored>)
    requires log == DistantLog()
    ensures LastStore(log, 0x220) == 1
  {
    assert log[..2] == [log[0], log[1]];
    assert LastStore(log[..2], 0x220) == 1;
  }

  // ---- A symbol read before it is defined ----

  function LongOfX(): Statement {
    Store(false, [Data(Long, Name("X"), 1)])
  }

  /** .LONG X, then Y = X, then X. */
  function Waiter(): seq<Statement> {
    [LongOfX(), Assign("Y", Name("X")), Label("X")]
  }

  /** The state after .LONG X, all but the image. */
  ghost predicate AfterLong(b: Asm, start: word) {
    && b.symbols == map["X" := Symbol(0, [0])] && b.fixups == [Fixup(start, Address(Long), 0, Sym("X"), 1, 1, false)]
    && b.lay.defs == map[] && b.lay.waiting == {"X"} && b.lay.equations == [] && b.lay.pc == Wrap(start + 4)
  }

  lemma LongStored(base: word, start: word)
    ensures var b := StepStatement(Start(base, start), LongOfX()); b.Some? && AfterLong(b.value, start)
  {
    var a1 := NextStatement(Start(base, start));
    var a2 := a1.(lay := LayCaseBase(a1.lay, false));
    var x := Unknown(Sym("X"));
    assert Read(a2.lay, Name("X"), start) == Ok(x);
    assert Placeholder(Sym("X")) == 0;
    XAttaches();
    assert Leaves(Sym("X")) == ["X"] && Waits(x) == {"X"} && LeafSet(Sym("X")) == {"X"};
    hide StoreValue, Evaluate, Claim, Write, Overwrites, Attach, LittleEndian;
    OneItem(a2, Data(Long, Name("X"), 1));
    OneCopy(a2, Long, x, Name("X"), start);
  }

  lemma YAssigned(b: Asm, start: word)
    requires AfterLong(b, start)
    ensures var c := StepStatement(b, Assign("Y", Name("X")));
            && c.Some? && c.value.fixups == b.fixups && c.value.symbols == b.symbols["Y" := Symbol(0, [])]
            && c.value.lay.defs == map["Y" := Absolute(0)] && c.value.lay.pc == b.lay.pc
            && c.value.lay.equations == [Equation("Y", Name("X"), b.lay.pc, |b.lay.log|)]
  {
    assert ReadNow(NextStatement(b).lay, Name("X")) == Some(0);
    assert WaitersOn(b.symbols, "Y") == [];
  }

  lemma XDefined(c: Asm, start: word)
    requires c.fixups == [Fixup(start, Address(Long), 0, Sym("X"), 1, 1, false)]
    requires c.symbols == map["X" := Symbol(0, [0]), "Y" := Symbol(0, [])]
    requires c.lay.defs == map["Y" := Absolute(0)] && c.lay.pc == Wrap(start + 4)
    ensures var d := StepStatement(c, Label("X"));
            && d.Some? && d.value.lay.defs == map["Y" := Absolute(0), "X" := Absolute(Wrap(start + 4))]
            && |d.value.lay.equations| == |c.lay.equations| + 1 && c.lay.equations <= d.value.lay.equations
  {
    var a := NextStatement(c);
    var b := SetSymbol(a, "X", c.lay.pc, Here);
    assert WaitersOn(a.symbols, "X") == [0];
    var f := Decrement(b, 0);
    assert f.fixups[0].pending == 0;
    var t := f.fixups[0].expr;
    assert Substituted(t, f.lay.defs) == Const(c.lay.pc);
    assert Resolved(t, f.lay.defs) == Const(c.lay.pc);
    assert [0][1..] == [];
    assert Complete(b, [0]) == Complete(CompleteFixup(f, 0).value, []);
    CompleteFixupFrame(f, 0);
  }

  /** The assembler accepts the program wherever it starts, and makes Y zero: so unless X is zero too, Y is not X. */
  lemma WaitingAssignment(base: word, start: word)
    ensures var d := Assemble(Waiter(), base, start);
            && d.Some? && d.value.lay.defs == map["Y" := Absolute(0), "X" := Absolute(Wrap(start + 4))]
            && (Solves(d.value.lay.equations, TableEnv(d.value.lay.defs)) ==> Wrap(start + 4) == 0)
  {
    hide StepStatement, Wrap;
    var s1, s2, s3 := LongOfX(), Assign("Y", Name("X")), Label("X");
    LongStored(base, start);
    var b := StepStatement(Start(base, start), s1).value;
    YAssigned(b, start);
    var c := StepStatement(b, s2).value;
    XDefined(c, start);
    assert [s1][..0] == [] && [s1, s2][..1] == [s1] && [s1, s2, s3][..2] == [s1, s2];
    assert Assemble([], base, start) == Some(Start(base, start));
    assert Assemble([s1], base, start) == Some(b);
    assert Assemble([s1, s2], base, start) == Some(c);
    var d := Assemble(Waiter(), base, start).value;
    assert d.lay.equations[0] == c.lay.equations[0];
    YUnsolved(Wrap(start + 4), c.lay.equations[0]);
  }

  lemma YUnsolved(x: word, q: Equation)
    requires q.name == "Y" && q.e == Name("X")
    ensures Solved(q, TableEnv(map["Y" := Absolute(0), "X" := Absolute(x)])) ==> x == 0
  {
  }
}
