/**
 From a MACRO source to the linked image: whatever its statements read, store, define and finish, each byte linked is
 what the last store of it in the source means.
 */
module SourceImage {
  import opened Words
  import opened Expressions
  import opened Linker
  import opened Output
  import opened Histories
  import opened Emission
  import opened Replay
  import opened Linking
  import opened Allocation
  import opened FinalImage
  import opened MacroRun
  import TwoPass
  import Operands

  // ---- What a store is to hold ----

  predicate Sub(early: Definitions, defs: Definitions) {
    forall key :: key in early ==> key in defs && defs[key] == early[key]
  }

  lemma SubAgrees(env: Env, early: Definitions, defs: Definitions)
    requires Sub(early, defs) && Agrees(env, defs)
    ensures Agrees(env, early)
  {
  }

  predicate Reads(n: Note) {
    n.Value? && Evaluate(n.e, Macro, n.early, n.here).Ok?
  }

  /** The note's value in a field at the offset of psect s, by machine m's arithmetic. */
  function Meant(n: Note, env: Env, m: Machine, s: nat, at: word): (data: seq<octet>)
    requires n.Value?
    ensures |data| == KindSize(n.kind)
  {
    LittleEndian(StoredWord(StoreOf(n.kind), Meaning(n.e, env, n.here, m), Wrap(env.base(s) + at)), KindSize(n.kind))
  }

  /** The tree of what was read, or the constant it is. */
  predicate TreeOf(n: Note, t: Tree)
    requires Reads(n)
  {
    var x := Evaluate(n.e, Macro, n.early, n.here).value;
    t == AsTree(x) || (x.Known? && t == Tree.Const(x.v))
  }

  // ---- The invariant ----

  /** Stored here and now, it is what the expression means. */
  ghost predicate Right(x: Output.Source, n: Note)
    requires n.Value?
  {
    forall env: Env :: Agrees(env, n.early) ==> x.data == Meant(n, env, Assembler, x.sect, x.at)
  }

  /** What stands in for the value is what is stored. */
  predicate HoldsPlace(data: seq<octet>, n: Note)
    requires Reads(n)
  {
    var x := Evaluate(n.e, Macro, n.early, n.here).value;
    x.Unknown? && data == FieldOf(n.kind, Placeholder(x.x))
  }

  ghost predicate NoteOk(x: Output.Source, n: Note, defs: Definitions, once: bool) {
    match n
    case Written => x.fix.None?
    case Value(kind, _, early, _, stray) =>
      && Reads(n) && |x.data| == KindSize(kind) && (once ==> Sub(early, defs))
      && (stray ==> x.fix.None? && HoldsPlace(x.data, n))
      && (x.fix.None? && !stray ==> Right(x, n))
  }

  predicate FixupOk(f: Fix, p: Pending, notes: seq<Note>, defs: Definitions, once: bool) {
    && f.home < |notes|
    && var n := notes[f.home];
       && Reads(n) && !n.stray && n.kind == f.kind && TreeOf(n, p.tree)
       && (p.done.None? <==> f.outcome.Waiting?)
       && (p.done.Some? ==>
             && (f.outcome.Dropped? || ((f.outcome.Applied? || f.outcome.Left?)
                                        && f.outcome.expr == FinalTree(p.done.value, f.kind, p.tree)))
             && (once ==> Sub(p.done.value, defs)))
  }

  ghost predicate Kept(o: Options, a: Assembly) {
    && Output.Assembled(a.ops, o.absolute) == Some(a.log)
    && |a.notes| == |a.log.stores| && |a.fixups| == |a.log.fixes|
    && (forall j :: 0 <= j < |a.notes| ==> NoteOk(a.log.stores[j], a.notes[j], a.defs, a.once))
    && (forall i :: 0 <= i < |a.fixups| ==> FixupOk(a.log.fixes[i], a.fixups[i], a.notes, a.defs, a.once))
  }

  // ---- Frames of the record's operations ----

  /** fixes differ only in which are superseded. */
  predicate SameFixes(fixes: seq<Fix>, others: seq<Fix>) {
    && |fixes| <= |others|
    && forall i :: 0 <= i < |fixes| ==> others[i] == fixes[i].(dead := others[i].dead)
  }

  lemma EmitFrame(log: Log, data: seq<octet>, fill: Option<Filling>)
    ensures var n := Emit(log, data, fill);
            && n.cur == log.cur && Loc(n, n.cur) == Wrap(Loc(log, log.cur) + |data|) && SameFixes(log.fixes, n.fixes)
            && |n.stores| == |log.stores| + 1 && n.stores[..|log.stores|] == log.stores
            && var x := n.stores[|log.stores|];
               && x.sect == log.cur && x.at == Loc(log, log.cur) && x.data == data
               && x.fix == (if fill.Some? then Some(|log.fixes|) else None)
               && |n.fixes| == |log.fixes| + (if fill.Some? then 1 else 0)
               && (fill.Some? ==>
                    n.fixes[|log.fixes|].kind == fill.value.kind && n.fixes[|log.fixes|].outcome == Waiting
                                  && n.fixes[|log.fixes|].home == |log.stores|)
  {
    hide Claim, StoreImage, Overwrites, LogEvent, Overlaps;
  }

  lemma {:induction false} EmitBytesFrame(log: Log, data: seq<octet>)
    ensures var n := EmitBytes(log, data);
            && n.cur == log.cur && Loc(n, n.cur) == Wrap(Loc(log, log.cur) + |data|) && SameFixes(log.fixes, n.fixes)
            && |n.fixes| == |log.fixes|
            && |n.stores| == |log.stores| + |data| && n.stores[..|log.stores|] == log.stores
            && forall k :: |log.stores| <= k < |n.stores| ==> n.stores[k].fix.None?
  {
    hide Emit, Wrap;
    if data == [] {
      LocWord(log);
    } else {
      var k := |data| - 1;
      var front := EmitBytes(log, data[..k]);
      EmitBytesFrame(log, data[..k]);
      EmitFrame(front, [data[k]], None);
      WrapSum(Loc(log, log.cur) + k, 1);
      var n := EmitBytes(log, data);
      assert forall j :: 0 <= j < |front.stores| ==> n.stores[j] == n.stores[..|front.stores|][j];
    }
  }

  lemma LocWord(log: Log)
    ensures Wrap(Loc(log, log.cur) + 0) == Loc(log, log.cur)
  {
  }

  /** Nothing stored, and no fixup touched. */
  lemma PlainFrame(o: Options, log: Log, op: Op)
    requires Proper(log, o.absolute, op) && (op.Statement? || op.Enter? || op.MoveTo? || op.Skip?)
    ensures var n := Output.Apply(log, o.absolute, op); n.stores == log.stores && n.fixes == log.fixes
  {
    hide LogEvent;
  }

  /** A constant or a patch: one store, no fixup. */
  lemma ConstFrame(o: Options, log: Log, op: Op)
    requires Proper(log, o.absolute, op) && (op.Const? || op.Patch?)
    ensures var n := Output.Apply(log, o.absolute, op);
            && n.fixes == log.fixes && |n.stores| == |log.stores| + 1 && n.stores[..|log.stores|] == log.stores
            && n.stores[|log.stores|].fix.None?
  {
    hide LogEvent, StoreImage, LittleEndian;
  }

  // ---- The invariant over a step ----

  lemma DoAssembled(o: Options, a: Assembly, op: Op, notes: seq<Note>)
    requires Output.Assembled(a.ops, o.absolute) == Some(a.log) && Do(o, a, op, notes).Some?
    ensures Output.Assembled(Do(o, a, op, notes).value.ops, o.absolute) == Some(Do(o, a, op, notes).value.log)
  {
    hide Proper, Output.Apply;
    assert (a.ops + [op])[..|a.ops|] == a.ops;
  }

  /** b has what a has, and perhaps more. */
  ghost predicate Grown(o: Options, a: Assembly, b: Assembly) {
    && Output.Assembled(b.ops, o.absolute) == Some(b.log) && b.defs == a.defs && b.once == a.once
    && |a.notes| <= |b.notes| == |b.log.stores| && |a.fixups| <= |b.fixups| == |b.log.fixes|
    && b.notes[..|a.notes|] == a.notes && b.log.stores[..|a.notes|] == a.log.stores[..]
    && b.fixups[..|a.fixups|] == a.fixups && SameFixes(a.log.fixes, b.log.fixes)
  }

  lemma GrownKept(o: Options, a: Assembly, b: Assembly)
    requires Kept(o, a) && Grown(o, a, b)
    requires forall j :: |a.notes| <= j < |b.notes| ==> NoteOk(b.log.stores[j], b.notes[j], b.defs, b.once)
    requires forall i :: |a.fixups| <= i < |b.fixups| ==> FixupOk(b.log.fixes[i], b.fixups[i], b.notes, b.defs, b.once)
    ensures Kept(o, b)
  {
    hide NoteOk, FixupOk;
    forall j | 0 <= j < |b.notes|
      ensures NoteOk(b.log.stores[j], b.notes[j], b.defs, b.once)
    {
      if j < |a.notes| {
        assert b.notes[..|a.notes|][j] == a.notes[j] && b.log.stores[..|a.notes|][j] == a.log.stores[j];
      }
    }
    forall i | 0 <= i < |b.fixups|
      ensures FixupOk(b.log.fixes[i], b.fixups[i], b.notes, b.defs, b.once)
    {
      if i < |a.fixups| {
        assert b.fixups[..|a.fixups|][i] == a.fixups[i];
        OlderFixup(a.log.fixes[i], b.log.fixes[i], a.fixups[i], a.notes, b.notes, a.defs, a.once);
      }
    }
  }

  lemma OlderFixup(f: Fix, g: Fix, p: Pending, notes: seq<Note>, more: seq<Note>, defs: Definitions, once: bool)
    requires FixupOk(f, p, notes, defs, once) && g == f.(dead := g.dead) && |notes| <= |more|
    requires more[..|notes|] == notes
    ensures FixupOk(g, p, more, defs, once)
  {
    hide Reads, TreeOf, Sub, FinalTree;
    assert more[..|notes|][f.home] == more[f.home];
  }

  /** Nothing stored: the location, the psect or the statement changes. */
  lemma PlainKept(o: Options, a: Assembly, op: Op)
    requires Kept(o, a) && (op.Statement? || op.Enter? || op.MoveTo? || op.Skip?) && Do(o, a, op, []).Some?
    ensures Kept(o, Do(o, a, op, []).value)
  {
    hide NoteOk, FixupOk;
    PlainFrame(o, a.log, op);
    DoAssembled(o, a, op, []);
    hide Proper, Output.Apply;
    GrownKept(o, a, Do(o, a, op, []).value);
  }

  lemma ConstKept(o: Options, a: Assembly, op: Op)
    requires Kept(o, a) && (op.Const? || op.Patch?) && Do(o, a, op, [Written]).Some?
    ensures Kept(o, Do(o, a, op, [Written]).value)
  {
    ConstFrame(o, a.log, op);
    DoAssembled(o, a, op, [Written]);
    hide Proper, Output.Apply, FixupOk, Right, Reads;
    var b := Do(o, a, op, [Written]).value;
    assert b.log.stores[..|a.notes|] == a.log.stores;
    GrownKept(o, a, b);
  }

  lemma BytesKept(o: Options, a: Assembly, data: seq<octet>, n: Note)
    requires Kept(o, a) && Do(o, a, Op.Bytes(data), [n]).Some?
    requires forall x: Output.Source :: x.sect == a.log.cur && x.at == Loc(a.log, a.log.cur) && x.data == data
                                        && x.fix.None?
                                        ==> NoteOk(x, n, a.defs, a.once)
    ensures var b := Do(o, a, Op.Bytes(data), [n]).value;
            Kept(o, b) && b.log.cur == a.log.cur && Loc(b.log, b.log.cur) == Wrap(Loc(a.log, a.log.cur) + |data|)
  {
    EmitFrame(a.log, data, None);
    DoAssembled(o, a, Op.Bytes(data), [n]);
    hide Emit, FixupOk, NoteOk, Wrap;
    var b := Do(o, a, Op.Bytes(data), [n]).value;
    assert b.log.stores[..|a.notes|] == a.log.stores;
    GrownKept(o, a, b);
  }

  lemma {:induction false} WrittenKept(o: Options, a: Assembly, data: seq<octet>)
    requires Kept(o, a) && StoreWritten(o, a, data).Some?
    ensures var b := StoreWritten(o, a, data).value;
            && Kept(o, b) && b.log.cur == a.log.cur && Loc(b.log, b.log.cur) == Wrap(Loc(a.log, a.log.cur) + |data|)
            && b.defs == a.defs
  {
    hide Do, Kept, Wrap;
    if data == [] {
      LocWord(a.log);
    } else {
      var k := |data| - 1;
      WrittenKept(o, a, data[..k]);
      var b := StoreWritten(o, a, data[..k]).value;
      DoFrame(o, b, Op.Bytes([data[k]]), [Written]);
      BytesKept(o, b, [data[k]], Written);
      WrapSum(Loc(a.log, a.log.cur) + k, 1);
    }
  }

  lemma DoFrame(o: Options, a: Assembly, op: Op, notes: seq<Note>)
    requires Do(o, a, op, notes).Some?
    ensures var b := Do(o, a, op, notes).value;
            && b.defs == a.defs && b.once == a.once && b.fixups == a.fixups && b.implicitAbs == a.implicitAbs
            && b.stray == a.stray
            && b.ready == a.ready && b.log == Output.Apply(a.log, o.absolute, op) && Proper(a.log, o.absolute, op)
  {
    hide Proper, Output.Apply;
  }

  // ---- Storing an operand or an item ----

  /** The plan's field is what its note says: known, or with a tree to be fixed up. */
  ghost predicate PlanOk(a: Assembly, p: Plan, n: Note) {
    && Reads(n) && (a.once ==> Sub(n.early, a.defs))
    && (p.tree.Some? || p.data != [] ==> n.kind == p.kind && |p.data| == KindSize(p.kind))
    && (p.tree.Some? ==> !n.stray && TreeOf(n, p.tree.value))
    && (n.stray && p.data != [] ==> HoldsPlace(p.data, n))
    && (p.tree.None? && p.data != [] && !n.stray ==>
          forall env: Env :: Agrees(env, n.early) ==>
            p.data == Meant(n, env, Assembler, a.log.cur, Wrap(Loc(a.log, a.log.cur) + |p.pre|)))
  }

  lemma FieldFrame(o: Options, a: Assembly, p: Plan, n: Note)
    requires p.tree.Some? && Do(o, a, Field(p.pre, p.data, p.kind), Writtens(|p.pre|) + [n]).Some?
    ensures var b := Do(o, a, Field(p.pre, p.data, p.kind), Writtens(|p.pre|) + [n]).value;
            var k := |a.log.stores| + |p.pre|;
            && |b.log.stores| == k + 1 && b.log.stores[..|a.log.stores|] == a.log.stores
            && SameFixes(a.log.fixes, b.log.fixes)
            && (forall j :: |a.log.stores| <= j < k ==> b.log.stores[j].fix.None?)
            && b.log.stores[k].data == p.data && b.log.stores[k].fix == Some(|a.log.fixes|)
            && |b.log.fixes| == |a.log.fixes| + 1
            && var f := b.log.fixes[|a.log.fixes|]; f.kind == p.kind && f.outcome == Waiting && f.home == k
  {
    hide Emit, EmitBytes, Untouched, Wrap;
    EmitBytesFrame(a.log, p.pre);
    var mid := EmitBytes(a.log, p.pre);
    EmitFrame(mid, p.data, Some(Filling(p.kind, |p.pre|)));
    var n' := EmitField(a.log, p.pre, p.data, p.kind);
    assert forall j :: 0 <= j < |mid.stores| ==> n'.stores[j] == n'.stores[..|mid.stores|][j];
    assert n'.stores[..|a.log.stores|] == mid.stores[..|a.log.stores|];
  }

  lemma FieldKept(o: Options, a: Assembly, p: Plan, n: Note)
    requires Kept(o, a) && p.tree.Some? && PlanOk(a, p, n) && StorePlan(o, a, p, n).Some?
    ensures Kept(o, StorePlan(o, a, p, n).value)
  {
    FieldFrame(o, a, p, n);
    var op, notes := Field(p.pre, p.data, p.kind), Writtens(|p.pre|) + [n];
    DoAssembled(o, a, op, notes);
    DoFrame(o, a, op, notes);
    var c := Do(o, a, op, notes).value;
    var b := StorePlan(o, a, p, n).value;
    assert b == Hang(c, p.tree.value);
    hide Do, Output.Apply, Proper, Reads, TreeOf, Right;
    var k := |a.log.stores| + |p.pre|;
    assert b.notes == a.notes + notes;
    assert b.log.stores[..|a.notes|] == a.log.stores;
    forall j | |a.notes| <= j < |b.notes|
      ensures NoteOk(b.log.stores[j], b.notes[j], b.defs, b.once)
    {
      assert b.notes[j] == if j < k then Written else n;
    }
    GrownKept(o, a, b);
  }

  lemma KnownKept(o: Options, a: Assembly, p: Plan, n: Note)
    requires Kept(o, a) && p.tree.None? && PlanOk(a, p, n) && StorePlan(o, a, p, n).Some?
    ensures Kept(o, StorePlan(o, a, p, n).value)
  {
    hide Kept, Do, Reads, Wrap, Meant;
    WrittenKept(o, a, p.pre);
    WrittenFrame(o, a, p.pre);
    if p.data != [] {
      BytesKept(o, StoreWritten(o, a, p.pre).value, p.data, n);
    }
  }

  lemma {:induction false} WrittenFrame(o: Options, a: Assembly, data: seq<octet>)
    requires StoreWritten(o, a, data).Some?
    ensures var b := StoreWritten(o, a, data).value;
            b.defs == a.defs && b.once == a.once && b.implicitAbs == a.implicitAbs && b.stray == a.stray
  {
    hide Do;
    if data != [] {
      var k := |data| - 1;
      WrittenFrame(o, a, data[..k]);
      DoFrame(o, StoreWritten(o, a, data[..k]).value, Op.Bytes([data[k]]), [Written]);
    }
  }

  lemma PlanKept(o: Options, a: Assembly, p: Plan, n: Note)
    requires Kept(o, a) && PlanOk(a, p, n) && StorePlan(o, a, p, n).Some?
    ensures var b := StorePlan(o, a, p, n).value;
            Kept(o, b) && b.defs == a.defs && b.once == a.once && b.implicitAbs == a.implicitAbs && b.stray == a.stray
  {
    hide Kept, PlanOk, Do;
    if p.tree.Some? {
      FieldKept(o, a, p, n);
      DoFrame(o, a, Field(p.pre, p.data, p.kind), Writtens(|p.pre|) + [n]);
    } else {
      KnownKept(o, a, p, n);
      WrittenFrame(o, a, p.pre);
      if p.data != [] {
        DoFrame(o, StoreWritten(o, a, p.pre).value, Op.Bytes(p.data), [n]);
      }
    }
  }

  // ---- What an operand's plan holds ----

  /** A value known when it is read is the expression's. */
  lemma KnownMeans(n: Note, env: Env)
    requires Reads(n) && Agrees(env, n.early) && Evaluate(n.e, Macro, n.early, n.here).value.Known?
    ensures Evaluate(n.e, Macro, n.early, n.here).value.v == Meaning(n.e, env, n.here, Assembler)
  {
    hide Evaluate, Meaning;
    EvaluateKeepsMeaning(n.e, Macro, n.early, n.here, env);
  }

  /** A field that holds a known value as it is. */
  lemma FieldRight(n: Note, env: Env, s: nat, at: word)
    requires Reads(n) && Agrees(env, n.early) && Evaluate(n.e, Macro, n.early, n.here).value.Known?
    requires !IsDisplacement(n.kind)
    ensures FieldOf(n.kind, Evaluate(n.e, Macro, n.early, n.here).value.v) == Meant(n, env, Assembler, s, at)
  {
    hide Evaluate, Meaning, LittleEndian, Wrap;
    KnownMeans(n, env);
  }

  lemma NowOrLaterOk(a: Assembly, pre: seq<octet>, n: Note)
    requires Reads(n) && (a.once ==> Sub(n.early, a.defs)) && !IsDisplacement(n.kind) && !n.stray
    ensures PlanOk(a, NowOrLater(pre, n.kind, Evaluate(n.e, Macro, n.early, n.here).value), n)
  {
    hide Evaluate, Sub, FieldOf, Meant, Wrap;
    forall env: Env | Agrees(env, n.early) && Evaluate(n.e, Macro, n.early, n.here).value.Known?
      ensures FieldOf(n.kind, Evaluate(n.e, Macro, n.early, n.here).value.v)
              == Meant(n, env, Assembler, a.log.cur, Wrap(Loc(a.log, a.log.cur) + |pre|))
    {
      FieldRight(n, env, a.log.cur, Wrap(Loc(a.log, a.log.cur) + |pre|));
    }
  }

  lemma RelativeBytes(target: word, pc: word, deferred: bool, size: Option<Width>)
    requires Operands.RelativeOperand(target, pc, deferred, size).Some?
    ensures var s := Operands.RelativeOperand(target, pc, deferred, size).value;
            var k := DispOf(WidthOf(|s| - 1));
            |s| == 1 + KindSize(k) && s[1..] == FieldOf(k, Wrap(target - (Wrap(pc + 1) + KindSize(k))))
  {
    hide LittleEndian, Wrap, Signed;
  }

  /** A location of the current psect, whose distance is known wherever the psect goes. */
  lemma TargetMeans(n: Note, env: Env, cur: nat, k: Kind, at: word)
    requires Reads(n) && Agrees(env, n.early) && KnownTarget(Evaluate(n.e, Macro, n.early, n.here).value, cur).Some?
    requires n.kind == k && IsDisplacement(k)
    ensures var target := KnownTarget(Evaluate(n.e, Macro, n.early, n.here).value, cur).value;
            FieldOf(k, Wrap(target - (at + KindSize(k)))) == Meant(n, env, Assembler, cur, at)
  {
    hide Evaluate, Meaning, LittleEndian, Wrap, SimpleRelocatable, Expressions.Value;
    var x := Evaluate(n.e, Macro, n.early, n.here).value;
    EvaluateKeepsMeaning(n.e, Macro, n.early, n.here, env);
    SimpleRelocatableIsBasePlusOffset(x.x, env, Assembler);
    var target := KnownTarget(x, cur).value;
    DisplacementMoves(env.base(cur), target, at, KindSize(k));
    assert target - at - KindSize(k) == target - (at + KindSize(k));
  }

  lemma RelativeOk(o: Options, a: Assembly, index: seq<octet>, deferred: bool, size: Option<Width>, n: Note)
    requires Reads(n) && (a.once ==> Sub(n.early, a.defs)) && !n.stray
    requires var x, pc := Evaluate(n.e, Macro, n.early, n.here).value, Wrap(Loc(a.log, a.log.cur) + |index|);
             var p := RelativePlan(o, index, deferred, size, x, a.log.cur, pc);
             p.Some? && n.kind == p.value.kind
    ensures var x, pc := Evaluate(n.e, Macro, n.early, n.here).value, Wrap(Loc(a.log, a.log.cur) + |index|);
            PlanOk(a, RelativePlan(o, index, deferred, size, x, a.log.cur, pc).value, n)
  {
    hide Evaluate, Sub, FieldOf, Meant, Wrap, Operands.RelativeOperand, SimpleRelocatable, Loc;
    var x, cur, start := Evaluate(n.e, Macro, n.early, n.here).value, a.log.cur, Loc(a.log, a.log.cur);
    var pc := Wrap(start + |index|);
    var p := RelativePlan(o, index, deferred, size, x, cur, pc).value;
    if KnownTarget(x, cur).Some? {
      RelativeBytes(KnownTarget(x, cur).value, pc, deferred, size);
      WrapSum(start + |index|, 1);
      assert |p.pre| == |index| + 1;
      forall env: Env | Agrees(env, n.early)
        ensures p.data == Meant(n, env, Assembler, cur, Wrap(start + |p.pre|))
      {
        TargetMeans(n, env, cur, p.kind, Wrap(start + |p.pre|));
      }
    }
  }

  lemma RegisterBytes(v: word, deferred: bool, reg: octet, size: Option<Width>)
    requires reg < 16 && Operands.RegisterDisplacement(v, deferred, reg, size, Macro).Some?
    ensures var s := Operands.RegisterDisplacement(v, deferred, reg, size, Macro).value;
            var k := SignedOf(WidthOf(|s| - 1));
            |s| > 0 && (|s| > 1 ==> |s| == 1 + KindSize(k) && s[1..] == FieldOf(k, v))
  {
    hide LittleEndian, Wrap, Signed;
  }

  lemma RegisterOk(a: Assembly, index: seq<octet>, deferred: bool, reg: octet, size: Option<Width>, n: Note)
    requires Reads(n) && (a.once ==> Sub(n.early, a.defs)) && !n.stray && reg < 16
    requires var p := RegisterPlan(index, deferred, reg, size, Evaluate(n.e, Macro, n.early, n.here).value);
             p.Some? && n.kind == p.value.kind
    ensures PlanOk(a, RegisterPlan(index, deferred, reg, size, Evaluate(n.e, Macro, n.early, n.here).value).value, n)
  {
    hide Evaluate, Sub, FieldOf, Meant, Wrap, Operands.RegisterDisplacement, Loc;
    var x := Evaluate(n.e, Macro, n.early, n.here).value;
    var p := RegisterPlan(index, deferred, reg, size, x).value;
    if x.Known? {
      RegisterBytes(x.v, deferred, reg, size);
      forall env: Env | Agrees(env, n.early) && p.data != []
        ensures p.data == Meant(n, env, Assembler, a.log.cur, Wrap(Loc(a.log, a.log.cur) + |p.pre|))
      {
        FieldRight(n, env, a.log.cur, Wrap(Loc(a.log, a.log.cur) + |p.pre|));
      }
    }
  }

  lemma OperandOk(o: Options, a: Assembly, p: Operand, n: Note)
    requires Reads(n) && n.e == OperandTerm(p) && (a.once ==> Sub(n.early, a.defs)) && !n.stray
    requires var plan := PlanOf(o, p, Evaluate(n.e, Macro, n.early, n.here).value, a.log.cur, Loc(a.log, a.log.cur));
             plan.Some? && n.kind == plan.value.kind
    ensures PlanOk(a, PlanOf(o, p, Evaluate(n.e, Macro, n.early, n.here).value, a.log.cur, Loc(a.log, a.log.cur)).value,
              n)
  {
    hide Evaluate, Sub, FieldOf, Meant, Wrap, Loc, RelativePlan, RegisterPlan;
    match p
    case ImmediateOf(index, w, _) => NowOrLaterOk(a, index + [0x8F], n);
    case AbsoluteOf(index, _) => NowOrLaterOk(a, index + [0x9F], n);
    case RelativeTo(index, deferred, size, _) => RelativeOk(o, a, index, deferred, size, n);
    case FromRegister(index, deferred, reg, size, _) => RegisterOk(a, index, deferred, reg, size, n);
    case _ =>
  }

  lemma OperandKept(o: Options, a: Assembly, p: Operand)
    requires Kept(o, a) && StoreOperand(o, a, p).Some?
    ensures var b := StoreOperand(o, a, p).value;
            Kept(o, b) && b.defs == a.defs && b.once == a.once && b.implicitAbs == a.implicitAbs && b.stray == a.stray
  {
    hide Kept, PlanOk, StorePlan, PlanOf, Evaluate;
    var x := ReadHere(o, a, OperandTerm(p), ReadAfter(p)).value;
    var plan := PlanOf(o, p, x, a.log.cur, Loc(a.log, a.log.cur)).value;
    var n := Value(plan.kind, OperandTerm(p), a.defs, MacroRun.Here(o, a, ReadAfter(p)), false);
    OperandOk(o, a, p, n);
    PlanKept(o, a, plan, n);
  }

  lemma {:induction false} OperandsKept(o: Options, a: Assembly, ps: seq<Operand>)
    requires Kept(o, a) && StoreOperands(o, a, ps).Some?
    ensures var b := StoreOperands(o, a, ps).value;
            Kept(o, b) && b.defs == a.defs && b.once == a.once && b.implicitAbs == a.implicitAbs && b.stray == a.stray
  {
    hide Kept, StoreOperand;
    if ps != [] {
      OperandsKept(o, a, ps[..|ps| - 1]);
      OperandKept(o, StoreOperands(o, a, ps[..|ps| - 1]).value, ps[|ps| - 1]);
    }
  }

  // ---- Data ----

  lemma BlankKept(o: Options, a: Assembly)
    requires Kept(o, a) && UseBlank(o, a).Some?
    ensures var b := UseBlank(o, a).value;
            Kept(o, b) && b.defs == a.defs && b.once == a.once && !b.implicitAbs && b.stray == a.stray
  {
    hide NoteOk, FixupOk, Do;
    if a.implicitAbs {
      var b := a.(implicitAbs := false);
      PlainKept(o, b, Enter(Blank, true));
      DoFrame(o, b, Enter(Blank, true), []);
    }
  }

  lemma CopyKept(o: Options, a: Assembly, n: Note)
    requires Kept(o, a) && Reads(n) && (a.once ==> Sub(n.early, a.defs)) && !IsDisplacement(n.kind) && !n.stray
    requires StoreCopy(o, a, NowOrLater([], n.kind, Evaluate(n.e, Macro, n.early, n.here).value), n).Some?
    ensures var b := StoreCopy(o, a, NowOrLater([], n.kind, Evaluate(n.e, Macro, n.early, n.here).value), n).value;
            Kept(o, b) && b.defs == a.defs && b.once == a.once
  {
    hide Kept, Evaluate, Sub, StorePlan, UseBlank, FieldOf;
    var p := NowOrLater([], n.kind, Evaluate(n.e, Macro, n.early, n.here).value);
    if !a.implicitAbs {
      NowOrLaterOk(a, [], n);
      PlanKept(o, a, p, n);
    } else {
      BlankKept(o, a);
      var b := UseBlank(o, a).value;
      NowOrLaterOk(b, [], n);
      if p.tree.None? {
        PlanKept(o, b, p, n);
      } else {
        var c := b.(stray := Some(Stray(p.kind, p.tree.value, None)));
        SameKept(o, b, c);
        PlanKept(o, c, p.(tree := None), n.(stray := true));
      }
    }
  }

  /** What is waited for in the wrong psect, or is ready, is no part of it. */
  lemma SameKept(o: Options, a: Assembly, b: Assembly)
    requires Kept(o, a) && b == a.(stray := b.stray, ready := b.ready, implicitAbs := b.implicitAbs)
    ensures Kept(o, b)
  {
    hide NoteOk, FixupOk;
  }

  lemma {:induction false} CopiesKept(o: Options, a: Assembly, n: Note, count: nat)
    requires Kept(o, a) && Reads(n) && (a.once ==> Sub(n.early, a.defs)) && !IsDisplacement(n.kind) && !n.stray
    requires StoreCopies(o, a, NowOrLater([], n.kind, Evaluate(n.e, Macro, n.early, n.here).value), n, count).Some?
    ensures var b := StoreCopies(o, a, NowOrLater([], n.kind, Evaluate(n.e, Macro, n.early, n.here).value), n,
              count).value;
            Kept(o, b) && b.defs == a.defs && b.once == a.once
  {
    hide Kept, Evaluate, Sub, StoreCopy, NowOrLater;
    var p := NowOrLater([], n.kind, Evaluate(n.e, Macro, n.early, n.here).value);
    if count > 0 {
      CopiesKept(o, a, n, count - 1);
      CopyKept(o, StoreCopies(o, a, p, n, count - 1).value, n);
    }
  }

  lemma DatumKept(o: Options, a: Assembly, d: Datum)
    requires Kept(o, a) && StoreDatum(o, a, d).Some?
    ensures Kept(o, StoreDatum(o, a, d).value)
  {
    hide Kept, Evaluate, StoreCopies, NowOrLater, ReadNumber;
    var n := Value(DatumKind(d), d.e, a.defs, MacroRun.Here(o, a, 0), false);
    CopiesKept(o, a, n, ReadNumber(o, a, d.count).value);
  }

  lemma {:induction false} DataKept(o: Options, a: Assembly, ds: seq<Datum>)
    requires Kept(o, a) && StoreData(o, a, ds).Some?
    ensures Kept(o, StoreData(o, a, ds).value)
  {
    hide Kept, StoreDatum;
    if ds != [] {
      DataKept(o, a, ds[..|ds| - 1]);
      DatumKept(o, StoreData(o, a, ds[..|ds| - 1]).value, ds[|ds| - 1]);
    }
  }

  lemma AddressKept(o: Options, a: Assembly, e: Term, data: seq<octet>)
    requires Kept(o, a) && |data| == 4 && StorePointer(o, a, e, data).Some?
    ensures Kept(o, StorePointer(o, a, e, data).value)
  {
    hide Kept, Evaluate, StorePlan;
    var n := Value(Pidr, e, a.defs, MacroRun.Here(o, a, 0), false);
    PlanKept(o, a, AddressPlan(ReadHere(o, a, e, 0).value, data), n);
  }

  lemma {:induction false} AddressesKept(o: Options, a: Assembly, es: seq<Term>)
    requires Kept(o, a) && StorePointers(o, a, es).Some?
    ensures Kept(o, StorePointers(o, a, es).value)
  {
    hide Kept, StorePointer, UseBlank;
    if es != [] {
      var front := es[..|es| - 1];
      AddressesKept(o, a, front);
      var b := StorePointers(o, a, front).value;
      BlankKept(o, b);
      AddressKept(o, UseBlank(o, b).value, es[|es| - 1], LittleEndian(0, 4));
    }
  }

  lemma StringKept(o: Options, a: Assembly, line: Line)
    requires (line.Ascii? || line.Counted? || line.Described?) && Kept(o, a) && StoreString(o, a, line).Some?
    ensures Kept(o, StoreString(o, a, line).value)
  {
    hide Kept, StorePointer, UseBlank, Do, StoreWritten, LittleEndian;
    BlankKept(o, a);
    var b := UseBlank(o, a).value;
    var at, n := Loc(b.log, b.log.cur), |line.data|;
    match line
    case Ascii(data) => WrittenKept(o, b, data);
    case Counted(data) =>
      var op := Op.Const(1, 0, ConstForm.SignedByte);
      ConstKept(o, b, op);
      var c := Do(o, b, op, [Written]).value;
      WrittenKept(o, c, data);
      ConstKept(o, StoreWritten(o, c, data).value, Patch(at, 1, n, true));
    case Described(data) =>
      var op := Op.Const(4, 0x10E_0000, ConstForm.Plain);
      ConstKept(o, b, op);
      var c := Do(o, b, op, [Written]).value;
      var address := LittleEndian(Wrap(Loc(c.log, c.log.cur) + 4), 4);
      var e := Infix(Add, Term.Here, Number(4));
      AddressKept(o, c, e, address);
      var d := StorePointer(o, c, e, address).value;
      WrittenKept(o, d, data);
      ConstKept(o, StoreWritten(o, d, data).value, Patch(at, 2, n, false));
    case _ =>
  }

  // ---- Definitions and completions ----

  lemma DefsKept(o: Options, a: Assembly, name: string, p: Place)
    requires Kept(o, a)
    ensures Kept(o, a.(defs := a.defs[name := p], once := a.once && name !in a.defs))
  {
    hide Right, TreeOf, FinalTree, Output.Assembled;
    var b := a.(defs := a.defs[name := p], once := a.once && name !in a.defs);
    forall j | 0 <= j < |b.notes|
      ensures NoteOk(b.log.stores[j], b.notes[j], b.defs, b.once)
    {
      assert NoteOk(a.log.stores[j], a.notes[j], a.defs, a.once);
    }
    forall i | 0 <= i < |b.fixups|
      ensures FixupOk(b.log.fixes[i], b.fixups[i], b.notes, b.defs, b.once)
    {
      assert FixupOk(a.log.fixes[i], a.fixups[i], a.notes, a.defs, a.once);
    }
  }

  lemma CompletedOk(f: Fix, p: Pending, notes: seq<Note>, defs: Definitions, once: bool)
    requires FixupOk(f, p, notes, defs, once)
    ensures var t := FinalTree(defs, f.kind, p.tree);
            FixupOk(f.(outcome := OutcomeOf(f, t)), p.(done := Some(defs)), notes, defs, once)
  {
    hide Reads, TreeOf, FinalTree, Storable, OutOfRange;
  }

  lemma CompleteFrame(o: Options, log: Log, i: nat, t: Tree)
    requires Proper(log, o.absolute, Complete(i, t))
    ensures var n := Output.Apply(log, o.absolute, Complete(i, t));
            n.stores == log.stores && n.fixes == log.fixes[i := log.fixes[i].(outcome := OutcomeOf(log.fixes[i], t))]
  {
    hide StoreImage, AppliedBytes, LittleEndian, Storable, OutOfRange;
  }

  lemma CompleteOneKept(o: Options, a: Assembly, i: nat)
    requires Kept(o, a) && CompleteOne(o, a, i).Some?
    ensures var b := CompleteOne(o, a, i).value;
            Kept(o, b) && b.defs == a.defs && b.once == a.once && |b.fixups| == |a.fixups|
  {
    hide NoteOk, FixupOk, FinalTree, OutcomeOf;
    var t := FinalTree(a.defs, a.log.fixes[i].kind, a.fixups[i].tree);
    var c := a.(fixups := a.fixups[i := a.fixups[i].(done := Some(a.defs))]);
    DoAssembled(o, c, Complete(i, t), []);
    DoFrame(o, c, Complete(i, t), []);
    CompleteFrame(o, a.log, i, t);
    hide Proper, Output.Apply;
    CompletedOk(a.log.fixes[i], a.fixups[i], a.notes, a.defs, a.once);
    var b := CompleteOne(o, a, i).value;
    assert b.notes == a.notes;
    forall k | 0 <= k < |b.fixups|
      ensures FixupOk(b.log.fixes[k], b.fixups[k], b.notes, b.defs, b.once)
    {
    }
  }

  lemma {:induction false} CompleteEachKept(o: Options, a: Assembly, order: seq<nat>)
    requires Kept(o, a) && CompleteEach(o, a, order).Some?
    ensures var b := CompleteEach(o, a, order).value;
            Kept(o, b) && b.defs == a.defs && b.once == a.once && |b.fixups| == |a.fixups|
  {
    hide Kept, CompleteOne;
    if order != [] {
      var front := order[..|order| - 1];
      CompleteEachKept(o, a, front);
      CompleteOneKept(o, CompleteEach(o, a, front).value, order[|order| - 1]);
    }
  }

  lemma DefineKept(o: Options, a: Assembly, name: string, p: Place)
    requires Kept(o, a) && Define(o, a, name, p).Some?
    ensures Kept(o, Define(o, a, name, p).value)
  {
    hide Kept, CompleteEach, Released, FinalTree;
    DefsKept(o, a, name, p);
    var c := a.(defs := a.defs[name := p], once := a.once && name !in a.defs);
    var b := Settled(c, false);
    SameKept(o, c, b);
    CompleteEachKept(o, b, Released(b, name, |b.fixups|));
  }

  lemma DefineHereKept(o: Options, a: Assembly, name: string)
    requires Kept(o, a) && DefineHere(o, a, name).Some?
    ensures Kept(o, DefineHere(o, a, name).value)
  {
    hide Kept, Define, UseBlank;
    BlankKept(o, a);
    var b := UseBlank(o, a).value;
    DefineKept(o, b, name, MacroRun.Here(o, b, 0));
  }

  // ---- Statements ----

  lemma AssignKept(o: Options, a: Assembly, name: string, e: Term)
    requires Kept(o, a) && Assign(o, a, name, e).Some?
    ensures Kept(o, Assign(o, a, name, e).value)
  {
    hide Kept, Define, ReadKnown, SimpleRelocatable;
    match ReadKnown(o, a, e)
    case Some(Known(v, _)) => DefineKept(o, a, name, Absolute(v));
    case Some(Unknown(t)) =>
      var place := SimpleRelocatable(t).value;
      DefineKept(o, a, name, Relative(place.0, place.1));
    case None =>
  }

  lemma MoveKept(o: Options, a: Assembly, e: Term)
    requires Kept(o, a) && Move(o, a, e).Some?
    ensures Kept(o, Move(o, a, e).value)
  {
    hide Kept, Do, ReadKnown, SimpleRelocatable;
    match ReadKnown(o, a, e)
    case Some(Known(v, _)) => PlainKept(o, a, MoveTo(v));
    case Some(Unknown(t)) => PlainKept(o, a, MoveTo(SimpleRelocatable(t).value.1));
    case None =>
  }

  lemma BlockKept(o: Options, a: Assembly, size: word, count: Term)
    requires Kept(o, a) && Block(o, a, size, count).Some?
    ensures Kept(o, Block(o, a, size, count).value)
  {
    hide Kept, Do, ReadNumber, UseBlank;
    BlankKept(o, a);
    var n := ReadNumber(o, a, count).value;
    PlainKept(o, UseBlank(o, a).value, Skip(Wrap(n * size), n == 0));
  }

  lemma EntryKept(o: Options, a: Assembly, name: string, mask: Term)
    requires Kept(o, a) && EntryPoint(o, a, name, mask).Some?
    ensures Kept(o, EntryPoint(o, a, name, mask).value)
  {
    hide Kept, Do, ReadNumber, DefineHere;
    DefineHereKept(o, a, name);
    var b := DefineHere(o, a, name).value;
    ConstKept(o, b, Op.Const(2, ReadNumber(o, b, mask).value, EntryMask(name)));
  }

  lemma InstructionKept(o: Options, a: Assembly, opcode: seq<octet>, operands: seq<Operand>)
    requires Kept(o, a) && StoreInstruction(o, a, opcode, operands).Some?
    ensures Kept(o, StoreInstruction(o, a, opcode, operands).value)
  {
    hide Kept, UseBlank, StoreWritten, StoreOperands;
    BlankKept(o, a);
    WrittenKept(o, UseBlank(o, a).value, opcode);
    OperandsKept(o, StoreWritten(o, UseBlank(o, a).value, opcode).value, operands);
  }

  lemma BodyKept(o: Options, a: Assembly, line: Line)
    requires Kept(o, a) && Body(o, a, line).Some?
    ensures Kept(o, Body(o, a, line).value)
  {
    hide Kept, Do, DefineHere, Assign, Move, Block, StoreData, StorePointers, EntryPoint, StoreInstruction, StoreString;
    match line
    case LabelHere(name) => DefineHereKept(o, a, name);
    case AssignTo(name, e) => AssignKept(o, a, name, e);
    case InPsect(s) =>
      SameKept(o, a, a.(implicitAbs := false));
      PlainKept(o, a.(implicitAbs := false), Enter(s, false));
    case OriginAt(e) => MoveKept(o, a, e);
    case BlockOf(size, count) => BlockKept(o, a, size, count);
    case DataOf(items) => DataKept(o, a, items);
    case AddressOf(es) => AddressesKept(o, a, es);
    case EntryHere(name, mask) => EntryKept(o, a, name, mask);
    case Instruction(opcode, operands) => InstructionKept(o, a, opcode, operands);
    case _ => StringKept(o, a, line);
  }

  lemma StatementKept(o: Options, a: Assembly, line: Line)
    requires Kept(o, a) && MacroRun.Statement(o, a, line).Some?
    ensures Kept(o, MacroRun.Statement(o, a, line).value)
  {
    hide Kept, Do, Body, CompleteEach, FinalTree;
    PlainKept(o, a, Op.Statement);
    var b := Do(o, a, Op.Statement, []).value;
    BodyKept(o, b, line);
    var c := Body(o, b, line).value;
    var d := Settled(c.(ready := []), false);
    SameKept(o, c, d);
    CompleteEachKept(o, d, c.ready);
  }

  lemma BegunKept(o: Options)
    ensures Kept(o, Begun)
  {
  }

  lemma {:induction false} StatementsKept(o: Options, lines: seq<Line>)
    requires Statements(o, lines).Some?
    ensures Kept(o, Statements(o, lines).value)
  {
    hide Kept, MacroRun.Statement;
    if lines == [] {
      BegunKept(o);
    } else {
      StatementsKept(o, lines[..|lines| - 1]);
      StatementKept(o, Statements(o, lines[..|lines| - 1]).value, lines[|lines| - 1]);
    }
  }

  // ---- The end ----

  lemma {:induction false} CompleteEachDone(o: Options, a: Assembly, order: seq<nat>)
    requires CompleteEach(o, a, order).Some?
    ensures var b := CompleteEach(o, a, order).value;
            && |b.fixups| == |a.fixups|
            && forall i :: 0 <= i < |a.fixups| && (i in order || a.fixups[i].done.Some?) ==> b.fixups[i].done.Some?
  {
    hide Do, FinalTree;
    if order != [] {
      var k := |order| - 1;
      CompleteEachDone(o, a, order[..k]);
      var b := CompleteEach(o, a, order[..k]).value;
      var i := order[k];
      DoFrame(o, b.(fixups := b.fixups[i := b.fixups[i].(done := Some(b.defs))]),
              Complete(i, FinalTree(b.defs, b.log.fixes[i].kind, b.fixups[i].tree)), []);
      assert forall x :: x in order <==> x in order[..k] || x == i;
    }
  }

  /** A whole assembly keeps it, and leaves no fixup waiting. */
  lemma LinesKept(o: Options, lines: seq<Line>, order: seq<nat>)
    requires AssembledLines(o, lines, order).Some?
    ensures var b := AssembledLines(o, lines, order).value;
            Kept(o, b) && forall i :: 0 <= i < |b.fixups| ==> b.fixups[i].done.Some?
  {
    hide Kept, Statements, CompleteEach, FinalTree, Reported, StrayReported, AllExternal;
    StatementsKept(o, lines);
    var a := Statements(o, lines).value;
    var c := Settled(a, true);
    SameKept(o, a, c);
    CompleteEachKept(o, c, order);
    CompleteEachDone(o, c, order);
  }

  /** What the linker makes of a finished tree is what was read means, by the arithmetic that made it. */
  lemma TreeMeans(n: Note, t: Tree, env: Env, defs: Definitions, k: Kind)
    requires Reads(n) && TreeOf(n, t) && Agrees(env, n.early) && Agrees(env, defs)
    ensures Expressions.Value(FinalTree(defs, k, t), env, Expressions.Linker)
            == Meaning(n.e, env, n.here, Computes(t, defs, IsAddr(k)))
  {
    hide Evaluate, Meaning, Agrees;
    if t == AsTree(Evaluate(n.e, Macro, n.early, n.here).value) {
      hide FixupTree, Expressions.Value, Computes;
      FinishedMeans(n.e, n.early, n.here, defs, IsAddr(k), env);
    } else {
      KnownMeans(n, env);
    }
  }

  // ---- Every byte ----

  /** A superseded constant's field keeps what was first stored. */
  predicate GivenUp(a: Assembly, x: Output.Source) {
    x.fix.Some? && x.fix.value < |a.log.fixes| && a.log.fixes[x.fix.value].outcome.Dropped?
  }

  /** The arithmetic a store's value was found by. */
  function ArithmeticOf(a: Assembly, x: Output.Source): Machine {
    if x.fix.Some? && x.fix.value < |a.log.fixes| && x.fix.value < |a.fixups| && a.fixups[x.fix.value].done.Some? then
      var p := a.fixups[x.fix.value];
      Computes(p.tree, p.done.value, IsAddr(a.log.fixes[x.fix.value].kind))
    else Assembler
  }

  /** The byte as the source has it: of the last store to it, what was written, or what its expression means. */
  function SourceByte(a: Assembly, env: Env, p: Cell): octet {
    var j := LastStore(a.log.stores, p);
    if j < 0 || |a.notes| != |a.log.stores| then 0
    else
      var x, n := a.log.stores[j], a.notes[j];
      if n.Value? && !n.stray && !GivenUp(a, x) && p.off - x.at < KindSize(n.kind) then
        Meant(n, env, ArithmeticOf(a, x), x.sect, x.at)[p.off - x.at]
      else x.data[p.off - x.at]
  }

  lemma StoredMeans(o: Options, a: Assembly, env: Env, p: Cell)
    requires Kept(o, a) && Inv(a.log, o.absolute) && a.once && Agrees(env, a.defs) && LastStore(a.log.stores, p) >= 0
    requires forall i :: 0 <= i < |a.fixups| ==> a.fixups[i].done.Some?
    ensures LastStored(a.log, env, p) == SourceByte(a, env, p)
  {
    hide Inv, Reads, TreeOf, Sub, Right, Meaning, FinalTree, Computes, LittleEndian, Wrap, Agrees, LastStore;
    var j := LastStore(a.log.stores, p);
    var x, n := a.log.stores[j], a.notes[j];
    assert NoteOk(x, n, a.defs, a.once);
    if x.fix.Some? {
      var i := x.fix.value;
      FixOfStore(a.log, o.absolute, j);
      HomeOfStore(a.log, o.absolute, j);
      assert FixupOk(a.log.fixes[i], a.fixups[i], a.notes, a.defs, a.once);
      if !GivenUp(a, x) {
        SubAgrees(env, n.early, a.defs);
        SubAgrees(env, a.fixups[i].done.value, a.defs);
        TreeMeans(n, a.fixups[i].tree, env, a.fixups[i].done.value, n.kind);
      }
    } else if n.Value? && !n.stray {
      SubAgrees(env, n.early, a.defs);
      RightNow(x, n, env);
    }
  }

  lemma RightNow(x: Output.Source, n: Note, env: Env)
    requires n.Value? && Right(x, n) && Agrees(env, n.early)
    ensures x.data == Meant(n, env, Assembler, x.sect, x.at)
  {
    hide Meant;
  }

  lemma HomeOfStore(log: Log, absolute: set<nat>, j: nat)
    requires Inv(log, absolute) && j < |log.stores| && log.stores[j].fix.Some?
    ensures log.stores[j].fix.value < |log.fixes| && log.fixes[log.stores[j].fix.value].home == j
  {
    hide FieldsApart, Alive, EventIs, ImageHolds, EventOk, EventHolds, History, DataHistory, Ordered, FixOk;
    assert StoreOk(log, absolute, j);
  }

  /**
   * For every MACRO source that assembles, whatever order its last fixups are finished in, and every link of it that
   * reports no error, puts its psects apart and gives its symbols the values they were defined with: each byte is what
   * the last store to it in the source means.
   */
  lemma LinkedSource(o: Options, lines: seq<Line>, order: seq<nat>, a: Assembly, S: Setting, st: State, p: Cell)
    requires AssembledLines(o, lines, order) == Some(a) && a.once && Agrees(S.env, a.defs)
    requires S.log == a.log && S.absolute == o.absolute && 0 in o.absolute && Placed(S) && AllocatesReached(S)
    requires st.stack == []
    requires Run(Object(S.log, S.absolute).commands, S.env, st).Some? && LastStore(a.log.stores, p) >= 0
    ensures 0 <= Address(S.env, p) < TWO32
    ensures var r := Run(Object(S.log, S.absolute).commands, S.env, st).value;
            At(r.mem, Address(S.env, p)) == SourceByte(a, S.env, p)
  {
    hide AssembledLines, Kept, Inv, Placed, AllocatesReached, Run, Object, LastStored, SourceByte, InStepAfter, At,
      Output.Assembled;
    LinesKept(o, lines, order);
    KeptLog(o, a);
    AssembledKeeps(a.ops, o.absolute);
    ReplayIsFaithful(a.ops, S, st);
    StoredMeans(o, a, S.env, p);
  }

  lemma NumberRead(o: Options, a: Assembly, v: word)
    ensures ReadKnown(o, a, Number(v)) == Some(Known(v, None)) && ReadNumber(o, a, Number(v)) == Some(v)
  {
  }

  lemma KeptLog(o: Options, a: Assembly)
    requires Kept(o, a)
    ensures Output.Assembled(a.ops, o.absolute) == Some(a.log)
  {
  }
}
