/**
 What backpatching computes: a fixup's tree means what its field's expression means, and once its last symbol is defined
 the value stored for it is the one the complete symbol table gives the field.
 */
module Backpatch {
  import opened Words
  import opened Expressions
  import opened TwoPass
  import opened OnePass
  import opened ForwardLists

  /** No store runs round the top of the address space, and each symbol is defined once. */
  ghost predicate Clean(lay: Layout) {
    NoWrap(lay.log) && DefinedOnce(lay.equations)
  }

  // ---- The trees of the console dialect ----

  /** A tree the console dialect leaves: symbols added, subtracted, negated, and multiplied by constants. */
  predicate Linear(t: Tree) {
    match t
    case Const(_) => true
    case Sym(_) => true
    case Neg(l) => Linear(l)
    case Binary(op, l, r) => (op == Add || op == Sub || op == Mul) && Linear(l) && Linear(r)
    case _ => false
  }

  ghost predicate AllAbsolute(defs: Definitions) {
    forall key :: key in defs ==> defs[key].Absolute?
  }

  /** A value being read in the console dialect: a constant with no shape, or a linear tree with a symbol in it. */
  predicate ConsoleValue(x: ExprVal) {
    match x
    case Known(_, shape) => shape == None
    case Unknown(t) => Linear(t) && HasSymbols(t)
  }

  lemma {:induction false} ReadIsConsoleValue(e: Term, defs: Definitions, here: word)
    requires AllAbsolute(defs)
    requires Evaluate(e, Console, defs, Absolute(here)).Ok?
    ensures ConsoleValue(Evaluate(e, Console, defs, Absolute(here)).value)
  {
    match e
    case Minus(f) => ReadIsConsoleValue(f, defs, here);
    case Not(f) => ReadIsConsoleValue(f, defs, here);
    case Infix(op, l, r) =>
      ReadIsConsoleValue(l, defs, here);
      ReadIsConsoleValue(r, defs, here);
      InfixIsConsoleValue(op, Evaluate(l, Console, defs, Absolute(here)).value,
                          Evaluate(r, Console, defs, Absolute(here)).value);
    case _ =>
  }

  lemma InfixIsConsoleValue(op: Operator, x1: ExprVal, x2: ExprVal)
    requires ConsoleValue(x1) && ConsoleValue(x2) && BinaryVal(Console, op, x1, x2).Ok?
    ensures ConsoleValue(BinaryVal(Console, op, x1, x2).value)
  {
    hide Apply;
    assert Linear(AsTree(x1)) && Linear(AsTree(x2));
  }

  lemma {:induction false} HasSymbolsLeaf(t: Tree)
    ensures HasSymbols(t) <==> Leaves(t) != []
  {
    match t
    case Neg(l) => HasSymbolsLeaf(l);
    case Com(l) => HasSymbolsLeaf(l);
    case Binary(_, l, r) => HasSymbolsLeaf(l); HasSymbolsLeaf(r);
    case _ =>
  }

  lemma {:induction false} LinearSubstituted(t: Tree, defs: Definitions)
    requires Linear(t) && AllAbsolute(defs)
    requires forall key :: key in LeafSet(t) ==> key in defs
    ensures IsConstant(Substituted(t, defs)) && !DividesByZero(Substituted(t, defs))
  {
    match t
    case Neg(l) =>
      assert LeafSet(l) == LeafSet(t);
      LinearSubstituted(l, defs);
    case Binary(_, l, r) =>
      assert forall key :: key in LeafSet(l) || key in LeafSet(r) ==> key in LeafSet(t);
      LinearSubstituted(l, defs);
      LinearSubstituted(r, defs);
    case Sym(key) => assert key in LeafSet(t);
    case _ =>
  }

  /** Once its symbols are all defined a linear tree is a constant, and the right one. */
  lemma LinearResolves(t: Tree, defs: Definitions, env: Env)
    requires Linear(t) && AllAbsolute(defs) && Agrees(env, defs)
    requires forall key :: key in LeafSet(t) ==> key in defs
    ensures Resolved(t, defs) == Const(Value(t, env, Assembler))
  {
    LinearSubstituted(t, defs);
    ResolvedKeepsValue(t, defs, env, Assembler);
  }

  // ---- Fixups and their fields ----

  ghost predicate HomeMatches(f: Fixup, s: Stored) {
    s.Field? && s.stmt == f.stmt && s.at == f.at && s.kind == f.kind && s.base == f.base && s.waits == LeafSet(f.expr)
  }

  /** Each fixup was left by one field, and no two by the same. */
  ghost predicate Homes(a: Asm) {
    && |a.home| == |a.fixups|
    && (forall j :: 0 <= j < |a.home| ==> a.home[j] < |a.lay.log| && HomeMatches(a.fixups[j], a.lay.log[a.home[j]]))
    && (forall i, j :: 0 <= i < j < |a.home| ==> a.home[i] < a.home[j])
  }

  ghost function MeaningAt(s: Stored, env: Env): word
    requires s.Field?
  {
    Meaning(s.e, env, Absolute(s.here), Assembler)
  }

  /** Each fixup's tree means what its field's expression means. */
  ghost predicate Means(a: Asm, env: Env)
    requires Homes(a)
  {
    forall j :: 0 <= j < |a.fixups| ==>
      Linear(a.fixups[j].expr) && Value(a.fixups[j].expr, env, Assembler) == MeaningAt(a.lay.log[a.home[j]], env)
  }

  // ---- A store ----

  lemma LastStoreAppend(log: seq<Stored>, s: Stored, p: word)
    ensures LastStore(log + [s], p) == if Covers(s, p) then |log| else LastStore(log, p)
  {
    assert (log + [s])[..|log|] == log;
  }

  lemma {:induction false} ClaimHistory(owners: Owners, lo: word, hi: word, stmt: nat, q: word)
    ensures History(Claim(owners, lo, hi, stmt), q)
            == if lo <= q < hi then History(owners, q) + [stmt] else History(owners, q)
    decreases hi - lo
  {
    if lo < hi {
      ClaimHistory(owners[lo := History(owners, lo) + [stmt]], lo + 1, hi, stmt, q);
    }
  }

  lemma StoreHistory(a: Asm, s: Stored, data: seq<octet>, q: word)
    ensures History(StoreBytes(a, s, data).owners, q)
            == if Offset(a) <= q < Wrap(Offset(a) + |data|) then History(a.owners, q) + [a.lay.stmt]
               else History(a.owners, q)
  {
    ClaimHistory(a.owners, Offset(a), Wrap(Offset(a) + |data|), a.lay.stmt, q);
  }

  lemma StoreLog(a: Asm, s: Stored, data: seq<octet>)
    ensures var b := StoreBytes(a, s, data);
            b.lay.log == a.lay.log + [s] && b.home == a.home && |b.fixups| == |a.fixups| && b.base == a.base
            && b.lay.stmt == a.lay.stmt && b.lay.equations == a.lay.equations
  {
  }

  /** A store changes a fixup only by superseding it. */
  lemma StoreFixup(a: Asm, s: Stored, data: seq<octet>, j: nat)
    requires j < |a.fixups|
    ensures var g := StoreBytes(a, s, data).fixups[j];
            g == a.fixups[j].(dead := g.dead) && (a.fixups[j].dead ==> g.dead)
            && (a.fixups[j].pending == 0 ==> g == a.fixups[j])
  {
  }

  lemma StoreHomes(a: Asm, s: Stored, data: seq<octet>)
    requires Homes(a)
    ensures Homes(StoreBytes(a, s, data))
  {
    var b := StoreBytes(a, s, data);
    forall j | 0 <= j < |b.home|
      ensures b.home[j] < |b.lay.log| && HomeMatches(b.fixups[j], b.lay.log[b.home[j]])
    {
      StoreFixup(a, s, data, j);
    }
  }

  lemma StoreMeans(a: Asm, s: Stored, data: seq<octet>, env: Env)
    requires Homes(a) && Means(a, env)
    ensures Homes(StoreBytes(a, s, data)) && Means(StoreBytes(a, s, data), env)
  {
    hide StoreBytes;
    var b := StoreBytes(a, s, data);
    StoreHomes(a, s, data);
    StoreLog(a, s, data);
    forall j | 0 <= j < |b.fixups|
      ensures Linear(b.fixups[j].expr)
      ensures Value(b.fixups[j].expr, env, Assembler) == MeaningAt(b.lay.log[b.home[j]], env)
    {
      StoreFixup(a, s, data, j);
    }
  }

  lemma StoreByte(a: Asm, s: Stored, data: seq<octet>, p: word)
    requires s.at == a.lay.pc && |data| == StoredSize(s) && a.lay.pc + |data| < TWO32
    ensures At(StoreBytes(a, s, data).image, p) == if Covers(s, p) then data[p - s.at] else At(a.image, p)
  {
    WriteAt(a.image, a.lay.pc, data, p);
  }

  // ---- A fixup queued for the store just made ----

  /** f stands for the store s just made, whose symbols are not all defined. */
  ghost predicate StandsFor(a: Asm, f: Fixup, s: Stored, env: Env) {
    && |a.lay.log| > 0 && a.lay.log[|a.lay.log| - 1] == s
    && HomeMatches(f, s) && !f.dead && Linear(f.expr) && HasSymbols(f.expr)
    && Value(f.expr, env, Assembler) == MeaningAt(s, env)
    && (forall j :: 0 <= j < |a.home| ==> a.home[j] < |a.lay.log| - 1)
  }

  lemma QueueFrame(a: Asm, f: Fixup)
    ensures var b := QueueFixup(a, f);
            && b.lay.log == a.lay.log && b.image == a.image && b.owners == a.owners && b.base == a.base
            && b.lay.stmt == a.lay.stmt && b.lay.pc == a.lay.pc && b.lay.equations == a.lay.equations
            && b.lay.defs == a.lay.defs
            && b.home == a.home + [Max(|a.lay.log| - 1)]
            && |b.fixups| == |a.fixups| + 1
            && (forall j :: 0 <= j < |a.fixups| ==> b.fixups[j] == a.fixups[j])
            && b.fixups[|a.fixups|] == f.(pending := b.fixups[|a.fixups|].pending)
  {
  }

  lemma QueueHomes(a: Asm, f: Fixup, s: Stored, env: Env)
    requires Homes(a) && Means(a, env) && StandsFor(a, f, s, env)
    ensures var b := QueueFixup(a, f); Homes(b) && Means(b, env)
  {
    QueueFrame(a, f);
    hide QueueFixup, Linear, HasSymbols, Value, MeaningAt;
    var b := QueueFixup(a, f);
    forall j | 0 <= j < |b.home|
      ensures b.home[j] < |b.lay.log| && HomeMatches(b.fixups[j], b.lay.log[b.home[j]])
    {
    }
  }

  /** x was read from e with "." at here, by this state's symbol table. */
  ghost predicate ReadFrom(a: Asm, x: ExprVal, e: Term, here: word, env: Env) {
    && ConsoleValue(x)
    && Value(AsTree(x), env, Assembler) == Meaning(e, env, Absolute(here), Assembler)
    && forall key :: key in Waits(x) ==> key !in a.lay.defs
  }

  lemma ReadIsReadFrom(a: Asm, e: Term, env: Env)
    requires TablesAgree(a) && Agrees(env, a.lay.defs) && Read(a.lay, e, a.lay.pc).Ok?
    ensures ReadFrom(a, Read(a.lay, e, a.lay.pc).value, e, a.lay.pc, env)
  {
    hide Value, Meaning;
    ReadIsConsoleValue(e, a.lay.defs, a.lay.pc);
    EvaluateKeepsMeaning(e, Console, a.lay.defs, Absolute(a.lay.pc), env);
    EvaluateLeaves(e, Console, a.lay.defs, Absolute(a.lay.pc));
  }

  // ---- Layouts only grow ----

  ghost predicate Extends(lay: Layout, next: Layout) {
    lay.log <= next.log && lay.equations <= next.equations
  }

  lemma CleanEarlier(lay: Layout, next: Layout)
    requires Extends(lay, next) && Clean(next)
    ensures Clean(lay)
  {
    assert forall i :: 0 <= i < |lay.log| ==> lay.log[i] == next.log[i];
    assert forall i :: 0 <= i < |lay.equations| ==> lay.equations[i] == next.equations[i];
  }

  lemma FieldExtends(lay: Layout, kind: FieldKind, x: ExprVal, e: Term, here: word, ph: word)
    ensures Extends(lay, LayField(lay, kind, x, e, here, ph))
    ensures LayField(lay, kind, x, e, here, ph).defs == lay.defs
  {
  }

  lemma {:induction false} CopiesExtend(lay: Layout, kind: FieldKind, x: ExprVal, e: Term, here: word, ph: word,
                                        count: nat)
    ensures Extends(lay, LayCopies(lay, kind, x, e, here, ph, count))
    ensures LayCopies(lay, kind, x, e, here, ph, count).defs == lay.defs
  {
    if count > 0 {
      hide LayField;
      CopiesExtend(lay, kind, x, e, here, ph, count - 1);
      FieldExtends(LayCopies(lay, kind, x, e, here, ph, count - 1), kind, x, e, here, ph);
    }
  }

  lemma ValueExtends(lay: Layout, item: Item, x: ExprVal)
    ensures Extends(lay, LayValue(lay, item, x))
    ensures LayValue(lay, item, x).defs == lay.defs
  {
    hide LayCopies;
    if item.Data? {
      CopiesExtend(lay, Address(item.w), x, item.e, lay.pc, Placeholder(AsTree(x)), item.count);
    }
  }

  lemma ItemExtends(lay: Layout, item: Item)
    ensures Extends(lay, LayItem(lay, item))
    ensures LayItem(lay, item).defs == lay.defs
  {
    hide LayValue, Read;
    if Read(lay, ItemTerm(item), lay.pc).Ok? {
      ValueExtends(lay, item, Read(lay, ItemTerm(item), lay.pc).value);
    }
  }

  lemma {:induction false} ItemsExtend(lay: Layout, items: seq<Item>)
    ensures Extends(lay, LayItems(lay, items))
    ensures LayItems(lay, items).defs == lay.defs
  {
    if items != [] {
      hide LayItem;
      ItemsExtend(lay, items[..|items| - 1]);
      ItemExtends(LayItems(lay, items[..|items| - 1]), items[|items| - 1]);
    }
  }

  lemma {:induction false} CopiesBase(a: Asm, kind: FieldKind, x: ExprVal, e: Term, here: word, ph: word, count: nat)
    ensures StoreCopies(a, kind, x, e, here, ph, count).base == a.base
  {
    if count > 0 {
      CopiesBase(a, kind, x, e, here, ph, count - 1);
    }
  }

  lemma ItemBase(a: Asm, item: Item)
    requires StepItem(a, item).Some?
    ensures StepItem(a, item).value.base == a.base
  {
    hide Read, StoreCopies;
    if item.Data? {
      var x := Read(a.lay, ItemTerm(item), a.lay.pc).value;
      CopiesBase(a, Address(item.w), x, item.e, a.lay.pc, Placeholder(AsTree(x)), item.count);
    }
  }

  // ---- Definitions ----

  /** Fixup i has been told of its last symbol. */
  lemma CompletedRight(a: Asm, i: nat, env: Env)
    requires TablesAgree(a) && ListsComplete(a) && Homes(a) && Means(a, env) && Agrees(env, a.lay.defs)
    requires i < |a.fixups| && Awaited(a, i) == {}
    ensures Resolved(a.fixups[i].expr, a.lay.defs) == Const(MeaningAt(a.lay.log[a.home[i]], env))
  {
    hide Value, Resolved, MeaningAt, Linear;
    var t := a.fixups[i].expr;
    assert Linear(t) && Value(t, env, Assembler) == MeaningAt(a.lay.log[a.home[i]], env);
    forall key | key in LeafSet(t)
      ensures key in a.lay.defs
    {
      assert key !in Awaited(a, i);
    }
    LinearResolves(t, a.lay.defs, env);
  }

  lemma CompleteFixupIs(a: Asm, i: nat, v: word)
    requires i < |a.fixups| && Resolved(a.fixups[i].expr, a.lay.defs) == Const(v) && CompleteFixup(a, i).Some?
    ensures var f := a.fixups[i];
            CompleteFixup(a, i).value
            == if f.dead then a else a.(image := Write(a.image, f.at, FieldBytes(f.kind, f.at, f.base, v)))
  {
  }

  /** Telling fixup i of a symbol, and completing it if that was its last. */
  function Tell(a: Asm, i: nat): Option<Asm>
    requires i < |a.fixups|
  {
    var b := Decrement(a, i);
    if b.fixups[i].pending > 0 then Some(b) else CompleteFixup(b, i)
  }

  lemma DecrementFrame(a: Asm, i: nat)
    requires i < |a.fixups|
    ensures var b := Decrement(a, i);
            && b.lay == a.lay && b.symbols == a.symbols && b.image == a.image && b.owners == a.owners
            && b.base == a.base
            && b.home == a.home && |b.fixups| == |a.fixups|
            && (forall j :: 0 <= j < |a.fixups| && j != i ==> b.fixups[j] == a.fixups[j])
            && b.fixups[i] == a.fixups[i].(pending := b.fixups[i].pending)
  {
  }

  lemma TellKeepsLists(a: Asm, ws: seq<nat>)
    requires TablesAgree(a) && ListsSound(a) && ListsComplete(a)
    requires ws != [] && Told(a, ws) && Counted(a, ws) && Tell(a, ws[0]).Some?
    ensures var c := Tell(a, ws[0]).value;
            && TablesAgree(c) && ListsSound(c) && ListsComplete(c) && Told(c, ws[1..]) && Counted(c, ws[1..])
            && c.lay == a.lay && c.base == a.base
  {
    var b := Decrement(a, ws[0]);
    hide TablesAgree, ListsSound, ListsComplete, Counted, CompleteFixup;
    DecrementCounts(a, ws);
    DecrementKeepsLists(a, ws[0]);
    if b.fixups[ws[0]].pending == 0 {
      var c := CompleteFixup(b, ws[0]).value;
      CompleteFixupFrame(b, ws[0]);
      ImageKeepsLists(b, c);
      CountedFrame(b, c, ws[1..]);
    }
  }

  /** Complete tells the fixups one after another. */
  lemma CompleteTells(a: Asm, ws: seq<nat>)
    requires ws != [] && forall k :: 0 <= k < |ws| ==> ws[k] < |a.fixups|
    ensures Tell(a, ws[0]).None? ==> Complete(a, ws).None?
    ensures Tell(a, ws[0]).Some? ==>
              (forall k :: 0 <= k < |ws[1..]| ==> ws[1..][k] < |Tell(a, ws[0]).value.fixups|)
              && Complete(a, ws) == Complete(Tell(a, ws[0]).value, ws[1..])
  {
  }

  // ---- Statements ----

  /** Every defined symbol has an equation. */
  ghost predicate Tabled(lay: Layout) {
    forall key :: key in lay.defs ==> exists i :: 0 <= i < |lay.equations| && lay.equations[i].name == key
  }

  lemma DefineTabled(lay: Layout, name: string, v: word, e: Term)
    requires Tabled(lay)
    ensures Tabled(LayDefine(lay, name, v, e))
    ensures DefinedOnce(LayDefine(lay, name, v, e).equations) ==> name !in lay.defs
  {
    var next := LayDefine(lay, name, v, e);
    assert next.equations[|lay.equations|].name == name;
    forall key | key in next.defs
      ensures exists i :: 0 <= i < |next.equations| && next.equations[i].name == key
    {
      if key != name {
        var i :| 0 <= i < |lay.equations| && lay.equations[i].name == key;
        assert next.equations[i] == lay.equations[i];
      }
    }
    if name in lay.defs {
      var i :| 0 <= i < |lay.equations| && lay.equations[i].name == name;
      assert next.equations[i].name == next.equations[|lay.equations|].name;
    }
  }

  ghost predicate DefsGrow(lay: Layout, next: Layout) {
    forall key :: key in lay.defs ==> key in next.defs && next.defs[key] == lay.defs[key]
  }

  lemma StatementExtends(lay: Layout, s: Statement)
    requires Tabled(lay)
    ensures var next := LayStatement(lay, s);
            Extends(lay, next) && Tabled(next) && (DefinedOnce(next.equations) ==> DefsGrow(lay, next))
  {
    var lay1 := lay.(stmt := lay.stmt + 1);
    hide LayItems, ReadNow, DefinedOnce;
    match s
    case Label(name) => DefineTabled(lay1, name, lay1.pc, Here);
    case Assign(name, e) =>
      if ReadNow(lay1, e).Some? {
        DefineTabled(lay1, name, ReadNow(lay1, e).value, e);
      }
    case Origin(_) =>
    case Store(isCase, items) =>
      ItemsExtend(LayCaseBase(lay1, isCase), items);
      ItemsEquations(LayCaseBase(lay1, isCase), items);
  }

  lemma {:induction false} CopiesEquations(lay: Layout, kind: FieldKind, x: ExprVal, e: Term, here: word, ph: word,
                                           count: nat)
    ensures LayCopies(lay, kind, x, e, here, ph, count).equations == lay.equations
  {
    if count > 0 {
      CopiesEquations(lay, kind, x, e, here, ph, count - 1);
    }
  }

  lemma ItemEquations(lay: Layout, item: Item)
    ensures LayItem(lay, item).equations == lay.equations
  {
    hide Read, LayCopies;
    if item.Data? && Read(lay, item.e, lay.pc).Ok? {
      var x := Read(lay, item.e, lay.pc).value;
      CopiesEquations(lay, Address(item.w), x, item.e, lay.pc, Placeholder(AsTree(x)), item.count);
    }
  }

  lemma {:induction false} ItemsEquations(lay: Layout, items: seq<Item>)
    ensures LayItems(lay, items).equations == lay.equations
  {
    if items != [] {
      hide LayItem;
      ItemsEquations(lay, items[..|items| - 1]);
      ItemEquations(LayItems(lay, items[..|items| - 1]), items[|items| - 1]);
    }
  }

  lemma {:induction false} RunTabled(program: seq<Statement>, start: word)
    ensures Tabled(PassOne(program, start))
  {
    if program != [] {
      hide LayStatement;
      RunTabled(program[..|program| - 1], start);
      StatementExtends(PassOne(program[..|program| - 1], start), program[|program| - 1]);
    }
  }

  lemma EarlierLayout(lay: Layout, s: Statement, env: Env)
    requires Tabled(lay)
    requires var next := LayStatement(lay, s); Clean(next) && Agrees(env, next.defs)
    ensures Clean(lay) && Agrees(env, lay.defs)
  {
    hide LayStatement;
    StatementExtends(lay, s);
    CleanEarlier(lay, LayStatement(lay, s));
  }

  lemma TableAgrees(defs: Definitions)
    requires AllAbsolute(defs)
    ensures Agrees(TableEnv(defs), defs)
  {
  }
}
