/**
 One pass with backpatching, as functions on the assembler's state: symbols with lists of the fixups waiting on them,
 fixups counting the symbols they wait on, the image, and who stored each byte. The class Assembler does the same
 steps in place; the theorems about every run are proved here.
 */
module OnePass {
  import opened Words
  import opened Expressions
  import opened TwoPass

  /** forward lists the fixups waiting on the symbol, most recent first; it is empty once the symbol is defined. */
  datatype Symbol = Symbol(value: word, forward: seq<nat>)

  type Symbols = map<string, Symbol>

  datatype Fixup = Fixup(at: word, kind: FieldKind, base: word, expr: Tree, pending: nat, stmt: nat, dead: bool)

  /** The statements that stored each byte, by its offset in the section, oldest first. */
  type Owners = map<word, seq<nat>>

  /** home says which store of lay.log left each fixup. */
  datatype Asm = Asm(
    base: word, lay: Layout, symbols: Symbols, fixups: seq<Fixup>, image: Memory, owners: Owners, home: seq<nat>)

  // ---- Stores (section.go, overwrite.go) ----

  function History(owners: Owners, p: word): seq<nat> {
    if p in owners then owners[p] else []
  }

  function Claim(owners: Owners, lo: word, hi: word, stmt: nat): Owners
    decreases hi - lo
  {
    if lo >= hi then owners else Claim(owners[lo := History(owners, lo) + [stmt]], lo + 1, hi, stmt)
  }

  /** Another statement stored this byte last. */
  predicate OwnedByOther(owners: Owners, p: word, stmt: nat) {
    var history := History(owners, p);
    history != [] && history[|history| - 1] != stmt
  }

  predicate Overwrites(owners: Owners, lo: word, hi: word, stmt: nat) {
    exists p: word | lo <= p < hi :: OwnedByOther(owners, p, stmt)
  }

  predicate Overlaps(f: Fixup, lo: word, hi: word, stmt: nat) {
    f.stmt != stmt && f.at < hi && Wrap(f.at + FieldSize(f.kind)) > lo
  }

  function Superseded(f: Fixup, lo: word, hi: word, stmt: nat): Fixup {
    f.(dead := f.dead || (f.pending > 0 && Overlaps(f, lo, hi, stmt)))
  }

  function Supersede(fixups: seq<Fixup>, lo: word, hi: word, stmt: nat): (r: seq<Fixup>)
    ensures |r| == |fixups|
    ensures forall i :: 0 <= i < |fixups| ==> r[i] == Superseded(fixups[i], lo, hi, stmt)
  {
    seq(|fixups|, i requires 0 <= i < |fixups| => Superseded(fixups[i], lo, hi, stmt))
  }

  function Offset(a: Asm): word {
    Wrap(a.lay.pc - a.base)
  }

  ghost function StoreBytes(a: Asm, s: Stored, data: seq<octet>): Asm {
    var lo := Offset(a);
    var hi := Wrap(lo + |data|);
    a.(lay := LayStore(a.lay, s),
       image := Write(a.image, a.lay.pc, data),
       owners := Claim(a.owners, lo, hi, a.lay.stmt),
       fixups := if Overwrites(a.owners, lo, hi, a.lay.stmt) then Supersede(a.fixups, lo, hi, a.lay.stmt) else a.fixups)
  }

  ghost function StoreLiteral(a: Asm, data: seq<octet>): Asm {
    StoreBytes(a, Literal(a.lay.stmt, a.lay.pc, data), data)
  }

  // ---- Fixups (symbol.go) ----

  function WaitersOn(symbols: Symbols, key: string): seq<nat> {
    if key in symbols then symbols[key].forward else []
  }

  /** Hangs fixup i on each symbol in keys, once each, creating the symbols not met before; how many it waits on. */
  function Attach(symbols: Symbols, keys: seq<string>, i: nat): (Symbols, nat)
    decreases |keys|
  {
    if keys == [] then (symbols, 0)
    else
      var sym := if keys[0] in symbols then symbols[keys[0]] else Symbol(0, []);
      if sym.forward == [] || sym.forward[0] != i then
        var (rest, n) := Attach(symbols[keys[0] := sym.(forward := [i] + sym.forward)], keys[1..], i);
        (rest, n + 1)
      else Attach(symbols, keys[1..], i)
  }

  ghost function QueueFixup(a: Asm, f: Fixup): Asm {
    var (symbols, n) := Attach(a.symbols, Leaves(f.expr), |a.fixups|);
    a.(symbols := symbols, fixups := a.fixups + [f.(pending := n)], home := a.home + [Max(|a.lay.log| - 1)],
       lay := a.lay.(waiting := a.lay.waiting + LeafSet(f.expr)))
  }

  function Max(n: int): nat {
    if n < 0 then 0 else n
  }

  ghost function StoreField(a: Asm, kind: FieldKind, x: ExprVal, e: Term, here: word, ph: word): Asm {
    var s := FieldAt(a.lay, kind, x, e, here, ph);
    match x
    case Known(v, _) => StoreBytes(a, s, FieldBytes(kind, a.lay.pc, a.lay.caseBase, v))
    case Unknown(t) =>
      QueueFixup(StoreBytes(a, s, LittleEndian(ph, FieldSize(kind))),
                 Fixup(a.lay.pc, kind, a.lay.caseBase, t, 0, a.lay.stmt, false))
  }

  ghost function StoreCopies(a: Asm, kind: FieldKind, x: ExprVal, e: Term, here: word, ph: word, count: nat): Asm {
    if count == 0 then a
    else StoreField(StoreCopies(a, kind, x, e, here, ph, count - 1), kind, x, e, here, ph)
  }

  /** applyFixup's range checks. A displacement is checked without wrapping round the address space. */
  predicate FixupFits(kind: FieldKind, at: word, base: word, v: word) {
    match kind
    case CaseField => FitsSigned(Signed(Wrap(v - base)), Word)
    case Address(Byte) => -0x80 <= Signed(v) <= 0xFF
    case Address(Word) => -0x8000 <= Signed(v) <= 0xFFFF
    case Address(Long) => true
    case _ => kind.w == Long || FitsSigned(v - at - FieldSize(kind), kind.w)
  }

  /** completeFixup, in an absolute section: every tree there has become a constant (CompletedIsConstant). */
  function CompleteFixup(a: Asm, i: nat): Option<Asm>
    requires i < |a.fixups|
  {
    var f := a.fixups[i];
    match Resolved(f.expr, a.lay.defs)
    case Const(v) =>
      if f.dead then Some(a)
      else if !FixupFits(f.kind, f.at, f.base, v) then None
      else Some(a.(image := Write(a.image, f.at, FieldBytes(f.kind, f.at, f.base, v))))
    case _ => None
  }

  /** The definition of a symbol the fixups ws waited on: each waits on one symbol fewer, and is completed if
      that was its last. */
  function Complete(a: Asm, ws: seq<nat>): Option<Asm>
    requires forall k :: 0 <= k < |ws| ==> ws[k] < |a.fixups|
    decreases |ws|
  {
    if ws == [] then Some(a)
    else
      var a1 := Decrement(a, ws[0]);
      if a1.fixups[ws[0]].pending > 0 then Complete(a1, ws[1..])
      else
        match CompleteFixup(a1, ws[0])
        case None => None
        case Some(a2) => Complete(a2, ws[1..])
  }

  function Decrement(a: Asm, i: nat): Asm
    requires i < |a.fixups|
  {
    a.(fixups := a.fixups[i := a.fixups[i].(pending := Max(a.fixups[i].pending - 1))])
  }

  function SetSymbol(a: Asm, name: string, v: word, e: Term): Asm {
    a.(symbols := a.symbols[name := Symbol(v, [])], lay := LayDefine(a.lay, name, v, e))
  }

  ghost predicate ForwardInRange(a: Asm) {
    forall key, k :: key in a.symbols && 0 <= k < |a.symbols[key].forward| ==> a.symbols[key].forward[k] < |a.fixups|
  }

  ghost function Define(a: Asm, name: string, v: word, e: Term): Option<Asm> {
    if ForwardInRange(a) then Complete(SetSymbol(a, name, v, e), WaitersOn(a.symbols, name)) else None
  }

  // ---- Statements ----

  /** The range check on a value known when it is read. A branch is not checked: it is stored truncated. */
  predicate ReadFits(pc: word, caseBase: word, item: Item, v: word) {
    match item
    case Data(Byte, _, _) => -0x80 <= Signed(v) <= 0xFF
    case Data(Word, _, _) => -0x8000 <= Signed(v) <= 0xFFFF
    case CaseEntry(_) => FitsSigned(Signed(Wrap(v - caseBase)), Word)
    case Relative(_, Some(w), _) => FitsSigned(Signed(DisplacementTo(v, Wrap(pc + 1), w)), w)
    case Register(_, _, Some(w), _) =>
      FitsSigned(Signed(v), w) || (w == Byte && v < 0x100) || (w == Word && v < 0x1_0000)
    case _ => true
  }

  ghost function StoreValue(a: Asm, item: Item, x: ExprVal): Asm {
    match item
    case Raw(data) => StoreLiteral(a, data)
    case Data(w, e, count) => StoreCopies(a, Address(w), x, e, a.lay.pc, Placeholder(AsTree(x)), count)
    case Branch(w, e) =>
      StoreField(a, BranchField(w), x, e, a.lay.pc, Wrap(Placeholder(AsTree(x)) - a.lay.pc - Bytes(w)))
    case CaseEntry(e) => StoreField(a, CaseField, x, e, a.lay.pc, 0)
    case Relative(deferred, size, e) =>
      var w := RelativeSize(x, size, Wrap(a.lay.pc + 1));
      StoreField(StoreLiteral(a, [ModeByte(w, deferred, 15)]), Displacement(w), x, e, a.lay.pc, 0)
    case Register(deferred, reg, size, e) =>
      var w := RegisterSize(x, size);
      StoreField(StoreLiteral(a, [ModeByte(w, deferred, reg)]), Address(w), x, e, a.lay.pc, 0)
  }

  ghost function StepItem(a: Asm, item: Item): Option<Asm> {
    match Read(a.lay, ItemTerm(item), a.lay.pc)
    case Ok(x) => if x.Known? && !ReadFits(a.lay.pc, a.lay.caseBase, item, x.v) then None
      else Some(StoreValue(a, item, x))
    case Err(_) => None
  }

  ghost function StepItems(a: Asm, items: seq<Item>): Option<Asm> {
    if items == [] then Some(a)
    else
      match StepItems(a, items[..|items| - 1])
      case None => None
      case Some(a1) => StepItem(a1, items[|items| - 1])
  }

  function NextStatement(a: Asm): Asm {
    a.(lay := a.lay.(stmt := a.lay.stmt + 1))
  }

  ghost function StepStatement(a0: Asm, s: Statement): Option<Asm> {
    var a := NextStatement(a0);
    match s
    case Label(name) => if name in a.lay.defs then None else Define(a, name, a.lay.pc, Here)
    case Assign(name, e) =>
      (match ReadNow(a.lay, e) case Some(v) => Define(a, name, v, e) case None => None)
    case Origin(e) =>
      (match ReadNow(a.lay, e) case Some(v) => Some(a.(lay := a.lay.(pc := v))) case None => None)
    case Store(isCase, items) => StepItems(a.(lay := LayCaseBase(a.lay, isCase)), items)
  }

  function Start(base: word, start: word): Asm {
    Asm(base, Layout(start, 0, 0, map[], {}, [], []), map[], [], map[], map[], [])
  }

  /** The state after program, or None where the assembler reports an error. */
  ghost function Assemble(program: seq<Statement>, base: word, start: word): Option<Asm> {
    if program == [] then Some(Start(base, start))
    else
      match Assemble(program[..|program| - 1], base, start)
      case None => None
      case Some(a) => StepStatement(a, program[|program| - 1])
  }

  // ---- The layout of a run is pass one's ----

  lemma {:induction false} CopiesLayout(a: Asm, kind: FieldKind, x: ExprVal, e: Term, here: word, ph: word, count: nat)
    ensures StoreCopies(a, kind, x, e, here, ph, count).lay == LayCopies(a.lay, kind, x, e, here, ph, count)
  {
    if count > 0 {
      CopiesLayout(a, kind, x, e, here, ph, count - 1);
      FieldLayout(StoreCopies(a, kind, x, e, here, ph, count - 1), kind, x, e, here, ph);
    }
  }

  lemma FieldLayout(a: Asm, kind: FieldKind, x: ExprVal, e: Term, here: word, ph: word)
    ensures StoreField(a, kind, x, e, here, ph).lay == LayField(a.lay, kind, x, e, here, ph)
  {
  }

  lemma ItemLayout(a: Asm, item: Item)
    requires StepItem(a, item).Some?
    ensures StepItem(a, item).value.lay == LayItem(a.lay, item)
  {
    var x := Read(a.lay, ItemTerm(item), a.lay.pc).value;
    if item.Data? {
      CopiesLayout(a, Address(item.w), x, item.e, a.lay.pc, Placeholder(AsTree(x)), item.count);
    }
  }

  lemma {:induction false} ItemsLayout(a: Asm, items: seq<Item>)
    requires StepItems(a, items).Some?
    ensures StepItems(a, items).value.lay == LayItems(a.lay, items)
  {
    if items != [] {
      ItemsLayout(a, items[..|items| - 1]);
      ItemLayout(StepItems(a, items[..|items| - 1]).value, items[|items| - 1]);
    }
  }

  lemma {:induction false} CompleteLayout(a: Asm, ws: seq<nat>)
    requires forall k :: 0 <= k < |ws| ==> ws[k] < |a.fixups|
    requires Complete(a, ws).Some?
    ensures Complete(a, ws).value.lay == a.lay
    ensures Complete(a, ws).value.base == a.base
    decreases |ws|
  {
    if ws != [] {
      var a1 := Decrement(a, ws[0]);
      CompleteLayout(if a1.fixups[ws[0]].pending > 0 then a1 else CompleteFixup(a1, ws[0]).value, ws[1..]);
    }
  }

  lemma DefineLayout(a: Asm, name: string, v: word, e: Term)
    requires Define(a, name, v, e).Some?
    ensures Define(a, name, v, e).value.lay == LayDefine(a.lay, name, v, e)
    ensures Define(a, name, v, e).value.base == a.base
  {
    CompleteLayout(SetSymbol(a, name, v, e), WaitersOn(a.symbols, name));
  }

  lemma StatementLayout(a: Asm, s: Statement)
    requires StepStatement(a, s).Some?
    ensures StepStatement(a, s).value.lay == LayStatement(a.lay, s)
  {
    hide ReadNow, LayDefine, Define, StepItems, LayItems;
    var a1 := NextStatement(a);
    match s
    case Label(name) => DefineLayout(a1, name, a1.lay.pc, Here);
    case Assign(name, e) => DefineLayout(a1, name, ReadNow(a1.lay, e).value, e);
    case Origin(_) =>
    case Store(isCase, items) => ItemsLayout(a1.(lay := LayCaseBase(a1.lay, isCase)), items);
  }

  lemma {:induction false} RunLayout(program: seq<Statement>, base: word, start: word)
    requires Assemble(program, base, start).Some?
    ensures Assemble(program, base, start).value.lay == PassOne(program, start)
  {
    if program != [] {
      RunLayout(program[..|program| - 1], base, start);
      StatementLayout(Assemble(program[..|program| - 1], base, start).value, program[|program| - 1]);
    }
  }
}
