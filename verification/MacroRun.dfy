/**
 A MACRO-dialect assembly from its statements: what each reads, stores, defines and completes, as operations on the
 record of the output (assembler.go, pseudo.go, operand.go, symbol.go, reloc.go).
 */
module MacroRun {
  import opened Words
  import opened Expressions
  import opened Output
  import TwoPass
  import Operands

  type Width = TwoPass.Width

  // ---- Statements ----

  /** An operand: bytes already encoded, or an expression with a field, after an index mode byte if there is one. */
  datatype Operand =
    | Encoded(data: seq<octet>)
    | BranchTo(w: Width, e: Term)
    | ImmediateOf(index: seq<octet>, w: Width, e: Term)
    | AbsoluteOf(index: seq<octet>, e: Term)
    | RelativeTo(index: seq<octet>, deferred: bool, size: Expressions.Option<Width>, e: Term)
    | FromRegister(index: seq<octet>, deferred: bool, reg: octet, size: Expressions.Option<Width>, e: Term)

  /** One item of .BYTE, .WORD, .LONG, .SIGNED_BYTE or .SIGNED_WORD, repeated. */
  datatype Datum = Datum(w: Width, signed: bool, e: Term, count: Term)

  datatype Line =
    | LabelHere(name: string)
    | AssignTo(name: string, e: Term)
    | InPsect(sect: nat)
    | OriginAt(e: Term)
    | BlockOf(size: word, count: Term)
    | DataOf(items: seq<Datum>)
    | AddressOf(es: seq<Term>)
    | Ascii(data: seq<octet>)
    | Counted(data: seq<octet>)
    | Described(data: seq<octet>)
    | EntryHere(name: string, mask: Term)
    | Instruction(opcode: seq<octet>, operands: seq<Operand>)

  /** Which psects are absolute, .DEFAULT DISPLACEMENT's size, and which symbols may be left undefined, as external. */
  datatype Options = Options(absolute: set<nat>, displacement: Width, external: string -> bool)

  // ---- The state ----

  /**
   * What a store is to hold: bytes as written, or the value of an expression read with "." at here, by the definitions
   * early; stray says its fixup was hung in the wrong section.
   */
  datatype Note = Written | Value(kind: Kind, e: Term, early: Definitions, here: Place, stray: bool)

  /** A fixup's tree, and the symbols defined when it was completed. */
  datatype Pending = Pending(tree: Tree, done: Option<Definitions>)

  /** A fixup for a field of another section than its own. */
  datatype Stray = Stray(kind: Kind, tree: Tree, done: Option<Tree>)

  /** notes are of the record's stores and fixups of its fixups; once says no symbol has been defined twice. */
  datatype Assembly = Assembly(
    log: Log, implicitAbs: bool, defs: Definitions, once: bool, notes: seq<Note>, fixups: seq<Pending>, ready: seq<nat>,
    stray: Option<Stray>, ops: seq<Op>)

  const Blank: nat := 1

  const Begun: Assembly := Assembly(Output.Start, true, map[], true, [], [], [], None, [])

  function Do(o: Options, a: Assembly, op: Op, notes: seq<Note>): Option<Assembly> {
    if Proper(a.log, o.absolute, op) then
      Some(a.(log := Output.Apply(a.log, o.absolute, op), notes := a.notes + notes, ops := a.ops + [op]))
    else None
  }

  /** useBlankPsect */
  function UseBlank(o: Options, a: Assembly): Option<Assembly> {
    if a.implicitAbs then Do(o, a.(implicitAbs := false), Enter(Blank, true), []) else Some(a)
  }

  /** dot, n bytes on. */
  function Here(o: Options, a: Assembly, n: nat): Place {
    var loc := Wrap(Loc(a.log, a.log.cur) + n);
    if a.log.cur in o.absolute then Absolute(loc) else Relative(a.log.cur, loc)
  }

  function ReadHere(o: Options, a: Assembly, e: Term, n: nat): Result<ExprVal> {
    Evaluate(e, Macro, a.defs, Here(o, a, n))
  }

  /** exprKnown */
  function ReadKnown(o: Options, a: Assembly, e: Term): Option<ExprVal> {
    if TwoPass.Names(e) <= a.defs.Keys && ReadHere(o, a, e, 0).Ok? then Some(ReadHere(o, a, e, 0).value) else None
  }

  /** exprNoForward */
  function ReadNumber(o: Options, a: Assembly, e: Term): Option<word> {
    match ReadKnown(o, a, e)
    case Some(Known(v, _)) => Some(v)
    case _ => None
  }

  // ---- Storing ----

  function Writtens(n: nat): seq<Note> {
    seq(n, i => Written)
  }

  /** emitBytes */
  function StoreWritten(o: Options, a: Assembly, data: seq<octet>): Option<Assembly> {
    if data == [] then Some(a)
    else
      match StoreWritten(o, a, data[..|data| - 1])
      case Some(b) => Do(o, b, Op.Bytes([data[|data| - 1]]), [Written])
      case None => None
  }

  /**
   * An operand's bytes: those before its field, the field's as first stored, if it has one, and a tree if it is to be
   * fixed up.
   */
  datatype Plan = Plan(pre: seq<octet>, kind: Kind, data: seq<octet>, tree: Option<Tree>)

  /** queueFixup, of the field just stored; one that waits for no symbol is ready when its statement ends. */
  function Hang(a: Assembly, t: Tree): Assembly {
    a.(fixups := a.fixups + [Pending(t, None)], ready := if Leaves(t) == [] then a.ready + [|a.fixups|] else a.ready)
  }

  function StorePlan(o: Options, a: Assembly, p: Plan, note: Note): Option<Assembly> {
    match p.tree
    case Some(t) =>
      (match Do(o, a, Field(p.pre, p.data, p.kind), Writtens(|p.pre|) + [note])
       case Some(b) => Some(Hang(b, t))
       case None => None)
    case None =>
      match StoreWritten(o, a, p.pre)
      case Some(b) => if p.data == [] then Some(b) else Do(o, b, Op.Bytes(p.data), [note])
      case None => None
  }

  // ---- Operands ----

  function AddrOf(w: Width): Kind {
    match w case Byte => AddrB case Word => AddrW case Long => AddrL
  }

  function SignedOf(w: Width): Kind {
    match w case Byte => SignedB case Word => SignedW case Long => AddrL
  }

  function DispOf(w: Width): Kind {
    match w case Byte => DispB case Word => DispW case Long => DispL
  }

  function BranchOf(w: Width): Kind {
    match w case Byte => BranchB case Word => BranchW case Long => BranchL
  }

  function WidthOf(n: nat): Width {
    if n == 1 then TwoPass.Byte else if n == 2 then TwoPass.Word else TwoPass.Long
  }

  function FieldOf(k: Kind, v: word): (data: seq<octet>)
    ensures |data| == KindSize(k)
  {
    LittleEndian(v, KindSize(k))
  }

  /** A known value stored here and now, or a tree to be fixed up later, over what is stored meanwhile. */
  function NowOrLater(pre: seq<octet>, k: Kind, x: ExprVal): Plan {
    match x
    case Known(v, _) => Plan(pre, k, FieldOf(k, v), None)
    case Unknown(t) => Plan(pre, k, FieldOf(k, Placeholder(t)), Some(t))
  }

  /** knownTarget: a location of the current psect. */
  function KnownTarget(x: ExprVal, cur: nat): Option<word> {
    match x
    case Known(_, _) => None
    case Unknown(t) =>
      match SimpleRelocatable(t)
      case Some((s, offset)) => if s == cur then Some(offset) else None
      case None => None
  }

  function RelativePlan(o: Options, index: seq<octet>, deferred: bool, size: Option<Width>, x: ExprVal, cur: nat,
                        pc: word): Option<Plan> {
    match KnownTarget(x, cur)
    case Some(target) =>
      (match Operands.RelativeOperand(target, pc, deferred, size)
       case Some(s) => Some(Plan(index + s[..1], DispOf(WidthOf(|s| - 1)), s[1..], None))
       case None => None)
    case None =>
      var w := if size.Some? then size.value else o.displacement;
      Some(Plan(index + [TwoPass.ModeByte(w, deferred, 15)], DispOf(w), FieldOf(DispOf(w), 0), Some(AsTree(x))))
  }

  function RegisterPlan(index: seq<octet>, deferred: bool, reg: octet, size: Option<Width>, x: ExprVal): Option<Plan>
    requires reg < 16
  {
    match x
    case Known(v, _) =>
      (match Operands.RegisterDisplacement(v, deferred, reg, size, Macro)
       case Some(s) => Some(Plan(index + s[..1], SignedOf(WidthOf(|s| - 1)), s[1..], None))
       case None => None)
    case Unknown(t) =>
      var w := if size.Some? then size.value else TwoPass.Word;
      Some(Plan(index + [TwoPass.ModeByte(w, deferred, reg)], SignedOf(w), FieldOf(SignedOf(w), 0), Some(t)))
  }

  /** How far into an operand its expression is read. */
  function ReadAfter(p: Operand): nat {
    match p
    case ImmediateOf(index, _, _) => |index| + 1
    case AbsoluteOf(index, _) => |index| + 1
    case RelativeTo(index, _, _, _) => |index|
    case FromRegister(index, _, _, _, _) => |index|
    case _ => 0
  }

  function PlanOf(o: Options, p: Operand, x: ExprVal, cur: nat, pc: word): Option<Plan> {
    match p
    case Encoded(data) => Some(Plan(data, AddrB, [], None))
    case BranchTo(w, _) =>
      (match x
       case Known(v, _) => Some(Plan([], BranchOf(w), FieldOf(BranchOf(w), 0), Some(Tree.Const(v))))
       case Unknown(t) =>
         var distance := Wrap(Placeholder(t) - pc - KindSize(BranchOf(w)));
         Some(Plan([], BranchOf(w), FieldOf(BranchOf(w), distance), Some(t))))
    case ImmediateOf(index, w, _) =>
      var later := NowOrLater(index + [0x8F], AddrOf(w), x);
      Some(if x.Known? then later.(tree := Some(Tree.Const(x.v))) else later)
    case AbsoluteOf(index, _) => Some(NowOrLater(index + [0x9F], AddrL, x))
    case RelativeTo(index, deferred, size, _) => RelativePlan(o, index, deferred, size, x, cur, Wrap(pc + |index|))
    case FromRegister(index, deferred, reg, size, _) => if reg < 16 then RegisterPlan(index, deferred, reg, size, x)
      else None
  }

  function OperandTerm(p: Operand): Term {
    if p.Encoded? then Number(0) else p.e
  }

  function StoreOperand(o: Options, a: Assembly, p: Operand): Option<Assembly> {
    match ReadHere(o, a, OperandTerm(p), ReadAfter(p))
    case Err(_) => None
    case Ok(x) =>
      match PlanOf(o, p, x, a.log.cur, Loc(a.log, a.log.cur))
      case None => None
      case Some(plan) =>
        StorePlan(o, a, plan, Value(plan.kind, OperandTerm(p), a.defs, Here(o, a, ReadAfter(p)), false))
  }

  function StoreOperands(o: Options, a: Assembly, ps: seq<Operand>): Option<Assembly> {
    if ps == [] then Some(a)
    else
      match StoreOperands(o, a, ps[..|ps| - 1])
      case Some(b) => StoreOperand(o, b, ps[|ps| - 1])
      case None => None
  }

  // ---- Data ----

  /** pseudoDataSigned's range check on a value known when it is read. */
  predicate DatumFits(k: Kind, v: word) {
    match k
    case AddrB => -0x80 <= Signed(v) <= 0xFF
    case AddrW => -0x8000 <= Signed(v) <= 0xFFFF
    case SignedB => -0x80 <= Signed(v) <= 0x7F
    case SignedW => -0x8000 <= Signed(v) <= 0x7FFF
    case _ => true
  }

  /**
   * One copy: its fixup is hung where the location is, and then its bytes are stored. Where storing them is what first
   * enters the blank psect, the fixup is left behind in . ABS . .
   */
  function StoreCopy(o: Options, a: Assembly, p: Plan, note: Note): Option<Assembly> {
    if !a.implicitAbs then StorePlan(o, a, p, note)
    else
      match UseBlank(o, a)
      case None => None
      case Some(b) =>
        if p.tree.None? || !note.Value? then StorePlan(o, b, p, note)
        else StorePlan(o, b.(stray := Some(Stray(p.kind, p.tree.value, None))), p.(tree := None), note.(stray := true))
  }

  function StoreCopies(o: Options, a: Assembly, p: Plan, note: Note, n: nat): Option<Assembly> {
    if n == 0 then Some(a)
    else
      match StoreCopies(o, a, p, note, n - 1)
      case Some(b) => StoreCopy(o, b, p, note)
      case None => None
  }

  function DatumKind(d: Datum): Kind {
    if d.signed then SignedOf(d.w) else AddrOf(d.w)
  }

  function StoreDatum(o: Options, a: Assembly, d: Datum): Option<Assembly> {
    match (ReadHere(o, a, d.e, 0), ReadNumber(o, a, d.count))
    case (Ok(x), Some(n)) =>
      if x.Known? && !DatumFits(DatumKind(d), x.v) then None
      else StoreCopies(o, a, NowOrLater([], DatumKind(d), x), Value(DatumKind(d), d.e, a.defs, Here(o, a, 0), false), n)
    case _ => None
  }

  function StoreData(o: Options, a: Assembly, ds: seq<Datum>): Option<Assembly> {
    if ds == [] then Some(a)
    else
      match StoreData(o, a, ds[..|ds| - 1])
      case Some(b) => StoreDatum(o, b, ds[|ds| - 1])
      case None => None
  }

  /** .ADDRESS: the linker stores even a known address. */
  function AddressPlan(x: ExprVal, data: seq<octet>): Plan {
    Plan([], Pidr, data, Some(if x.Known? then Tree.Const(x.v) else x.x))
  }

  function StorePointer(o: Options, a: Assembly, e: Term, data: seq<octet>): Option<Assembly> {
    match ReadHere(o, a, e, 0)
    case Ok(x) => StorePlan(o, a, AddressPlan(x, data), Value(Pidr, e, a.defs, Here(o, a, 0), false))
    case Err(_) => None
  }

  function StorePointers(o: Options, a: Assembly, es: seq<Term>): Option<Assembly> {
    if es == [] then Some(a)
    else
      match StorePointers(o, a, es[..|es| - 1])
      case None => None
      case Some(b) =>
        match UseBlank(o, b)
        case Some(c) => StorePointer(o, c, es[|es| - 1], LittleEndian(0, 4))
        case None => None
  }

  // ---- Strings and entry points ----

  /** .ASCII, .ASCIC and .ASCID, whose count is patched once the string is stored. */
  function StoreString(o: Options, a: Assembly, line: Line): Option<Assembly>
    requires line.Ascii? || line.Counted? || line.Described?
  {
    var n := |line.data|;
    match UseBlank(o, a)
    case None => None
    case Some(b) =>
      var at := Loc(b.log, b.log.cur);
      if b.log.cur in o.absolute then None
      else
      match line
      case Ascii(data) => StoreWritten(o, b, data)
      case Counted(data) =>
        (match Do(o, b, Op.Const(1, 0, ConstForm.SignedByte), [Written])
         case None => None
         case Some(c) =>
           match StoreWritten(o, c, data)
           case Some(d) => if n > 0xFF then None else Do(o, d, Patch(at, 1, n, true), [Written])
           case None => None)
      case Described(data) =>
        match Do(o, b, Op.Const(4, 0x10E_0000, ConstForm.Plain), [Written])
        case None => None
        case Some(c) =>
          match StorePointer(o, c, Infix(Add, Term.Here, Number(4)), LittleEndian(Wrap(Loc(c.log, c.log.cur) + 4), 4))
          case None => None
          case Some(d) =>
            match StoreWritten(o, d, data)
            case Some(e) => if n > 0xFFFF then None else Do(o, e, Patch(at, 2, n, false), [Written])
            case None => None
  }

  /** No register R0, R1, AP or FP, and nothing above a word. */
  predicate EntryMaskFits(m: word) {
    m <= 0xFFFF && m % 4 == 0 && m / 0x1000 % 4 == 0
  }

  // ---- Definitions and fixups ----

  predicate Ready(a: Assembly, t: Tree) {
    forall key :: key in Leaves(t) ==> key in a.defs
  }

  function FinalTree(defs: Definitions, k: Kind, t: Tree): Tree {
    FixupTree(t, defs, IsAddr(k))
  }

  /** completeFixup */
  function CompleteOne(o: Options, a: Assembly, i: nat): Option<Assembly> {
    if i < |a.fixups| && i < |a.log.fixes| then
      var b := a.(fixups := a.fixups[i := a.fixups[i].(done := Some(a.defs))]);
      Do(o, b, Complete(i, FinalTree(a.defs, a.log.fixes[i].kind, a.fixups[i].tree)), [])
    else None
  }

  function CompleteEach(o: Options, a: Assembly, order: seq<nat>): Option<Assembly> {
    if order == [] then Some(a)
    else
      match CompleteEach(o, a, order[..|order| - 1])
      case Some(b) => CompleteOne(o, b, order[|order| - 1])
      case None => None
  }

  /** The fixups name held up that wait for nothing more now, of the first n, the last queued first (ForwardLists). */
  function Released(a: Assembly, name: string, n: nat): seq<nat>
    requires n <= |a.fixups|
  {
    if n == 0 then []
    else
      var p := a.fixups[n - 1];
      (if p.done.None? && name in Leaves(p.tree) && Ready(a, p.tree) then [n - 1] else []) + Released(a, name, n - 1)
  }

  function Settled(a: Assembly, force: bool): Assembly {
    if a.stray.Some? && a.stray.value.done.None? && (force || Ready(a, a.stray.value.tree)) then
      a.(stray := Some(a.stray.value.(done := Some(FinalTree(a.defs, a.stray.value.kind, a.stray.value.tree)))))
    else a
  }

  /** setSymbolIn */
  function Define(o: Options, a: Assembly, name: string, p: Place): Option<Assembly> {
    var b := Settled(a.(defs := a.defs[name := p], once := a.once && name !in a.defs), false);
    CompleteEach(o, b, Released(b, name, |b.fixups|))
  }

  /** defineHere: a label that is defined already is an error. */
  function DefineHere(o: Options, a: Assembly, name: string): Option<Assembly> {
    match UseBlank(o, a)
    case Some(b) => if name in b.defs then None else Define(o, b, name, Here(o, b, 0))
    case None => None
  }

  /** flushReady */
  function FlushReady(o: Options, a: Assembly): Option<Assembly> {
    CompleteEach(o, Settled(a.(ready := []), false), a.ready)
  }

  // ---- Statements ----

  function Assign(o: Options, a: Assembly, name: string, e: Term): Option<Assembly> {
    match ReadKnown(o, a, e)
    case Some(Known(v, _)) => Define(o, a, name, Absolute(v))
    case Some(Unknown(t)) =>
      (match SimpleRelocatable(t)
       case Some((s, offset)) => Define(o, a, name, Relative(s, offset))
       case None => None)
    case None => None
  }

  /** ". =": only within its own psect. */
  function Move(o: Options, a: Assembly, e: Term): Option<Assembly> {
    match ReadKnown(o, a, e)
    case Some(Known(v, _)) => Do(o, a, MoveTo(v), [])
    case Some(Unknown(t)) =>
      (match SimpleRelocatable(t)
       case Some((s, offset)) => if s == a.log.cur then Do(o, a, MoveTo(offset), []) else None
       case None => None)
    case None => None
  }

  function Block(o: Options, a: Assembly, size: word, count: Term): Option<Assembly> {
    match (ReadNumber(o, a, count), UseBlank(o, a))
    case (Some(n), Some(b)) => Do(o, b, Skip(Wrap(n * size), n == 0), [])
    case _ => None
  }

  function EntryPoint(o: Options, a: Assembly, name: string, mask: Term): Option<Assembly> {
    match DefineHere(o, a, name)
    case None => None
    case Some(b) =>
      match ReadNumber(o, b, mask)
      case Some(m) => if EntryMaskFits(m) then Do(o, b, Op.Const(2, m, EntryMask(name)), [Written]) else None
      case None => None
  }

  function StoreInstruction(o: Options, a: Assembly, opcode: seq<octet>, operands: seq<Operand>): Option<Assembly> {
    match UseBlank(o, a)
    case None => None
    case Some(b) =>
      match StoreWritten(o, b, opcode)
      case Some(c) => StoreOperands(o, c, operands)
      case None => None
  }

  function Body(o: Options, a: Assembly, line: Line): Option<Assembly> {
    match line
    case LabelHere(name) => DefineHere(o, a, name)
    case AssignTo(name, e) => Assign(o, a, name, e)
    case InPsect(s) => Do(o, a.(implicitAbs := false), Enter(s, false), [])
    case OriginAt(e) => Move(o, a, e)
    case BlockOf(size, count) => Block(o, a, size, count)
    case DataOf(items) => StoreData(o, a, items)
    case AddressOf(es) => StorePointers(o, a, es)
    case EntryHere(name, mask) => EntryPoint(o, a, name, mask)
    case Instruction(opcode, operands) => StoreInstruction(o, a, opcode, operands)
    case _ => StoreString(o, a, line)
  }

  /** assembleStatement: the statement, then the fixups it left ready. */
  function Statement(o: Options, a: Assembly, line: Line): Option<Assembly> {
    match Do(o, a, Op.Statement, [])
    case None => None
    case Some(b) =>
      match Body(o, b, line)
      case Some(c) => FlushReady(o, c)
      case None => None
  }

  function Statements(o: Options, lines: seq<Line>): Option<Assembly> {
    if lines == [] then Some(Begun)
    else
      match Statements(o, lines[..|lines| - 1])
      case Some(a) => Statement(o, a, lines[|lines| - 1])
      case None => None
  }

  // ---- The end ----

  /** order is the fixups still waiting, in whatever order they are finished. */
  predicate Waiting(a: Assembly, order: seq<nat>) {
    && (forall i, j :: 0 <= i < j < |order| ==> order[i] != order[j])
    && (forall i :: i in order ==> i < |a.fixups|)
    && forall i :: 0 <= i < |a.fixups| ==> (i in order <==> a.fixups[i].done.None?)
  }

  /** Every symbol still missing may be external. */
  predicate AllExternal(o: Options, a: Assembly) {
    && (forall i, key :: 0 <= i < |a.fixups| && key in Leaves(a.fixups[i].tree) && key !in a.defs ==> o.external(key))
    && (a.stray.Some? ==> forall key :: key in Leaves(a.stray.value.tree) && key !in a.defs ==> o.external(key))
  }

  /** A fixup found its value too big for its field. */
  predicate Reported(log: Log) {
    exists i :: 0 <= i < |log.fixes| && log.fixes[i].outcome.Applied? && log.fixes[i].outcome.reported
  }

  /** finish, and the errors found by then: nothing where there is one. */
  function AssembledLines(o: Options, lines: seq<Line>, order: seq<nat>): Option<Assembly> {
    match Statements(o, lines)
    case None => None
    case Some(a) =>
      if !AllExternal(o, a) || !Waiting(a, order) then None
      else
        match CompleteEach(o, Settled(a, true), order)
        case Some(b) => if Reported(b.log) || StrayReported(b) then None else Some(b)
        case None => None
  }

  /**
   * A stray fixup that became a signed constant is stored in . ABS . , where nobody looks; any other is a relocation
   * there.
   */
  predicate StrayApplied(s: Stray) {
    !IsAddr(s.kind) && s.done.Some? && s.done.value.Const?
  }

  predicate StrayReported(a: Assembly) {
    a.stray.Some? && StrayApplied(a.stray.value)
    && match a.stray.value.kind
       case SignedB => !(-0x80 <= Signed(a.stray.value.done.value.v) <= 0xFF)
       case SignedW => !(-0x8000 <= Signed(a.stray.value.done.value.v) <= 0xFFFF)
       case _ => false
  }

  /** Object's last check: no relocation is left outside any stored data. */
  predicate Writable(a: Assembly) {
    a.stray.Some? ==> StrayApplied(a.stray.value)
  }
}
