/**
 The two-pass meaning of a console-dialect assembly, in one absolute section: pass one lays the statements out and
 defines the symbols, and pass two stores every field with the complete symbol table. Pass one records of each field
 which symbols were still missing, and what stands in for them meanwhile; pass two uses neither.
 */
module TwoPass {
  import opened Words
  import opened Expressions

  datatype Width = Byte | Word | Long

  function Bytes(w: Width): (n: nat)
    ensures 1 <= n <= 4
  {
    match w case Byte => 1 case Word => 2 case Long => 4
  }

  /** How a field's value is written (fixupKind): the value itself, a displacement from the field's end, or the
      offset from a .CASE table's start. */
  datatype FieldKind = Address(w: Width) | Displacement(w: Width) | BranchField(w: Width) | CaseField

  function FieldSize(k: FieldKind): (n: nat)
    ensures 1 <= n <= 4
  {
    if k.CaseField? then 2 else Bytes(k.w)
  }

  function FieldWord(k: FieldKind, at: word, base: word, v: word): word {
    match k
    case Address(_) => v
    case CaseField => Wrap(v - base)
    case _ => Wrap(v - (at + FieldSize(k)))
  }

  function FieldBytes(k: FieldKind, at: word, base: word, v: word): (bytes: seq<octet>)
    ensures |bytes| == FieldSize(k)
  {
    LittleEndian(FieldWord(k, at, base, v), FieldSize(k))
  }

  datatype Item =
    | Raw(data: seq<octet>)
    | Data(w: Width, e: Term, count: nat)
    | Branch(w: Width, e: Term)
    | Relative(deferred: bool, size: Option<Width>, e: Term)
    | Register(deferred: bool, reg: octet, size: Option<Width>, e: Term)
    | CaseEntry(e: Term)

  datatype Statement =
    | Label(name: string)
    | Assign(name: string, e: Term)
    | Origin(e: Term)
    | Store(isCase: bool, items: seq<Item>)

  /** One store: its statement's number, where it went, and either its bytes or what its value is written from; and of a
      field the symbols it waits on, not defined when it is read, and what one pass puts there until they are. */
  datatype Stored =
    | Literal(stmt: nat, at: word, data: seq<octet>)
    | Field(stmt: nat, at: word, kind: FieldKind, base: word, e: Term, here: word, waits: set<string>, held: word)

  function StoredSize(s: Stored): nat {
    match s
    case Literal(_, _, data) => |data|
    case Field(_, _, kind, _, _, _, _, _) => FieldSize(kind)
  }

  /** A symbol's definition: e, read with "." at here, after the first stores stores. A label's is Here itself. */
  datatype Equation = Equation(name: string, e: Term, here: word, stores: nat)

  /** Where pass one has got to. waiting are the symbols used but not defined yet. */
  datatype Layout = Layout(
    pc: word, caseBase: word, stmt: nat,
    defs: Definitions, waiting: set<string>,
    log: seq<Stored>, equations: seq<Equation>)

  function Read(lay: Layout, e: Term, here: word): Result<ExprVal> {
    Evaluate(e, Console, lay.defs, Absolute(here))
  }

  function LeafSet(t: Tree): set<string> {
    set key | key in Leaves(t)
  }

  function Waits(x: ExprVal): set<string> {
    if x.Unknown? then LeafSet(x.x) else {}
  }

  // ---- Operand sizes ----

  predicate FitsSigned(v: int, w: Width) {
    match w
    case Byte => -0x80 <= v <= 0x7F
    case Word => -0x8000 <= v <= 0x7FFF
    case Long => -0x8000_0000 <= v <= 0x7FFF_FFFF
  }

  /** The displacement from the end of a w-sized field at loc to target. */
  function DisplacementTo(target: word, loc: word, w: Width): word {
    Wrap(target - (loc + Bytes(w)))
  }

  /** relativeOperand's choice: the first of 1, 2, 4 whose displacement fits. */
  function RelativeWidth(target: word, loc: word): Width {
    if FitsSigned(Signed(DisplacementTo(target, loc, Byte)), Byte) then Byte
    else if FitsSigned(Signed(DisplacementTo(target, loc, Word)), Word) then Word
    else Long
  }

  function ValueWidth(v: word): Width {
    if FitsSigned(Signed(v), Byte) then Byte else if FitsSigned(Signed(v), Word) then Word else Long
  }

  function ModeByte(w: Width, deferred: bool, reg: octet): octet {
    ((match w case Byte => 0xA0 case Word => 0xC0 case Long => 0xE0) + (if deferred then 0x10 else 0) + reg % 16) % 256
  }

  /** The size of a relative operand's displacement: as written, else the smallest that reaches a known target,
      else a longword. */
  function RelativeSize(x: ExprVal, w: Option<Width>, loc: word): Width {
    match w
    case Some(given) => given
    case None => if x.Known? then RelativeWidth(x.v, loc) else Long
  }

  function RegisterSize(x: ExprVal, w: Option<Width>): Width {
    match w
    case Some(given) => given
    case None => if x.Known? then ValueWidth(x.v) else Long
  }

  // ---- Pass one ----

  function LayStore(lay: Layout, s: Stored): Layout {
    lay.(log := lay.log + [s], pc := Wrap(lay.pc + StoredSize(s)))
  }

  function LayLiteral(lay: Layout, data: seq<octet>): Layout {
    LayStore(lay, Literal(lay.stmt, lay.pc, data))
  }

  function FieldAt(lay: Layout, kind: FieldKind, x: ExprVal, e: Term, here: word, ph: word): Stored {
    Field(lay.stmt, lay.pc, kind, lay.caseBase, e, here, Waits(x), ph)
  }

  function LayField(lay: Layout, kind: FieldKind, x: ExprVal, e: Term, here: word, ph: word): Layout {
    var lay1 := LayStore(lay, FieldAt(lay, kind, x, e, here, ph));
    lay1.(waiting := lay1.waiting + Waits(x))
  }

  function LayCopies(lay: Layout, kind: FieldKind, x: ExprVal, e: Term, here: word, ph: word, count: nat): Layout {
    if count == 0 then lay else LayField(LayCopies(lay, kind, x, e, here, ph, count - 1), kind, x, e, here, ph)
  }

  /** Lays out an item whose value was read as x. */
  function LayValue(lay: Layout, item: Item, x: ExprVal): Layout {
    match item
    case Raw(data) => LayLiteral(lay, data)
    case Data(w, e, count) => LayCopies(lay, Address(w), x, e, lay.pc, Placeholder(AsTree(x)), count)
    case Branch(w, e) => LayField(lay, BranchField(w), x, e, lay.pc, Wrap(Placeholder(AsTree(x)) - lay.pc - Bytes(w)))
    case CaseEntry(e) => LayField(lay, CaseField, x, e, lay.pc, 0)
    case Relative(deferred, size, e) =>
      var w := RelativeSize(x, size, Wrap(lay.pc + 1));
      LayField(LayLiteral(lay, [ModeByte(w, deferred, 15)]), Displacement(w), x, e, lay.pc, 0)
    case Register(deferred, reg, size, e) =>
      var w := RegisterSize(x, size);
      LayField(LayLiteral(lay, [ModeByte(w, deferred, reg)]), Address(w), x, e, lay.pc, 0)
  }

  function ItemTerm(item: Item): Term {
    if item.Raw? then Number(0) else item.e
  }

  function LayItem(lay: Layout, item: Item): Layout {
    match Read(lay, ItemTerm(item), lay.pc)
    case Ok(x) => LayValue(lay, item, x)
    case Err(_) => lay
  }

  function LayItems(lay: Layout, items: seq<Item>): Layout {
    if items == [] then lay else LayItem(LayItems(lay, items[..|items| - 1]), items[|items| - 1])
  }

  /** The symbols an expression without forward references may use: a symbol still waiting counts as zero. */
  function Usable(lay: Layout): Definitions {
    map key | key in lay.defs.Keys + lay.waiting :: if key in lay.defs then lay.defs[key] else Absolute(0)
  }

  function Names(e: Term): set<string> {
    match e
    case Name(key) => {key}
    case Minus(f) => Names(f)
    case Not(f) => Names(f)
    case Infix(_, l, r) => Names(l) + Names(r)
    case _ => {}
  }

  /** exprNoForward: a value now, or an error. */
  function ReadNow(lay: Layout, e: Term): Option<word> {
    if Names(e) <= Usable(lay).Keys then
      (match Evaluate(e, Console, Usable(lay), Absolute(lay.pc))
       case Ok(Known(v, _)) => Some(v)
       case _ => None)
    else None
  }

  function LayDefine(lay: Layout, name: string, v: word, e: Term): Layout {
    lay.(defs := lay.defs[name := Absolute(v)], waiting := lay.waiting - {name},
         equations := lay.equations + [Equation(name, e, lay.pc, |lay.log|)])
  }

  function LayCaseBase(lay: Layout, isCase: bool): Layout {
    lay.(caseBase := if !isCase then 0 else if lay.caseBase == 0 then lay.pc else lay.caseBase)
  }

  function LayStatement(lay0: Layout, s: Statement): Layout {
    var lay := lay0.(stmt := lay0.stmt + 1);
    match s
    case Label(name) => LayDefine(lay, name, lay.pc, Here)
    case Assign(name, e) =>
      (match ReadNow(lay, e) case Some(v) => LayDefine(lay, name, v, e) case None => lay)
    case Origin(e) =>
      (match ReadNow(lay, e) case Some(v) => lay.(pc := v) case None => lay)
    case Store(isCase, items) => LayItems(LayCaseBase(lay, isCase), items)
  }

  function PassOne(program: seq<Statement>, start: word): Layout {
    if program == [] then Layout(start, 0, 0, map[], {}, [], [])
    else LayStatement(PassOne(program[..|program| - 1], start), program[|program| - 1])
  }

  // ---- Pass two ----

  function StoredData(s: Stored, env: Env): (data: seq<octet>)
    ensures |data| == StoredSize(s)
  {
    match s
    case Literal(_, _, data) => data
    case Field(_, at, kind, base, e, here, _, _) =>
      FieldBytes(kind, at, base, Meaning(e, env, Absolute(here), Assembler))
  }

  /** Every store in source order, each with its value under env. */
  function PassTwo(log: seq<Stored>, env: Env): Memory {
    if log == [] then map[]
    else
      var s := log[|log| - 1];
      Write(PassTwo(log[..|log| - 1], env), s.at, StoredData(s, env))
  }

  /** The symbol table pass one ends with, as values. */
  ghost function TableEnv(defs: Definitions): Env {
    Env(s => 0, key => if key in defs && defs[key].Absolute? then defs[key].v else 0, entry => 0)
  }

  // ---- Who stored a byte last ----

  predicate Covers(s: Stored, p: word) {
    Within(p, s.at, StoredSize(s))
  }

  function LastStore(log: seq<Stored>, p: word): (i: int)
    ensures -1 <= i < |log|
    ensures i >= 0 ==> Covers(log[i], p)
    ensures forall j :: i < j < |log| ==> !Covers(log[j], p)
  {
    if log == [] then -1
    else if Covers(log[|log| - 1], p) then |log| - 1
    else LastStore(log[..|log| - 1], p)
  }

  ghost predicate NoWrap(log: seq<Stored>) {
    forall i :: 0 <= i < |log| ==> log[i].at + StoredSize(log[i]) < TWO32
  }

  /** Pass two leaves each byte as the last store to it wrote it. */
  lemma {:induction false} PassTwoAt(log: seq<Stored>, env: Env, p: word)
    requires NoWrap(log)
    ensures var i := LastStore(log, p);
            At(PassTwo(log, env), p) == if i < 0 then 0 else StoredData(log[i], env)[p - log[i].at]
  {
    if log != [] {
      var s := log[|log| - 1];
      PassTwoAt(log[..|log| - 1], env, p);
      WriteAt(PassTwo(log[..|log| - 1], env), s.at, StoredData(s, env), p);
    }
  }

  // ---- The conditions under which one pass can do as well ----

  /** The symbol was defined before the k-th store. */
  predicate DefinedBefore(lay: Layout, key: string, k: nat) {
    exists i :: 0 <= i < |lay.equations| && lay.equations[i].name == key && lay.equations[i].stores <= k
  }

  /** Store j's field still waited on a symbol when store k was made. */
  predicate StillWaits(lay: Layout, j: nat, k: nat)
    requires j < |lay.log| && lay.log[j].Field?
  {
    exists key :: key in lay.log[j].waits && !DefinedBefore(lay, key, k)
  }

  ghost predicate Overlapping(a: Stored, b: Stored) {
    exists p: word :: Covers(a, p) && Covers(b, p)
  }

  /** Store k, of another statement, went over a byte of store j's field while it still waited. */
  ghost predicate CutsShort(lay: Layout, j: nat, k: nat) {
    && j < k < |lay.log| && lay.log[j].Field? && lay.log[j].stmt != lay.log[k].stmt
    && StillWaits(lay, j, k) && Overlapping(lay.log[j], lay.log[k])
  }

  ghost predicate Spoiled(lay: Layout, j: int) {
    j >= 0 && exists k: nat :: CutsShort(lay, j, k)
  }

  ghost predicate DefinedOnce(equations: seq<Equation>) {
    forall i, j :: 0 <= i < j < |equations| ==> equations[i].name != equations[j].name
  }
}
