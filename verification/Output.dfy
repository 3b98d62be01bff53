/**
 What a MACRO-dialect assembly records of its output: the events in source order, who stored each byte and when, each
 section's image, and the fixups that become relocations (output.go, overwrite.go, section.go, reloc.go).
 */
module Output {
  import opened Words
  import opened Expressions
  import opened Linker

  /** A byte of a section, by its offset. */
  datatype Cell = Cell(sect: nat, off: int)

  /** How a constant is stored: as it is, as a signed byte, or as the entry mask of a symbol .ENTRY defines there. */
  datatype ConstForm = Plain | SignedByte | EntryMask(name: string)

  datatype Event =
    | Switch(sect: nat, offset: word, implicit: bool)
    | SetTo(sect: nat, offset: word)
    | Gap(sect: nat, size: word)
    | DataAt(sect: nat, offset: word, size: word)
    | ConstAt(sect: nat, offset: word, size: word, value: word, form: ConstForm)
    | PatchAt(sect: nat, offset: word, size: word, value: word, immediate: bool)

  /** The kinds of field the object language has a store command for. */
  datatype Kind = AddrB | AddrW | AddrL | DispB | DispW | DispL | BranchB | BranchW | BranchL | Pidr | SignedB | SignedW

  function StoreOf(k: Kind): StoreKind {
    match k
    case AddrB => StoreByte
    case AddrW => StoreWord
    case AddrL => StoreLong
    case DispB => StoreByteDisp
    case DispW => StoreWordDisp
    case DispL => StoreLongDisp
    case BranchB => StoreByteDisp
    case BranchW => StoreWordDisp
    case BranchL => StoreLongDisp
    case Pidr => StoreAddress
    case SignedB => StoreSignedByte
    case SignedW => StoreSignedWord
  }

  function KindSize(k: Kind): nat {
    StoreSize(StoreOf(k))
  }

  predicate IsAddr(k: Kind) {
    k == AddrB || k == AddrW || k == AddrL
  }

  predicate IsBranch(k: Kind) {
    k == BranchB || k == BranchW || k == BranchL
  }

  predicate IsDisplacement(k: Kind) {
    IsBranch(k) || k == DispB || k == DispW || k == DispL
  }

  /**
   * What became of a fixup: not yet completed, its value stored (and whether reported as too big for the field),
   * dropped, or left to the linker.
   */
  datatype Outcome = Waiting | Applied(expr: Tree, reported: bool) | Dropped | Left(expr: Tree)

  /** home is the store that left it. */
  datatype Fix = Fix(
    sect: nat, at: word, kind: Kind, prefix: nat, stmt: nat, dead: bool, outcome: Outcome, home: nat)

  /** The statement and event that stored a byte, and the value stored. */
  datatype Owner = Owner(stmt: nat, event: nat, value: octet)

  type Owners = map<Cell, seq<Owner>>
  type Image = map<Cell, octet>

  /** One store of the source program: its bytes as first stored, its event, and the fixup for its field. */
  datatype Source = Source(sect: nat, at: word, data: seq<octet>, stmt: nat, event: nat, isData: bool, fix: Option<nat>)

  datatype Log = Log(
    stmt: nat, cur: nat, locs: map<nat, word>, his: map<nat, word>, events: seq<Event>, owners: Owners, image: Image,
      fixes: seq<Fix>,
    stores: seq<Source>)

  function Loc(log: Log, s: nat): word {
    if s in log.locs then log.locs[s] else 0
  }

  /** The highest location reached in a section. */
  function Hi(log: Log, s: nat): word {
    if s in log.his then log.his[s] else 0
  }

  /** mark. */
  function Mark(his: map<nat, word>, s: nat, loc: word): map<nat, word> {
    if loc > (if s in his then his[s] else 0) then his[s := loc] else his
  }

  function ByteIn(image: Image, p: Cell): octet {
    if p in image then image[p] else 0
  }

  function History(owners: Owners, p: Cell): seq<Owner> {
    if p in owners then owners[p] else []
  }

  // ---- Events (output.go) ----

  /** logEvent: a data event that continues the one before it extends it. */
  function LogEvent(events: seq<Event>, e: Event): (r: seq<Event>)
    ensures r != []
  {
    var n := |events| - 1;
    if e.DataAt? && n >= 0 && events[n].DataAt? && events[n].sect == e.sect
      && Wrap(events[n].offset + events[n].size) == e.offset then
      events[n := DataAt(e.sect, events[n].offset, Wrap(events[n].size + e.size))]
    else events + [e]
  }

  // ---- Stores (section.go, overwrite.go) ----

  function StoreImage(image: Image, s: nat, at: int, data: seq<octet>): Image
    decreases |data|
  {
    if data == [] then image else StoreImage(image[Cell(s, at) := data[0]], s, at + 1, data[1..])
  }

  /** claim, of the bytes of s from lo up to hi. */
  function Claim(owners: Owners, image: Image, s: nat, lo: int, hi: int, stmt: nat, event: nat): Owners
    decreases hi - lo
  {
    if lo >= hi then owners
    else
      var p := Cell(s, lo);
      Claim(owners[p := History(owners, p) + [Owner(stmt, event, ByteIn(image, p))]], image, s, lo + 1, hi, stmt, event)
  }

  predicate OtherOwns(owners: Owners, p: Cell, stmt: nat) {
    var h := History(owners, p);
    h != [] && h[|h| - 1].stmt != stmt
  }

  predicate Overwrites(owners: Owners, s: nat, lo: int, hi: int, stmt: nat) {
    exists q | lo <= q < hi :: OtherOwns(owners, Cell(s, q), stmt)
  }

  /** A fixup of an earlier statement whose field overlaps the bytes stored. */
  predicate Overlaps(f: Fix, s: nat, lo: int, hi: int, stmt: nat) {
    f.sect == s && f.stmt != stmt && f.at < hi && f.at + KindSize(f.kind) > lo
  }

  function Superseded(f: Fix, s: nat, lo: int, hi: int, stmt: nat): Fix {
    if f.outcome.Waiting? && Overlaps(f, s, lo, hi, stmt) then f.(dead := true) else f
  }

  function Supersede(fixes: seq<Fix>, s: nat, lo: int, hi: int, stmt: nat): (r: seq<Fix>)
    ensures |r| == |fixes|
  {
    seq(|fixes|, i requires 0 <= i < |fixes| => Superseded(fixes[i], s, lo, hi, stmt))
  }

  /** A field to be filled in: its kind, and how many bytes of its operand specifier come before it. */
  datatype Filling = Filling(kind: Kind, prefix: nat)

  /** Storing data at the current location, and advanceData past it; fill says it is a field waiting for its value. */
  function Emit(log: Log, data: seq<octet>, fill: Option<Filling>): Log {
    var s, lo := log.cur, Loc(log, log.cur);
    var hi := lo + |data|;
    var image := StoreImage(log.image, s, lo, data);
    var events := LogEvent(log.events, DataAt(s, lo, Wrap(|data|)));
    var owners := Claim(log.owners, image, s, lo, hi, log.stmt, |events| - 1);
    var fixes := if Overwrites(log.owners, s, lo, hi, log.stmt) then Supersede(log.fixes, s, lo, hi, log.stmt)
      else log.fixes;
    var source := Source(s, lo, data, log.stmt, |events| - 1, true, if fill.Some? then Some(|fixes|) else None);
    var waits :=
      if fill.Some? then [Fix(s, lo, fill.value.kind, fill.value.prefix, log.stmt, false, Waiting, |log.stores|)]
      else [];
    Log(log.stmt, s, log.locs[s := Wrap(hi)], Mark(log.his, s, Wrap(hi)), events, owners, image, fixes + waits,
      log.stores + [source])
  }

  /** Bytes stored one after another, as an operand's index and mode bytes are. */
  function EmitBytes(log: Log, data: seq<octet>): Log {
    if data == [] then log else Emit(EmitBytes(log, data[..|data| - 1]), [data[|data| - 1]], None)
  }

  /** A field to be filled in later, after the bytes of its operand specifier that come before it. */
  function EmitField(log: Log, pre: seq<octet>, data: seq<octet>, kind: Kind): Log {
    Emit(EmitBytes(log, pre), data, Some(Filling(kind, |pre|)))
  }

  /**
   * A constant stored through the linker's stack: .ASCIC's count, still zero, .ASCID's first longword, and .ENTRY's
   * mask.
   */
  function EmitConst(log: Log, size: word, value: word, form: ConstForm): Log
    requires size <= 4
  {
    var s, lo := log.cur, Loc(log, log.cur);
    var data := LittleEndian(value, size);
    log.(image := StoreImage(log.image, s, lo, data), events := LogEvent(log.events, ConstAt(s, lo, size, value, form)),
         locs := log.locs[s := Wrap(lo + size)], his := Mark(log.his, s, Wrap(lo + size)),
         stores := log.stores + [Source(s, lo, data, log.stmt, |log.events|, false, None)])
  }

  /** And patched, behind the location, once it is known. */
  function EmitPatch(log: Log, offset: word, size: word, value: word, immediate: bool): Log
    requires size <= 4
  {
    var data := LittleEndian(value, size);
    log.(image := StoreImage(log.image, log.cur, offset, data),
         events := LogEvent(log.events, PatchAt(log.cur, offset, size, value, immediate)),
         stores := log.stores + [Source(log.cur, offset, data, log.stmt, |log.events|, false, None)])
  }

  // ---- Fixups (reloc.go) ----

  /** A value the assembler can store itself: a constant, or a branch's target in its own psect. */
  predicate Storable(f: Fix, t: Tree) {
    || (t.Const? && f.kind != Pidr && !IsDisplacement(f.kind) && !IsAddr(f.kind))
    || (t.Base? && t.sect == f.sect && IsBranch(f.kind))
  }

  /** completeFixup's choice for a fixup of a relocatable section whose tree, its symbols known, is t. */
  function OutcomeOf(f: Fix, t: Tree): Outcome {
    if f.dead && t.Const? && f.kind != Pidr then Dropped
    else if f.dead then Left(t)
    else if Storable(f, t) then Applied(t, OutOfRange(f, t))
    else Left(t)
  }

  /** The value applyFixup is given: the constant, or the offset in the psect. */
  function AppliedValue(t: Tree): word {
    match t case Const(v) => v case Base(_, offset, _) => offset case _ => 0
  }

  /** The distance to it from the field's end, not wrapped round the address space. */
  function Distance(f: Fix, t: Tree): int {
    AppliedValue(t) - f.at - KindSize(f.kind)
  }

  /** applyFixup's range checks: a value may be signed or unsigned, in a signed field too. */
  predicate OutOfRange(f: Fix, t: Tree) {
    match f.kind
    case AddrB => !(-0x80 <= Signed(AppliedValue(t)) <= 0xFF)
    case SignedB => !(-0x80 <= Signed(AppliedValue(t)) <= 0xFF)
    case AddrW => !(-0x8000 <= Signed(AppliedValue(t)) <= 0xFFFF)
    case SignedW => !(-0x8000 <= Signed(AppliedValue(t)) <= 0xFFFF)
    case DispB => !(-0x80 <= Distance(f, t) <= 0x7F)
    case BranchB => !(-0x80 <= Distance(f, t) <= 0x7F)
    case DispW => !(-0x8000 <= Distance(f, t) <= 0x7FFF)
    case BranchW => !(-0x8000 <= Distance(f, t) <= 0x7FFF)
    case _ => false
  }

  /**
   * applyFixup's bytes for it: the value's, or, for a displacement, its distance's; truncated if it is out of range.
   */
  function AppliedBytes(f: Fix, t: Tree): (data: seq<octet>)
    ensures |data| == KindSize(f.kind)
  {
    LittleEndian(if IsDisplacement(f.kind) then Wrap(Distance(f, t)) else AppliedValue(t), KindSize(f.kind))
  }

  function Finish(log: Log, i: nat, t: Tree): Log
    requires i < |log.fixes|
  {
    var f := log.fixes[i];
    var o := OutcomeOf(f, t);
    var image := match o
                 case Applied(_, _) => StoreImage(log.image, f.sect, f.at, AppliedBytes(f, t))
                 case Left(_) => if f.dead then log.image
                   else StoreImage(log.image, f.sect, f.at, LittleEndian(0, KindSize(f.kind)))
                 case _ => log.image;
    log.(fixes := log.fixes[i := f.(outcome := o)], image := image)
  }

  // ---- A whole assembly ----

  datatype Op =
    | Statement
    | Enter(sect: nat, implicit: bool)
    | MoveTo(offset: word)
    | Skip(n: word, always: bool)
    | Bytes(data: seq<octet>)
    | Field(pre: seq<octet>, data: seq<octet>, kind: Kind)
    | Const(size: word, value: word, form: ConstForm)
    | Patch(offset: word, size: word, value: word, immediate: bool)
    | Complete(fix: nat, tree: Tree)

  /** No byte of s from lo on, n of them, was stored by this statement as data. */
  predicate Untouched(log: Log, s: nat, lo: int, n: nat) {
    forall j :: 0 <= j < |log.stores| && log.stores[j].isData && log.stores[j].stmt == log.stmt
                && log.stores[j].sect == s ==>
      log.stores[j].at + |log.stores[j].data| <= lo || lo + n <= log.stores[j].at
  }

  /**
   * n bytes can be stored at the current location: in a relocatable section, not past its end, and none of them twice
   * in a statement.
   */
  predicate RoomFor(log: Log, absolute: set<nat>, n: nat) {
    log.cur !in absolute && Loc(log, log.cur) + n < TWO32 && Untouched(log, log.cur, Loc(log, log.cur), n)
  }

  predicate FormFits(form: ConstForm, size: word) {
    (form.SignedByte? ==> size == 1) && (form.EntryMask? ==> size == 2)
  }

  predicate Proper(log: Log, absolute: set<nat>, op: Op) {
    match op
    case Bytes(data) => 0 < |data| <= 4 && RoomFor(log, absolute, |data|)
    case Field(pre, data, kind) => |pre| <= 2 && |data| == KindSize(kind) && RoomFor(log, absolute, |pre| + |data|)
    case Const(size, value, form) =>
      (size == 1 || size == 2 || size == 4) && FormFits(form, size) && log.cur !in absolute
      && Loc(log, log.cur) + size < TWO32
    case Patch(offset, size, value, immediate) =>
      (size == 1 || size == 2 || size == 4) && log.cur !in absolute && offset + size <= Hi(log, log.cur)
    case Complete(i, tree) => i < |log.fixes| && log.fixes[i].outcome.Waiting?
    case _ => true
  }

  function Apply(log: Log, absolute: set<nat>, op: Op): Log
    requires Proper(log, absolute, op)
  {
    match op
    case Statement => log.(stmt := log.stmt + 1)
    case Enter(s, implicit) => log.(cur := s, events := LogEvent(log.events, Switch(s, Loc(log, s), implicit)))
    case MoveTo(offset) =>
      log.(locs := log.locs[log.cur := offset], his := Mark(log.his, log.cur, offset),
        events := LogEvent(log.events, SetTo(log.cur, offset)))
    case Skip(n, always) =>
      var loc := Wrap(Loc(log, log.cur) + n);
      log.(locs := log.locs[log.cur := loc], his := Mark(log.his, log.cur, loc),
           events := if n > 0 || always then LogEvent(log.events, Gap(log.cur, n)) else log.events)
    case Bytes(data) => Emit(log, data, None)
    case Field(pre, data, kind) => EmitField(log, pre, data, kind)
    case Const(size, value, form) => EmitConst(log, size, value, form)
    case Patch(offset, size, value, immediate) => EmitPatch(log, offset, size, value, immediate)
    case Complete(i, tree) => Finish(log, i, tree)
  }

  /** Assembly starts in the absolute section 0. */
  const Start: Log := Log(0, 0, map[], map[], [Switch(0, 0, false)], map[], map[], [], [])

  /** The record of a whole assembly, or None where an operation was not proper. */
  function Assembled(ops: seq<Op>, absolute: set<nat>): Option<Log> {
    if ops == [] then Some(Start)
    else
      match Assembled(ops[..|ops| - 1], absolute)
      case None => None
      case Some(log) => if Proper(log, absolute, ops[|ops| - 1]) then Some(Apply(log, absolute, ops[|ops| - 1]))
        else None
  }
}
