/**
 Writing an assembly's output as an object module: the events, replayed in order as TIR commands, each relocation by the
 event that stored its field (object.go).
 */
module Emission {
  import opened Words
  import opened Expressions
  import opened Linker
  import opened Output

  /** A relocation's field, by the event that stored it. */
  datatype Key = Key(sect: nat, offset: int, event: int)

  datatype Relocation = Relocation(kind: Kind, prefix: nat, expr: Tree)

  type Relocations = map<Key, Relocation>

  function LastBy(history: seq<Owner>, stmt: nat): int {
    if history == [] then -1
    else if history[|history| - 1].stmt == stmt then history[|history| - 1].event
    else LastBy(history[..|history| - 1], stmt)
  }

  /** storedBy: the event in which the statement stored the byte, or -1. */
  function StoredBy(owners: Owners, p: Cell, stmt: nat): int {
    LastBy(History(owners, p), stmt)
  }

  function KeyOf(log: Log, f: Fix): Key {
    Key(f.sect, f.at, StoredBy(log.owners, Cell(f.sect, f.at), f.stmt))
  }

  /** The relocations among the first n fixups. */
  function RelocationsOf(log: Log, n: nat): Relocations
    requires n <= |log.fixes|
  {
    if n == 0 then map[]
    else
      var f := log.fixes[n - 1];
      if f.outcome.Left? then RelocationsOf(log, n - 1)[KeyOf(log, f) := Relocation(f.kind, f.prefix, f.outcome.expr)]
      else RelocationsOf(log, n - 1)
  }

  /**
   * From the latest of the first n entries of a byte's history back: what the event stored, unless nothing has been
   * stored since.
   */
  function ByteFrom(history: seq<Owner>, n: nat, event: int, image: octet): octet
    requires n <= |history|
  {
    if n == 0 then image
    else if history[n - 1].event != event then ByteFrom(history, n - 1, event, image)
    else if n == |history| then image
    else history[n - 1].value
  }

  /** byteAt */
  function ByteAt(log: Log, event: int, p: Cell): octet {
    var h := History(log.owners, p);
    ByteFrom(h, |h|, event, ByteIn(log.image, p))
  }

  /** prefixedAt: how many bytes of an operand specifier that starts at p come before its field. */
  function PrefixAt(relocs: Relocations, s: nat, p: int, end: int, event: int): (n: nat)
    ensures n <= 2
    ensures n > 0 ==> p + n < end && Key(s, p + n, event) in relocs && relocs[Key(s, p + n, event)].prefix == n
  {
    if p + 1 < end && Key(s, p + 1, event) in relocs && relocs[Key(s, p + 1, event)].prefix == 1 then 1
    else if p + 2 < end && Key(s, p + 2, event) in relocs && relocs[Key(s, p + 2, event)].prefix == 2 then 2
    else 0
  }

  /** n bytes from p on, each as the event stored it. */
  function Stored(log: Log, event: int, s: nat, p: int, n: nat): seq<Command> {
    if n == 0 then [] else Stored(log, event, s, p, n - 1) + [StoreImmediate([ByteAt(log, event, Cell(s, p + n - 1))])]
  }

  /** What writing part of a data event adds to the object, the relocations still to be written, and those written. */
  datatype Part = Part(commands: seq<Command>, relocs: Relocations, fields: seq<Key>)

  /** A relocation whose operand specifier starts at p: its stack program, the bytes before the field, and its store. */
  function FieldCommands(log: Log, event: int, s: nat, p: int, n: nat, r: Relocation): seq<Command> {
    Program(r.expr) + Stored(log, event, s, p, n) + [Store(StoreOf(r.kind))]
  }

  /** data, from p on. */
  function Data(log: Log, event: int, s: nat, p: int, end: int, relocs: Relocations): Part
    decreases end - p
  {
    if p >= end then Part([], relocs, [])
    else
      var n := PrefixAt(relocs, s, p, end, event);
      var key := Key(s, p + n, event);
      if key in relocs then
        var r := relocs[key];
        var rest := Data(log, event, s, p + n + KindSize(r.kind), end, relocs - {key});
        Part(FieldCommands(log, event, s, p, n, r) + rest.commands, rest.relocs, [key] + rest.fields)
      else
        var rest := Data(log, event, s, p + 1, end, relocs);
        Part(Stored(log, event, s, p, 1) + rest.commands, rest.relocs, rest.fields)
  }

  /** An entry point symbol record: where its mask is. */
  datatype Entry = Entry(name: string, sect: nat, offset: word, mask: word)

  /** sect and loc are the linker's location as the commands so far leave it. */
  datatype Emitter = Emitter(
    sect: Option<nat>, loc: word, absStart: bool, relocs: Relocations, commands: seq<Command>, fields: seq<Key>,
    entries: seq<Entry>)

  function Emitted(em: Emitter, commands: seq<Command>): Emitter {
    em.(commands := em.commands + commands)
  }

  function SetLocation(s: nat, offset: word): seq<Command> {
    [StackPsectOffset(s, offset, false), SetRelocBase]
  }

  /** flushAbsStart */
  function FlushAbsStart(em: Emitter, skip: bool): Emitter {
    if !em.absStart then em
    else if skip then em.(absStart := false)
    else Emitted(em.(absStart := false), SetLocation(0, 0))
  }

  function StoreOfSize(size: word): StoreKind {
    if size == 1 then StoreByte else if size == 2 then StoreWord else StoreLong
  }

  function ConstantCommands(value: word, store: StoreKind): seq<Command> {
    [StackConstant(value), Store(store)]
  }

  function PatchCommands(loc: word, offset: word, size: word, value: word, immediate: bool): seq<Command>
    requires size <= 4
  {
    [AugmentRelocBase(Wrap(offset - loc))]
    + (if immediate then [StoreImmediate(LittleEndian(value, size))] else ConstantCommands(value, StoreOfSize(size)))
    + [AugmentRelocBase(Wrap(loc - offset - size))]
  }

  /** entryPoint */
  function EntryOf(form: ConstForm, s: nat, offset: word, value: word): seq<Entry> {
    if form.EntryMask? then [Entry(form.name, s, offset, value % 0x1_0000)] else []
  }

  /** event, once flushAbsStart has had its say: it moves an absolute psect's location without a command. */
  function Told(log: Log, absolute: set<nat>, k: nat, em: Emitter): Emitter
    requires k < |log.events|
  {
    match log.events[k]
    case Switch(s, offset, _) =>
      var here := em.(sect := Some(s), loc := offset);
      if s == 0 then here.(absStart := true)
      else if s !in absolute then Emitted(here, SetLocation(s, offset))
      else here
    case SetTo(s, offset) =>
      Emitted(em, if s !in absolute then [AugmentRelocBase(Wrap(offset - em.loc))] else []).(loc := offset)
    case Gap(s, n) =>
      Emitted(em, if s !in absolute then [AugmentRelocBase(n)] else []).(loc := Wrap(em.loc + n))
    case DataAt(s, offset, size) =>
      var part := Data(log, k, s, offset, offset + size, em.relocs);
      Emitted(em, part.commands).(loc := Wrap(offset + size), relocs := part.relocs, fields := em.fields + part.fields)
    case ConstAt(s, offset, size, value, form) =>
      Emitted(em, ConstantCommands(value, if form.SignedByte? then StoreSignedByte else StoreOfSize(size))).(
        loc := Wrap(em.loc + size), entries := em.entries + EntryOf(form, s, offset, value))
    case PatchAt(s, offset, size, value, immediate) =>
      if size <= 4 then Emitted(em, PatchCommands(em.loc, offset, size, value, immediate)) else em
  }

  /** event */
  function Tell(log: Log, absolute: set<nat>, k: nat, em: Emitter): Emitter
    requires k < |log.events|
  {
    var e := log.events[k];
    Told(log, absolute, k, if e.Switch? && em.sect.None? then em else FlushAbsStart(em, e.Switch? && e.implicit))
  }

  /** The object, its first n events written. */
  function Replayed(log: Log, absolute: set<nat>, n: nat): Emitter
    requires n <= |log.events|
  {
    if n == 0 then Emitter(None, 0, false, RelocationsOf(log, |log.fixes|), [], [], [])
    else Tell(log, absolute, n - 1, Replayed(log, absolute, n - 1))
  }

  /** The whole object. */
  function Object(log: Log, absolute: set<nat>): Emitter {
    FlushAbsStart(Replayed(log, absolute, |log.events|), false)
  }
}
