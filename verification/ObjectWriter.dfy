/**
 The emitter, which writes the object in place: its location, the relocations still to be written, and the commands so
 far.
 */
module ObjectWriter {
  import opened Words
  import opened Expressions
  import opened Linker
  import opened Output
  import opened Emission

  /** storedBy */
  method FindStoredBy(owners: Owners, p: Cell, stmt: nat) returns (event: int)
    ensures event == StoredBy(owners, p, stmt)
  {
    var h := History(owners, p);
    var i := |h|;
    assert h[..i] == h;
    while i > 0
      invariant 0 <= i <= |h| && LastBy(h[..i], stmt) == LastBy(h, stmt)
    {
      assert h[..i][..i - 1] == h[..i - 1];
      if h[i - 1].stmt == stmt {
        return h[i - 1].event;
      }
      i := i - 1;
    }
    return -1;
  }

  /** The relocations, by where and by which event their fields were stored. */
  method FindRelocations(log: Log) returns (relocs: Relocations)
    ensures relocs == RelocationsOf(log, |log.fixes|)
  {
    hide History, StoredBy;
    relocs := map[];
    for i := 0 to |log.fixes|
      invariant relocs == RelocationsOf(log, i)
    {
      var f := log.fixes[i];
      if f.outcome.Left? {
        var event := FindStoredBy(log.owners, Cell(f.sect, f.at), f.stmt);
        relocs := relocs[Key(f.sect, f.at, event) := Relocation(f.kind, f.prefix, f.outcome.expr)];
      }
    }
  }

  lemma Joined<T>(before: seq<T>, whole: seq<T>, written: seq<T>, part: seq<T>, rest: seq<T>)
    requires before + whole == written + (part + rest)
    ensures before + whole == written + part + rest
  {
  }

  class Writer {
    const log: Log
    const absolute: set<nat>
    var sect: Option<nat>
    var loc: word
    var absStart: bool
    var relocs: Relocations
    var commands: seq<Command>
    ghost var fields: seq<Key>
    var entries: seq<Entry>
    var index: nat

    /** The state as a value. */
    ghost function View(): Emitter
      reads this
    {
      Emitter(sect, loc, absStart, relocs, commands, fields, entries)
    }

    constructor (log: Log, absolute: set<nat>)
      ensures this.log == log && this.absolute == absolute && View() == Replayed(log, absolute, 0)
    {
      this.log, this.absolute := log, absolute;
      sect, loc, absStart, commands, fields, entries, index := None, 0, false, [], [], [], 0;
      var found := FindRelocations(log);
      relocs := found;
    }

    method Emit(more: seq<Command>)
      modifies this`commands
      ensures commands == old(commands) + more
    {
      commands := commands + more;
    }

    method StackProgram(t: Tree)
      modifies this`commands
      ensures commands == old(commands) + Program(t)
      decreases t
    {
      match t
      case Const(v) => Emit([StackConstant(v)]);
      case Base(s, offset, dot) => Emit([StackPsectOffset(s, offset, dot)]);
      case Sym(key) => Emit([StackGlobal(key)]);
      case Mask(entry) => Emit([StackEntryMask(entry)]);
      case Neg(l) =>
        StackProgram(l);
        Emit([OperateNegate]);
      case Com(l) =>
        StackProgram(l);
        Emit([OperateComplement]);
      case Binary(op, l, r) =>
        StackProgram(l);
        StackProgram(r);
        Emit([Operate(op)]);
    }

    method FlushAbs(skip: bool)
      modifies this`absStart, this`commands
      ensures View() == FlushAbsStart(old(View()), skip)
    {
      if !absStart {
        return;
      }
      absStart := false;
      if !skip {
        Emit(SetLocation(0, 0));
      }
    }

    /** byteAt */
    method ByteOf(p: Cell) returns (b: octet)
      ensures b == ByteAt(log, index, p)
    {
      var h := History(log.owners, p);
      var i := |h|;
      while i > 0
        invariant 0 <= i <= |h| && ByteFrom(h, i, index, ByteIn(log.image, p)) == ByteAt(log, index, p)
      {
        if h[i - 1].event == index {
          if i == |h| {
            break;
          }
          return h[i - 1].value;
        }
        i := i - 1;
      }
      return ByteIn(log.image, p);
    }

    /** prefixedAt */
    method PrefixedAt(s: nat, p: int, end: int) returns (n: nat)
      ensures n == PrefixAt(relocs, s, p, end, index)
    {
      n := 1;
      while n <= 2 && p + n < end
        invariant 1 <= n <= 3
        invariant n > 1 && p + 1 < end && Key(s, p + 1, index) in relocs ==> relocs[Key(s, p + 1, index)].prefix != 1
        invariant n > 2 && p + 2 < end && Key(s, p + 2, index) in relocs ==> relocs[Key(s, p + 2, index)].prefix != 2
      {
        var key := Key(s, p + n, index);
        if key in relocs && relocs[key].prefix == n {
          return;
        }
        n := n + 1;
      }
      n := 0;
    }

    /** The bytes of an operand specifier before its field. */
    method StoreBytes(s: nat, p: int, n: nat)
      modifies this`commands
      ensures commands == old(commands) + Stored(log, index, s, p, n)
    {
      hide ByteAt;
      for j := 0 to n
        invariant commands == old(commands) + Stored(log, index, s, p, j)
      {
        var b := ByteOf(Cell(s, p + j));
        Emit([StoreImmediate([b])]);
      }
    }

    /** A relocation whose operand specifier starts at p. */
    method WriteField(s: nat, p: int, n: nat)
      requires Key(s, p + n, index) in relocs
      modifies this`commands, this`relocs, this`fields
      ensures var key := Key(s, p + n, index);
              && commands == old(commands) + FieldCommands(log, index, s, p, n, old(relocs)[key])
              && relocs == old(relocs) - {key} && fields == old(fields) + [key]
    {
      hide Stored, Program;
      var key := Key(s, p + n, index);
      var r := relocs[key];
      StackProgram(r.expr);
      StoreBytes(s, p, n);
      relocs := relocs - {key};
      fields := fields + [key];
      Emit([Store(StoreOf(r.kind))]);
    }

    /** What is written, and what data would still write from p on, make up the whole event. */
    ghost predicate Partly(s: nat, p: int, end: int, whole: Part, before: seq<Command>, told: seq<Key>)
      reads this
    {
      var rest := Data(log, index, s, p, end, relocs);
      && before + whole.commands == commands + rest.commands && whole.relocs == rest.relocs
      && told + whole.fields == fields + rest.fields
    }

    /** data */
    method WriteData(s: nat, offset: word, size: word)
      modifies this`commands, this`relocs, this`fields, this`loc
      ensures var part := Data(log, index, s, offset, offset + size, old(relocs));
              View() == Emitted(old(View()), part.commands).(
                loc := Wrap(offset + size), relocs := part.relocs, fields := old(fields) + part.fields)
    {
      hide Stored, ByteAt, PrefixAt, Program, FieldCommands;
      var p, end := offset as int, offset + size;
      ghost var whole := Data(log, index, s, p, end, relocs);
      while p < end
        invariant Partly(s, p, end, whole, old(commands), old(fields))
      {
        ghost var written, told := commands, fields;
        var n := PrefixedAt(s, p, end);
        var key := Key(s, p + n, index);
        if key in relocs {
          var r := relocs[key];
          WriteField(s, p, n);
          p := p + n + KindSize(r.kind);
          ghost var rest := Data(log, index, s, p, end, relocs);
          Joined(old(commands), whole.commands, written, FieldCommands(log, index, s, p - n - KindSize(r.kind), n, r),
            rest.commands);
          Joined(old(fields), whole.fields, told, [key], rest.fields);
        } else {
          StoreBytes(s, p, 1);
          p := p + 1;
          ghost var rest := Data(log, index, s, p, end, relocs);
          Joined(old(commands), whole.commands, written, Stored(log, index, s, p - 1, 1), rest.commands);
        }
      }
      loc := Wrap(offset + size);
    }

    method WriteTold()
      requires index < |log.events|
      modifies this`sect, this`loc, this`absStart, this`commands, this`relocs, this`fields, this`entries
      ensures View() == Told(log, absolute, index, old(View()))
    {
      hide Data, SetLocation, ConstantCommands, PatchCommands;
      assert commands == commands + [];
      match log.events[index]
      case Switch(s, offset, _) =>
        sect, loc := Some(s), offset;
        if s == 0 {
          absStart := true;
        } else if s !in absolute {
          Emit(SetLocation(s, offset));
        }
      case SetTo(s, offset) =>
        if s !in absolute {
          Emit([AugmentRelocBase(Wrap(offset - loc))]);
        }
        loc := offset;
      case Gap(s, n) =>
        if s !in absolute {
          Emit([AugmentRelocBase(n)]);
        }
        loc := Wrap(loc + n);
      case DataAt(s, offset, size) => WriteData(s, offset, size);
      case ConstAt(s, offset, size, value, form) =>
        Emit(ConstantCommands(value, if form.SignedByte? then StoreSignedByte else StoreOfSize(size)));
        entries := entries + EntryOf(form, s, offset, value);
        loc := Wrap(loc + size);
      case PatchAt(s, offset, size, value, immediate) =>
        if size <= 4 {
          Emit(PatchCommands(loc, offset, size, value, immediate));
        }
    }

    /** event */
    method WriteEvent()
      requires index < |log.events|
      modifies this
      ensures index == old(index) + 1 && View() == Tell(log, absolute, old(index), old(View()))
    {
      hide Told, FlushAbsStart;
      var e := log.events[index];
      if !e.Switch? || sect.Some? {
        FlushAbs(e.Switch? && e.implicit);
      }
      WriteTold();
      index := index + 1;
    }
  }

  /** Writes the whole object; leftover says how many relocations were outside any stored data, an internal error. */
  method WriteObject(log: Log, absolute: set<nat>) returns (commands: seq<Command>, entries: seq<Entry>, leftover: nat)
    ensures commands == Object(log, absolute).commands && entries == Object(log, absolute).entries
    ensures leftover == |Object(log, absolute).relocs|
  {
    hide Tell;
    var w := new Writer(log, absolute);
    w.index := 0;
    while w.index < |log.events|
      invariant w.log == log && w.absolute == absolute && w.index <= |log.events|
      invariant w.View() == Replayed(log, absolute, w.index)
      decreases |log.events| - w.index
    {
      w.WriteEvent();
    }
    w.FlushAbs(false);
    return w.commands, w.entries, |w.relocs|;
  }
}
