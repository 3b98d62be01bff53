/** The console-dialect assembler's state, changed in place as symbol.go, section.go and overwrite.go change it. */
module AssemblerState {
  import opened Words
  import opened Expressions
  import opened TwoPass
  import opened OnePass
  import opened ForwardLists
  import opened Backpatch
  import opened Passes

  /** A fixup on some list waits. */
  lemma ListedWaits(a: Asm, key: string, k: nat)
    requires Linked(a) && key in a.symbols && k < |a.symbols[key].forward|
    ensures a.symbols[key].forward[k] < |a.fixups| && a.fixups[a.symbols[key].forward[k]].pending > 0
  {
    var i := a.symbols[key].forward[k];
    assert key in Awaited(a, i);
  }

  /** And a waiting fixup is on some list. */
  lemma WaitingListed(a: Asm, i: nat) returns (key: string)
    requires Linked(a) && i < |a.fixups| && a.fixups[i].pending > 0
    ensures key in a.symbols && i in a.symbols[key].forward
  {
    assert Awaited(a, i) != {};
    key :| key in Awaited(a, i);
  }

  /** The location counter's offset, before and after n bytes. */
  lemma WrapWord(w: word)
    ensures Wrap(w) == w
  {
  }

  lemma OffsetOfPc(base: word, loc: word, n: nat)
    ensures Wrap(Wrap(base + loc) - base) == loc
    ensures Wrap(Wrap(base + loc) + n) == Wrap(base + Wrap(loc + n))
  {
    hide Wrap;
    WrapSum(base + loc, 0 - base);
    WrapSum(base + loc, n);
    WrapSum(loc + n, base);
    WrapWord(loc);
  }

  class Assembler {
    const base: word
    var loc: word
    var caseBase: word
    var stmt: nat
    var symbols: Symbols
    var fixups: seq<Fixup>
    var image: Memory
    var owners: Owners

    /** The same state as a value, with the log of stores and definitions that led to it. */
    ghost var spec: Asm

    ghost predicate Matches()
      reads this
    {
      && spec.base == base && spec.lay.pc == Wrap(base + loc) && spec.lay.caseBase == caseBase && spec.lay.stmt == stmt
      && spec.symbols == symbols && spec.fixups == fixups && spec.image == image && spec.owners == owners
    }

    ghost predicate Valid()
      reads this
    {
      Matches() && Linked(spec)
    }

    constructor (base: word, start: word)
      ensures Valid() && spec == Start(base, start) && this.base == base
    {
      this.base := base;
      loc := Wrap(start - base);
      caseBase, stmt := 0, 0;
      symbols, fixups, image, owners := map[], [], map[], map[];
      spec := Start(base, start);
      new;
      WrapSum(start - base, base);
    }

    function Pc(): word
      reads this
    {
      Wrap(base + loc)
    }

    /** The symbols with a value (symbol.defined). */
    function Defined(): (defs: Definitions)
      reads this
      ensures Valid() ==> defs == spec.lay.defs
    {
      map key | key in symbols && symbols[key].forward == [] :: Absolute(symbols[key].value)
    }

    /** The symbols an expression without forward references may use. */
    function Known(): (defs: Definitions)
      reads this
      ensures Valid() ==> defs == Usable(spec.lay)
    {
      map key | key in symbols :: if symbols[key].forward == [] then Absolute(symbols[key].value) else Absolute(0)
    }

    // ---- Stores ----

    /** Marks the fixups of one symbol's list that a store reaches. */
    method SupersedeList(list: seq<nat>, lo: word, hi: word)
      requires forall k :: 0 <= k < |list| ==> list[k] < |fixups| && fixups[list[k]].pending > 0
      modifies this`fixups
      ensures |fixups| == |old(fixups)|
      ensures forall i :: 0 <= i < |fixups| ==>
                fixups[i] == if i in list then Superseded(old(fixups)[i], lo, hi, stmt) else old(fixups)[i]
    {
      for n := 0 to |list|
        invariant |fixups| == |old(fixups)|
        invariant forall i :: 0 <= i < |fixups| ==>
                    fixups[i] == if i in list[..n] then Superseded(old(fixups)[i], lo, hi, stmt) else old(fixups)[i]
      {
        var f := fixups[list[n]];
        if Overlaps(f, lo, hi, stmt) {
          fixups := fixups[list[n] := f.(dead := true)];
        }
        assert list[..n + 1] == list[..n] + [list[n]];
      }
      assert list[..|list|] == list;
    }

    /** supersede: every waiting fixup of another statement whose field the store reaches. */
    method SupersedeOverlapped(lo: word, hi: word)
      requires Linked(spec) && spec.symbols == symbols && spec.fixups == fixups
      modifies this`fixups
      ensures fixups == Supersede(old(fixups), lo, hi, stmt)
    {
      hide Linked, Overlaps;
      var names := symbols.Keys;
      ghost var all := fixups;
      while names != {}
        invariant names <= symbols.Keys
        invariant |fixups| == |all|
        invariant forall i :: 0 <= i < |all| ==> fixups[i] == all[i] || fixups[i] == Superseded(all[i], lo, hi, stmt)
        invariant forall key, i :: key in symbols && key !in names && i in symbols[key].forward && i < |all| ==>
                    fixups[i] == Superseded(all[i], lo, hi, stmt)
        decreases |names|
      {
        var key :| key in names;
        forall k | 0 <= k < |symbols[key].forward|
          ensures symbols[key].forward[k] < |fixups| && fixups[symbols[key].forward[k]].pending > 0
        {
          ListedWaits(spec, key, k);
        }
        SupersedeList(symbols[key].forward, lo, hi);
        names := names - {key};
      }
      forall i | 0 <= i < |all|
        ensures fixups[i] == Superseded(all[i], lo, hi, stmt)
      {
        if all[i].pending > 0 {
          var key := WaitingListed(spec, i);
        }
      }
    }

    /** claim: records who stored the bytes, and supersedes what another statement left to fill in among them. */
    method ClaimBytes(lo: word, hi: word)
      requires Linked(spec) && spec.symbols == symbols && spec.fixups == fixups
      modifies this`owners, this`fixups
      ensures owners == Claim(old(owners), lo, hi, stmt)
      ensures fixups == if Overwrites(old(owners), lo, hi, stmt) then Supersede(old(fixups), lo, hi, stmt)
                else old(fixups)
    {
      var overwritten := false;
      var p: word := lo;
      while p < hi
        invariant lo <= p && (p <= hi || p == lo)
        invariant fixups == old(fixups)
        invariant Claim(owners, p, hi, stmt) == Claim(old(owners), lo, hi, stmt)
        invariant forall q: word :: p <= q ==> History(owners, q) == History(old(owners), q)
        invariant overwritten <==> exists q: word | lo <= q < p :: OwnedByOther(old(owners), q, stmt)
        decreases hi - p
      {
        if OwnedByOther(owners, p, stmt) {
          overwritten := true;
          assert OwnedByOther(old(owners), p, stmt);
        }
        owners := owners[p := History(owners, p) + [stmt]];
        p := p + 1;
      }
      if overwritten {
        SupersedeOverlapped(lo, hi);
      }
    }

    /** Stores data at the location counter and moves past it. */
    method EmitBytes(data: seq<octet>, ghost s: Stored)
      requires Valid() && |data| == StoredSize(s)
      modifies this
      ensures Valid() && spec == StoreBytes(old(spec), s, data)
    {
      hide Write, Claim, Supersede, Overwrites, Wrap, Linked, TablesAgree;
      EmitImage(data);
      var hi := Wrap(loc + |data|);
      OffsetOfPc(base, loc, |data|);
      ClaimBytes(loc, hi);
      loc := hi;
      spec := StoreBytes(spec, s, data);
      StoreKeepsLinks(old(spec), s, data);
      SameLinksLinked(old(spec), spec);
    }

    method EmitImage(data: seq<octet>)
      modifies this`image
      ensures image == Write(old(image), Pc(), data)
    {
      var p := Pc();
      var i := 0;
      while i < |data|
        invariant 0 <= i <= |data| && p == Wrap(Pc() + i)
        invariant Write(image, p, data[i..]) == Write(old(image), Pc(), data)
      {
        assert data[i..][1..] == data[i + 1..];
        image := image[p := data[i]];
        p := Wrap((p as int) + 1);
        i := i + 1;
        WrapSum(Pc() + i - 1, 1);
      }
    }

    // ---- Fixups ----

    /** Hangs fixup i on each symbol in keys; how many it waits on. */
    method AttachTo(keys: seq<string>, i: nat) returns (pending: nat)
      modifies this`symbols
      ensures (symbols, pending) == Attach(old(symbols), keys, i)
    {
      pending := 0;
      var n := 0;
      while n < |keys|
        invariant 0 <= n <= |keys|
        invariant var (rest, more) := Attach(symbols, keys[n..], i);
                  (rest, pending + more) == Attach(old(symbols), keys, i)
      {
        assert keys[n..][1..] == keys[n + 1..];
        var sym := if keys[n] in symbols then symbols[keys[n]] else Symbol(0, []);
        if sym.forward == [] || sym.forward[0] != i {
          symbols := symbols[keys[n] := sym.(forward := [i] + sym.forward)];
          pending := pending + 1;
        }
        n := n + 1;
      }
    }

    /** queueFixup: f, for a value whose symbols are not all defined, is hung on each of them. */
    method Queue(f: Fixup)
      requires Valid() && forall key :: key in LeafSet(f.expr) ==> key !in spec.lay.defs
      modifies this
      ensures Valid() && spec == QueueFixup(old(spec), f)
    {
      hide Linked, Attach, LeafSet;
      QueueKeepsLinked(spec, f);
      var pending := AttachTo(Leaves(f.expr), |fixups|);
      fixups := fixups + [f.(pending := pending)];
      spec := QueueFixup(spec, f);
    }

    /** completeFixup and applyFixup: stores fixup i's value, now that it is known, unless it was superseded. */
    method CompleteOne(i: nat) returns (ok: bool)
      requires Matches() && TablesAgree(spec) && i < |fixups|
      modifies this`image, this`spec
      ensures ok <==> CompleteFixup(old(spec), i).Some?
      ensures ok ==> Matches() && spec == CompleteFixup(old(spec), i).value
    {
      hide Write, Resolved, FixupFits, FieldBytes;
      var f := fixups[i];
      var defs := map key | key in symbols && symbols[key].forward == [] :: Absolute(symbols[key].value);
      assert defs == spec.lay.defs;
      match Resolved(f.expr, defs)
      case Const(v) =>
        if f.dead {
          return true;
        }
        if !FixupFits(f.kind, f.at, f.base, v) {
          return false;
        }
        StoreField(f.at, FieldBytes(f.kind, f.at, f.base, v));
        spec := spec.(image := image);
        return true;
      case _ =>
        return false;
    }

    /** storeByte, storeWord or storeLongword at an address of its own. */
    method StoreField(at: word, data: seq<octet>)
      modifies this`image
      ensures image == Write(old(image), at, data)
    {
      var p := at;
      var i := 0;
      while i < |data|
        invariant 0 <= i <= |data|
        invariant Write(image, p, data[i..]) == Write(old(image), at, data)
      {
        assert data[i..][1..] == data[i + 1..];
        image := image[p := data[i]];
        p := Wrap((p as int) + 1);
        i := i + 1;
      }
    }

    /** setSymbolIn: defines name, and completes the fixups that waited on nothing else. */
    method SetSymbol(name: string, v: word, ghost e: Term) returns (ok: bool)
      requires Valid()
      modifies this
      ensures ok <==> Define(old(spec), name, v, e).Some?
      ensures ok ==> Valid() && spec == Define(old(spec), name, v, e).value
    {
      ghost var was := spec;
      hide TablesAgree, ListsSound, ListsComplete, Counted, Told, Complete;
      LinkedInRange(spec);
      SetSymbolTables(spec, name, v, e);
      SetSymbolCounts(spec, name, v, e);
      if Define(was, name, v, e).Some? {
        DefineKeepsLinked(was, name, v, e);
      }
      var waiting := WaitersOn(symbols, name);
      symbols := symbols[name := Symbol(v, [])];
      spec := OnePass.SetSymbol(spec, name, v, e);
      ok := Tell(waiting);
    }

    /** The loop over the fixups a definition's symbol was holding up. */
    method Tell(waiting: seq<nat>) returns (ok: bool)
      requires Matches() && TablesAgree(spec) && ListsSound(spec) && ListsComplete(spec)
      requires Told(spec, waiting) && Counted(spec, waiting)
      modifies this`fixups, this`image, this`spec
      ensures ok <==> Complete(old(spec), waiting).Some?
      ensures ok ==> Valid() && spec == Complete(old(spec), waiting).value
    {
      hide TablesAgree, ListsSound, ListsComplete, Counted, Complete, Backpatch.Tell;
      for n := 0 to |waiting|
        invariant Matches() && TablesAgree(spec) && ListsSound(spec) && ListsComplete(spec)
        invariant Told(spec, waiting[n..]) && Counted(spec, waiting[n..])
        invariant Complete(spec, waiting[n..]) == Complete(old(spec), waiting)
      {
        ghost var rest := waiting[n..];
        assert rest != [] && rest[0] == waiting[n] && rest[1..] == waiting[n + 1..];
        ghost var was := spec;
        CompleteTells(was, rest);
        FirstWaits(was, rest);
        ok := TellOne(waiting[n]);
        if !ok {
          return;
        }
        TellKeepsLists(was, rest);
      }
      ok := true;
      assert waiting[|waiting|..] == [];
      CompleteNone(spec, waiting[|waiting|..]);
    }

    /** One fixup told that a symbol it waited on is defined. */
    method TellOne(i: nat) returns (ok: bool)
      requires Matches() && TablesAgree(spec) && ListsSound(spec) && ListsComplete(spec)
      requires i < |fixups| && fixups[i].pending > 0
      modifies this`fixups, this`image, this`spec
      ensures ok <==> Backpatch.Tell(old(spec), i).Some?
      ensures ok ==> Matches() && spec == Backpatch.Tell(old(spec), i).value
    {
      hide TablesAgree, ListsSound, ListsComplete, CompleteFixup;
      DecrementKeepsLists(spec, i);
      fixups := fixups[i := fixups[i].(pending := fixups[i].pending - 1)];
      spec := Decrement(spec, i);
      if fixups[i].pending > 0 {
        return true;
      }
      ok := CompleteOne(i);
    }

    // ---- Statements ----

    /** A field whose value was read as x: stored now, or left to a fixup with ph in its place. */
    method EmitField(kind: FieldKind, x: ExprVal, ghost e: Term, ghost here: word, ph: word)
      requires Valid() && forall key :: key in Waits(x) ==> key !in spec.lay.defs
      modifies this
      ensures Valid() && spec == OnePass.StoreField(old(spec), kind, x, e, here, ph)
      ensures spec.lay.defs == old(spec.lay.defs)
    {
      StoreFieldKeepsLinked(spec, kind, x, e, here, ph);
      hide StoreBytes, QueueFixup, FieldBytes, LittleEndian, Linked, LeafSet;
      ghost var s := FieldAt(spec.lay, kind, x, e, here, ph);
      var at := Pc();
      match x
      case Known(v, _) => EmitBytes(FieldBytes(kind, at, caseBase, v), s);
      case Unknown(t) =>
        ghost var data := LittleEndian(ph, FieldSize(kind));
        StoreKeepsLinks(spec, s, data);
        EmitBytes(LittleEndian(ph, FieldSize(kind)), s);
        Queue(Fixup(at, kind, caseBase, t, 0, stmt, false));
    }

    method EmitLiteral(data: seq<octet>)
      requires Valid()
      modifies this
      ensures Valid() && spec == StoreLiteral(old(spec), data) && spec.lay.defs == old(spec.lay.defs)
    {
      StoreLiteralKeepsLinked(spec, data);
      hide StoreBytes, Linked;
      EmitBytes(data, Literal(stmt, Pc(), data));
    }

    /** A repeated datum: each copy of a value not known yet gets a fixup of its own. */
    method EmitCopies(kind: FieldKind, x: ExprVal, ghost e: Term, ghost here: word, ph: word, count: nat)
      requires Valid() && forall key :: key in Waits(x) ==> key !in spec.lay.defs
      modifies this
      ensures Valid() && spec == StoreCopies(old(spec), kind, x, e, here, ph, count)
    {
      hide Linked, OnePass.StoreField, Waits;
      for n := 0 to count
        invariant Valid() && spec.lay.defs == old(spec.lay.defs)
        invariant spec == StoreCopies(old(spec), kind, x, e, here, ph, n)
      {
        EmitField(kind, x, e, here, ph);
      }
    }

    /** A value read and checked, stored as its item says. */
    method EmitValue(item: Item, x: ExprVal)
      requires Valid() && forall key :: key in Waits(x) ==> key !in spec.lay.defs
      modifies this
      ensures Valid() && spec == StoreValue(old(spec), item, x)
    {
      hide Linked, OnePass.StoreField, StoreLiteral, StoreCopies, Waits, Placeholder;
      var here := Pc();
      match item
      case Raw(data) => EmitLiteral(data);
      case Data(w, e, count) => EmitCopies(Address(w), x, e, here, Placeholder(AsTree(x)), count);
      case Branch(w, e) => EmitField(BranchField(w), x, e, here, Wrap(Placeholder(AsTree(x)) - here - Bytes(w)));
      case CaseEntry(e) => EmitField(CaseField, x, e, here, 0);
      case Relative(deferred, size, e) =>
        var w := RelativeSize(x, size, Wrap((here as int) + 1));
        EmitLiteral([ModeByte(w, deferred, 15)]);
        EmitField(Displacement(w), x, e, here, 0);
      case Register(deferred, reg, size, e) =>
        var w := RegisterSize(x, size);
        EmitLiteral([ModeByte(w, deferred, reg)]);
        EmitField(Address(w), x, e, here, 0);
    }

    method EmitItem(item: Item) returns (ok: bool)
      requires Valid()
      modifies this
      ensures ok <==> StepItem(old(spec), item).Some?
      ensures ok ==> Valid() && spec == StepItem(old(spec), item).value
    {
      hide Linked, StoreValue, Waits, Evaluate;
      match Evaluate(ItemTerm(item), Console, Defined(), Absolute(Pc()))
      case Err(_) => return false;
      case Ok(x) =>
        if x.Known? && !ReadFits(Pc(), caseBase, item, x.v) {
          return false;
        }
        ReadWaits(spec.lay, item);
        EmitValue(item, x);
        return true;
    }

    method EmitItems(items: seq<Item>) returns (ok: bool)
      requires Valid()
      modifies this
      ensures ok <==> StepItems(old(spec), items).Some?
      ensures ok ==> Valid() && spec == StepItems(old(spec), items).value
    {
      hide Linked, StepItem;
      for n := 0 to |items|
        invariant Valid() && StepItems(old(spec), items[..n]) == Some(spec)
      {
        assert items[..n + 1][..n] == items[..n];
        ok := EmitItem(items[n]);
        if !ok {
          ItemsFail(old(spec), items, n + 1);
          return;
        }
      }
      assert items[..|items|] == items;
      ok := true;
    }

    /** exprNoForward: a value now, or an error. */
    method ReadKnown(e: Term) returns (v: Option<word>)
      requires Valid()
      ensures v == ReadNow(spec.lay, e)
    {
      hide Evaluate, Linked;
      var known := Known();
      if !(Names(e) <= known.Keys) {
        return None;
      }
      match Evaluate(e, Console, known, Absolute(Pc()))
      case Ok(Known(w, _)) => return Some(w);
      case _ => return None;
    }

    method IsDefined(name: string) returns (defined: bool)
      requires Valid()
      ensures defined <==> name in spec.lay.defs
    {
      defined := name in symbols && symbols[name].forward == [];
    }

    method Step(s: Statement) returns (ok: bool)
      requires Valid()
      modifies this
      ensures ok <==> StepStatement(old(spec), s).Some?
      ensures ok ==> Valid() && spec == StepStatement(old(spec), s).value
    {
      stmt := stmt + 1;
      SameLinksLinked(spec, NextStatement(spec));
      spec := NextStatement(spec);
      hide Linked, SameLinks, Define, StepItems, ReadNow, NextStatement;
      match s
      case Label(name) =>
        var duplicate := IsDefined(name);
        if duplicate {
          return false;
        }
        ok := SetSymbol(name, Pc(), Here);
      case Assign(name, e) =>
        var v := ReadKnown(e);
        match v {
          case None => return false;
          case Some(w) => ok := SetSymbol(name, w, e);
        }
      case Origin(e) =>
        var v := ReadKnown(e);
        match v {
          case None => return false;
          case Some(w) =>
            MoveTo(w);
            ok := true;
        }
      case Store(isCase, items) =>
        StartStore(isCase);
        ok := EmitItems(items);
    }

    /** setPC. */
    method MoveTo(pc: word)
      requires Valid()
      modifies this
      ensures Valid() && spec == old(spec).(lay := old(spec).lay.(pc := pc))
    {
      WrapSum(pc - base, base);
      hide Linked;
      loc := Wrap(pc - base);
      ghost var moved := spec.(lay := spec.lay.(pc := pc));
      SameLinksLinked(spec, moved);
      spec := moved;
    }

    /** A .CASE statement goes on with the table it belongs to; any other empties the table's base. */
    method StartStore(isCase: bool)
      requires Valid()
      modifies this
      ensures Valid() && spec == old(spec).(lay := LayCaseBase(old(spec).lay, isCase))
    {
      if !isCase {
        caseBase := 0;
      } else if caseBase == 0 {
        caseBase := Pc();
      }
      ghost var started := spec.(lay := LayCaseBase(spec.lay, isCase));
      SameLinksLinked(spec, started);
      spec := started;
    }
  }

  lemma {:induction false} ItemsFail(a: Asm, items: seq<Item>, n: nat)
    requires n <= |items| && StepItems(a, items[..n]).None?
    ensures StepItems(a, items).None?
    decreases |items| - n
  {
    if n == |items| {
      assert items[..n] == items;
    } else {
      assert items[..n + 1][..n] == items[..n];
      ItemsFail(a, items, n + 1);
    }
  }

  lemma {:induction false} ProgramFails(program: seq<Statement>, base: word, start: word, n: nat)
    requires n <= |program| && OnePass.Assemble(program[..n], base, start).None?
    ensures OnePass.Assemble(program, base, start).None?
    decreases |program| - n
  {
    if n == |program| {
      assert program[..n] == program;
    } else {
      assert program[..n + 1][..n] == program[..n];
      ProgramFails(program, base, start, n + 1);
    }
  }

  /**
   * Assembles program in one pass. Where it reports no error the image is the one two passes store exactly under the
   * condition of Passes.OnePassIsTwoPass.
   */
  method AssembleSource(program: seq<Statement>, base: word, start: word) returns (ok: bool, a: Assembler)
    ensures ok <==> OnePass.Assemble(program, base, start).Some?
    ensures ok ==> a.Valid() && a.spec == OnePass.Assemble(program, base, start).value
    ensures ok && Clean(PassOne(program, start)) ==>
              var lay := PassOne(program, start);
              (forall p: word :: At(a.image, p) == At(PassTwo(lay.log, TableEnv(lay.defs)), p))
              <==> forall p: word :: RightAnyway(lay, base, TableEnv(lay.defs), p)
    ensures fresh(a)
  {
    hide StepStatement, Linked, Clean, RightAnyway, PassTwo, TableEnv;
    a := new Assembler(base, start);
    for n := 0 to |program|
      invariant fresh(a) && a.Valid() && OnePass.Assemble(program[..n], base, start) == Some(a.spec)
    {
      assert program[..n + 1][..n] == program[..n];
      ok := a.Step(program[n]);
      if !ok {
        ProgramFails(program, base, start, n + 1);
        return;
      }
    }
    assert program[..|program|] == program;
    ok := true;
    if Clean(PassOne(program, start)) {
      OnePassIsTwoPass(program, base, start);
    }
  }

  lemma FirstWaits(a: Asm, ws: seq<nat>)
    requires ws != [] && Told(a, ws) && Counted(a, ws)
    ensures a.fixups[ws[0]].pending > 0
  {
  }

  lemma CompleteNone(a: Asm, ws: seq<nat>)
    requires ws == []
    ensures Complete(a, ws) == Some(a)
  {
  }
}
