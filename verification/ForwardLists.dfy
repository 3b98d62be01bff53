/**
 The forward-list invariant: in every reachable state each waiting fixup counts the distinct undefined symbols of its
 tree, hangs exactly once on each of them and on nothing else, and is completed exactly once, by the definition that
 leaves it waiting on nothing.
 */
module ForwardLists {
  import opened Words
  import opened Expressions
  import opened TwoPass
  import opened OnePass

  ghost predicate Distinct(s: seq<nat>) {
    forall i, j :: 0 <= i < j < |s| ==> s[i] != s[j]
  }

  /** Falling, as the fixups in a list do: the last queued is at its head. */
  ghost predicate Falling(s: seq<nat>) {
    forall i, j :: 0 <= i < j < |s| ==> s[i] > s[j]
  }

  /** The symbols fixup i still waits on. */
  ghost function Awaited(a: Asm, i: nat): set<string>
    requires i < |a.fixups|
  {
    set key | key in LeafSet(a.fixups[i].expr) && WaitersOn(a.symbols, key) != []
  }

  /** The symbol table and the layout agree on what is defined, with what value, and what is waited on. */
  ghost predicate TablesAgree(a: Asm) {
    && (forall key :: key in a.lay.defs <==> key in a.symbols && a.symbols[key].forward == [])
    && (forall key :: key in a.lay.defs ==> a.lay.defs[key] == Absolute(a.symbols[key].value))
    && (forall key :: key in a.lay.waiting <==> key in a.symbols && a.symbols[key].forward != [])
  }

  /** Each list holds fixups that use its symbol, once each, the last queued first. */
  ghost predicate ListsSound(a: Asm) {
    forall key :: key in a.symbols ==>
      Falling(a.symbols[key].forward)
      && forall k :: 0 <= k < |a.symbols[key].forward| ==>
           a.symbols[key].forward[k] < |a.fixups|
           && key in LeafSet(a.fixups[a.symbols[key].forward[k]].expr)
  }

  /** Each fixup hangs on every undefined symbol it uses. */
  ghost predicate ListsComplete(a: Asm) {
    forall i, key :: 0 <= i < |a.fixups| && key in LeafSet(a.fixups[i].expr) ==>
      key in a.symbols && (a.symbols[key].forward != [] ==> i in a.symbols[key].forward)
  }

  /** pending counts the undefined symbols; the fixups in rest are still to be told of a symbol just defined. */
  ghost predicate Counted(a: Asm, rest: seq<nat>) {
    forall i :: 0 <= i < |a.fixups| ==>
      a.fixups[i].pending == |Awaited(a, i)| + if i in rest then 1 else 0
  }

  ghost predicate Linked(a: Asm) {
    TablesAgree(a) && ListsSound(a) && ListsComplete(a) && Counted(a, [])
  }

  lemma LinkedInRange(a: Asm)
    requires ListsSound(a)
    ensures ForwardInRange(a)
  {
  }

  // ---- Queueing ----

  /** What Attach does to one symbol's list: i is put at its head, if the symbol is used and i is not there yet. */
  function Hung(symbols: Symbols, keys: seq<string>, i: nat, key: string): seq<nat> {
    var forward := WaitersOn(symbols, key);
    if key in keys && (forward == [] || forward[0] != i) then [i] + forward else forward
  }

  /** The symbols among keys that fixup i does not head yet. */
  ghost function Unhung(symbols: Symbols, keys: seq<string>, i: nat): set<string> {
    set key | key in keys && (WaitersOn(symbols, key) == [] || WaitersOn(symbols, key)[0] != i)
  }

  /** r is symbols with i hung on each of keys, once. */
  ghost predicate HungOn(symbols: Symbols, keys: seq<string>, i: nat, r: Symbols) {
    && (forall key :: key in r <==> key in symbols || key in keys)
    && (forall key :: key in r ==> r[key].forward == Hung(symbols, keys, i, key))
    && (forall key :: key in r ==> r[key].value == if key in symbols then symbols[key].value else 0)
  }

  lemma {:induction false} AttachHangsOnce(symbols: Symbols, keys: seq<string>, i: nat)
    ensures var (r, n) := Attach(symbols, keys, i);
            n == |Unhung(symbols, keys, i)| && HungOn(symbols, keys, i, r)
    decreases |keys|
  {
    hide HungOn, Unhung;
    if keys == [] {
      NoneHung(symbols, i);
    } else {
      var key := keys[0];
      var sym := if key in symbols then symbols[key] else Symbol(0, []);
      if sym.forward == [] || sym.forward[0] != i {
        var next := symbols[key := sym.(forward := [i] + sym.forward)];
        AttachHangsOnce(next, keys[1..], i);
        UnhungStep(symbols, next, keys, i);
        HungNext(symbols, next, keys, i, Attach(next, keys[1..], i).0);
      } else {
        AttachHangsOnce(symbols, keys[1..], i);
        UnhungSame(symbols, keys, i);
        HungSame(symbols, keys, i, Attach(symbols, keys[1..], i).0);
      }
    }
  }

  lemma NoneHung(symbols: Symbols, i: nat)
    ensures Unhung(symbols, [], i) == {} && HungOn(symbols, [], i, symbols)
  {
  }

  lemma HungNext(symbols: Symbols, next: Symbols, keys: seq<string>, i: nat, r: Symbols)
    requires keys != [] && HungOn(next, keys[1..], i, r)
    requires var sym := if keys[0] in symbols then symbols[keys[0]] else Symbol(0, []);
             (sym.forward == [] || sym.forward[0] != i)
             && next == symbols[keys[0] := sym.(forward := [i] + sym.forward)]
    ensures HungOn(symbols, keys, i, r)
  {
    assert forall key :: key in keys <==> key == keys[0] || key in keys[1..];
  }

  lemma HungSame(symbols: Symbols, keys: seq<string>, i: nat, r: Symbols)
    requires keys != [] && HungOn(symbols, keys[1..], i, r)
    requires keys[0] in symbols && symbols[keys[0]].forward != [] && symbols[keys[0]].forward[0] == i
    ensures HungOn(symbols, keys, i, r)
  {
    assert forall key :: key in keys <==> key == keys[0] || key in keys[1..];
  }

  lemma UnhungSame(symbols: Symbols, keys: seq<string>, i: nat)
    requires keys != [] && WaitersOn(symbols, keys[0]) != [] && WaitersOn(symbols, keys[0])[0] == i
    ensures Unhung(symbols, keys, i) == Unhung(symbols, keys[1..], i)
  {
  }

  lemma UnhungStep(symbols: Symbols, next: Symbols, keys: seq<string>, i: nat)
    requires keys != []
    requires var forward := WaitersOn(symbols, keys[0]); forward == [] || forward[0] != i
    requires WaitersOn(next, keys[0]) == [i] + WaitersOn(symbols, keys[0])
    requires forall key :: key != keys[0] ==> WaitersOn(next, key) == WaitersOn(symbols, key)
    ensures |Unhung(symbols, keys, i)| == |Unhung(next, keys[1..], i)| + 1
  {
    assert Unhung(symbols, keys, i) == Unhung(next, keys[1..], i) + {keys[0]};
  }

  /** A new fixup heads no list. */
  lemma FreshHangs(a: Asm, keys: seq<string>, key: string)
    requires ListsSound(a)
    ensures Hung(a.symbols, keys, |a.fixups|, key)
            == if key in keys then [|a.fixups|] + WaitersOn(a.symbols, key) else WaitersOn(a.symbols, key)
  {
  }

  lemma QueueCounts(a: Asm, f: Fixup)
    requires ListsSound(a)
    ensures var b := QueueFixup(a, f);
            b.fixups[|a.fixups|].pending == |LeafSet(f.expr)|
  {
    AttachHangsOnce(a.symbols, Leaves(f.expr), |a.fixups|);
    forall key | key in Leaves(f.expr)
      ensures WaitersOn(a.symbols, key) == [] || WaitersOn(a.symbols, key)[0] != |a.fixups|
    {
    }
    assert Unhung(a.symbols, Leaves(f.expr), |a.fixups|) == LeafSet(f.expr);
  }

  lemma QueueLists(a: Asm, f: Fixup)
    requires ListsSound(a)
    ensures var b := QueueFixup(a, f);
            && (forall key :: key in b.symbols <==> key in a.symbols || key in LeafSet(f.expr))
            && (forall key :: key in b.symbols ==>
                  b.symbols[key].forward == (if key in LeafSet(f.expr) then [|a.fixups|] + WaitersOn(a.symbols, key)
                                             else WaitersOn(a.symbols, key))
                  && b.symbols[key].value == (if key in a.symbols then a.symbols[key].value else 0))
  {
    AttachHangsOnce(a.symbols, Leaves(f.expr), |a.fixups|);
    var b := QueueFixup(a, f);
    forall key | key in b.symbols
      ensures b.symbols[key].forward == if key in LeafSet(f.expr) then [|a.fixups|] + WaitersOn(a.symbols, key)
                                        else WaitersOn(a.symbols, key)
    {
      FreshHangs(a, Leaves(f.expr), key);
    }
  }

  /** b is a with one more fixup, which uses keys, hung at the head of each of their lists. */
  ghost predicate Queued(a: Asm, b: Asm, keys: set<string>) {
    && |b.fixups| == |a.fixups| + 1
    && (forall i :: 0 <= i < |a.fixups| ==> b.fixups[i] == a.fixups[i])
    && LeafSet(b.fixups[|a.fixups|].expr) == keys
    && b.fixups[|a.fixups|].pending == |keys|
    && (forall key :: key in b.symbols <==> key in a.symbols || key in keys)
    && (forall key :: WaitersOn(b.symbols, key)
                      == if key in keys then [|a.fixups|] + WaitersOn(a.symbols, key) else WaitersOn(a.symbols, key))
    && (forall key :: key in a.symbols ==> b.symbols[key].value == a.symbols[key].value)
    && b.lay.defs == a.lay.defs
    && b.lay.waiting == a.lay.waiting + keys
  }

  lemma QueueIsQueued(a: Asm, f: Fixup)
    requires ListsSound(a)
    ensures Queued(a, QueueFixup(a, f), LeafSet(f.expr))
  {
    QueueLists(a, f);
    QueueCounts(a, f);
  }

  lemma QueuedTables(a: Asm, b: Asm, keys: set<string>)
    requires TablesAgree(a) && Queued(a, b, keys) && keys !! a.lay.defs.Keys
    ensures TablesAgree(b)
  {
    forall key
      ensures key in b.lay.defs <==> key in b.symbols && WaitersOn(b.symbols, key) == []
      ensures key in b.lay.waiting <==> key in b.symbols && WaitersOn(b.symbols, key) != []
      ensures key in b.lay.defs ==> b.lay.defs[key] == Absolute(b.symbols[key].value)
    {
    }
  }

  lemma QueuedSound(a: Asm, b: Asm, keys: set<string>, key: string)
    requires ListsSound(a) && Queued(a, b, keys) && key in b.symbols
    ensures Falling(WaitersOn(b.symbols, key))
    ensures forall k :: 0 <= k < |WaitersOn(b.symbols, key)| ==>
              WaitersOn(b.symbols, key)[k] < |b.fixups|
              && key in LeafSet(b.fixups[WaitersOn(b.symbols, key)[k]].expr)
  {
    hide LeafSet;
    var was, now := WaitersOn(a.symbols, key), WaitersOn(b.symbols, key);
    assert Falling(was) && forall k :: 0 <= k < |was| ==> was[k] < |a.fixups|;
    forall k | 0 <= k < |now|
      ensures now[k] < |b.fixups| && key in LeafSet(b.fixups[now[k]].expr)
    {
      if key in keys && k > 0 {
        assert now[k] == was[k - 1];
      }
    }
  }

  /** A symbol an older fixup uses was waited on before the new one came just if it is now. */
  lemma QueuedWaits(a: Asm, b: Asm, keys: set<string>, i: nat, key: string)
    requires TablesAgree(a) && ListsComplete(a) && Queued(a, b, keys) && keys !! a.lay.defs.Keys
    requires i < |a.fixups| && key in LeafSet(a.fixups[i].expr)
    ensures key in a.symbols && (WaitersOn(a.symbols, key) != [] <==> WaitersOn(b.symbols, key) != [])
    ensures WaitersOn(a.symbols, key) != [] ==> i in WaitersOn(a.symbols, key)
  {
    assert key in a.symbols && (a.symbols[key].forward != [] ==> i in a.symbols[key].forward);
    if key in keys {
      assert key !in a.lay.defs;
    }
  }

  lemma QueuedComplete(a: Asm, b: Asm, keys: set<string>, i: nat, key: string)
    requires TablesAgree(a) && ListsComplete(a) && Queued(a, b, keys) && keys !! a.lay.defs.Keys
    requires i < |b.fixups| && key in LeafSet(b.fixups[i].expr)
    ensures key in b.symbols && (WaitersOn(b.symbols, key) != [] ==> i in WaitersOn(b.symbols, key))
  {
    if i == |a.fixups| {
      assert key in keys;
      assert WaitersOn(b.symbols, key)[0] == i;
    } else {
      assert b.fixups[i] == a.fixups[i];
      QueuedWaits(a, b, keys, i, key);
    }
  }

  lemma QueuedCounts(a: Asm, b: Asm, keys: set<string>, i: nat)
    requires TablesAgree(a) && ListsComplete(a) && Counted(a, []) && Queued(a, b, keys) && keys !! a.lay.defs.Keys
    requires i < |b.fixups|
    ensures b.fixups[i].pending == |Awaited(b, i)|
  {
    hide LeafSet;
    if i == |a.fixups| {
      forall key | key in keys
        ensures WaitersOn(b.symbols, key) != []
      {
      }
      assert Awaited(b, i) == keys;
    } else {
      assert b.fixups[i] == a.fixups[i];
      forall key | key in LeafSet(a.fixups[i].expr)
        ensures WaitersOn(a.symbols, key) != [] <==> WaitersOn(b.symbols, key) != []
      {
        QueuedWaits(a, b, keys, i, key);
      }
      assert Awaited(b, i) == Awaited(a, i);
    }
  }

  lemma QueuedLinked(a: Asm, b: Asm, keys: set<string>)
    requires Linked(a) && Queued(a, b, keys) && keys !! a.lay.defs.Keys
    ensures Linked(b)
  {
    hide Queued, Awaited;
    QueuedTables(a, b, keys);
    forall key | key in b.symbols
      ensures Falling(b.symbols[key].forward)
      ensures forall k :: 0 <= k < |b.symbols[key].forward| ==>
                b.symbols[key].forward[k] < |b.fixups|
                && key in LeafSet(b.fixups[b.symbols[key].forward[k]].expr)
    {
      QueuedSound(a, b, keys, key);
    }
    forall i, key | 0 <= i < |b.fixups| && key in LeafSet(b.fixups[i].expr)
      ensures key in b.symbols && (b.symbols[key].forward != [] ==> i in b.symbols[key].forward)
    {
      QueuedComplete(a, b, keys, i, key);
    }
    forall i | 0 <= i < |b.fixups|
      ensures b.fixups[i].pending == |Awaited(b, i)|
    {
      QueuedCounts(a, b, keys, i);
    }
  }

  lemma QueueKeepsLinked(a: Asm, f: Fixup)
    requires Linked(a)
    requires forall key :: key in LeafSet(f.expr) ==> key !in a.lay.defs
    ensures Linked(QueueFixup(a, f))
  {
    QueueIsQueued(a, f);
    QueuedLinked(a, QueueFixup(a, f), LeafSet(f.expr));
  }

  // ---- Stores ----

  /** b differs from a in nothing the lists and counts depend on. */
  ghost predicate SameLinks(a: Asm, b: Asm) {
    && a.symbols == b.symbols && a.lay.defs == b.lay.defs && a.lay.waiting == b.lay.waiting
    && |a.fixups| == |b.fixups|
    && forall i :: 0 <= i < |a.fixups| ==>
         a.fixups[i].expr == b.fixups[i].expr && a.fixups[i].pending == b.fixups[i].pending
  }

  lemma SameLinksLinked(a: Asm, b: Asm)
    requires Linked(a) && SameLinks(a, b)
    ensures Linked(b)
  {
    forall i | 0 <= i < |b.fixups|
      ensures b.fixups[i].pending == |Awaited(b, i)|
    {
      assert Awaited(b, i) == Awaited(a, i);
    }
  }

  lemma StoreKeepsLinks(a: Asm, s: Stored, data: seq<octet>)
    ensures SameLinks(a, StoreBytes(a, s, data))
  {
  }

  lemma StoreFieldKeepsLinked(a: Asm, kind: FieldKind, x: ExprVal, e: Term, here: word, ph: word)
    requires Linked(a)
    requires forall key :: key in Waits(x) ==> key !in a.lay.defs
    ensures Linked(StoreField(a, kind, x, e, here, ph))
    ensures StoreField(a, kind, x, e, here, ph).lay.defs == a.lay.defs
  {
    var s := FieldAt(a.lay, kind, x, e, here, ph);
    var data := if x.Known? then FieldBytes(kind, a.lay.pc, a.lay.caseBase, x.v) else LittleEndian(ph, FieldSize(kind));
    StoreKeepsLinks(a, s, data);
    SameLinksLinked(a, StoreBytes(a, s, data));
    if x.Unknown? {
      QueueKeepsLinked(StoreBytes(a, s, data), Fixup(a.lay.pc, kind, a.lay.caseBase, x.x, 0, a.lay.stmt, false));
    }
  }

  lemma {:induction false} StoreCopiesKeepsLinked(
      a: Asm, kind: FieldKind, x: ExprVal, e: Term, here: word, ph: word, count: nat)
    requires Linked(a)
    requires forall key :: key in Waits(x) ==> key !in a.lay.defs
    ensures Linked(StoreCopies(a, kind, x, e, here, ph, count))
    ensures StoreCopies(a, kind, x, e, here, ph, count).lay.defs == a.lay.defs
  {
    if count > 0 {
      StoreCopiesKeepsLinked(a, kind, x, e, here, ph, count - 1);
      StoreFieldKeepsLinked(StoreCopies(a, kind, x, e, here, ph, count - 1), kind, x, e, here, ph);
    }
  }

  lemma StoreLiteralKeepsLinked(a: Asm, data: seq<octet>)
    requires Linked(a)
    ensures Linked(StoreLiteral(a, data))
    ensures StoreLiteral(a, data).lay.defs == a.lay.defs
  {
    StoreKeepsLinks(a, Literal(a.lay.stmt, a.lay.pc, data), data);
    SameLinksLinked(a, StoreLiteral(a, data));
  }

  lemma ReadWaits(lay: Layout, item: Item)
    requires Read(lay, ItemTerm(item), lay.pc).Ok?
    ensures forall key :: key in Waits(Read(lay, ItemTerm(item), lay.pc).value) ==> key !in lay.defs
  {
    EvaluateLeaves(ItemTerm(item), Console, lay.defs, Absolute(lay.pc));
  }

  lemma OperandKeepsLinked(a: Asm, mode: octet, kind: FieldKind, x: ExprVal, e: Term, here: word)
    requires Linked(a)
    requires forall key :: key in Waits(x) ==> key !in a.lay.defs
    ensures Linked(StoreField(StoreLiteral(a, [mode]), kind, x, e, here, 0))
  {
    StoreLiteralKeepsLinked(a, [mode]);
    StoreFieldKeepsLinked(StoreLiteral(a, [mode]), kind, x, e, here, 0);
  }

  lemma ValueKeepsLinked(a: Asm, item: Item, x: ExprVal)
    requires Linked(a)
    requires forall key :: key in Waits(x) ==> key !in a.lay.defs
    ensures Linked(StoreValue(a, item, x))
  {
    hide StoreField, StoreLiteral, StoreCopies, Linked, Waits;
    match item
    case Raw(data) => StoreLiteralKeepsLinked(a, data);
    case Data(w, e, count) => StoreCopiesKeepsLinked(a, Address(w), x, e, a.lay.pc, Placeholder(AsTree(x)), count);
    case Branch(w, e) =>
      StoreFieldKeepsLinked(a, BranchField(w), x, e, a.lay.pc, Wrap(Placeholder(AsTree(x)) - a.lay.pc - Bytes(w)));
    case CaseEntry(e) => StoreFieldKeepsLinked(a, CaseField, x, e, a.lay.pc, 0);
    case Relative(deferred, size, e) =>
      var w := RelativeSize(x, size, Wrap(a.lay.pc + 1));
      OperandKeepsLinked(a, ModeByte(w, deferred, 15), Displacement(w), x, e, a.lay.pc);
    case Register(deferred, reg, size, e) =>
      var w := RegisterSize(x, size);
      OperandKeepsLinked(a, ModeByte(w, deferred, reg), Address(w), x, e, a.lay.pc);
  }

  lemma ItemKeepsLinked(a: Asm, item: Item)
    requires Linked(a) && StepItem(a, item).Some?
    ensures Linked(StepItem(a, item).value)
  {
    ReadWaits(a.lay, item);
    ValueKeepsLinked(a, item, Read(a.lay, ItemTerm(item), a.lay.pc).value);
  }

  // ---- Definitions ----

  /** The fixups ws fall, and name, just defined, is in each one's tree. */
  ghost predicate Told(a: Asm, ws: seq<nat>) {
    Falling(ws) && forall k :: 0 <= k < |ws| ==> ws[k] < |a.fixups|
  }

  lemma SetSymbolTables(a: Asm, name: string, v: word, e: Term)
    requires Linked(a)
    ensures var b := SetSymbol(a, name, v, e);
            TablesAgree(b) && ListsSound(b) && ListsComplete(b)
  {
  }

  lemma SetSymbolCounts(a: Asm, name: string, v: word, e: Term)
    requires Linked(a)
    ensures Counted(SetSymbol(a, name, v, e), WaitersOn(a.symbols, name))
    ensures Told(SetSymbol(a, name, v, e), WaitersOn(a.symbols, name))
    ensures |SetSymbol(a, name, v, e).fixups| == |a.fixups|
  {
    var b := SetSymbol(a, name, v, e);
    var ws := WaitersOn(a.symbols, name);
    forall i | 0 <= i < |b.fixups|
      ensures b.fixups[i].pending == |Awaited(b, i)| + if i in ws then 1 else 0
    {
      assert a.fixups[i].pending == |Awaited(a, i)|;
      if i in ws {
        assert name in LeafSet(a.fixups[i].expr);
        assert Awaited(a, i) == Awaited(b, i) + {name};
      } else {
        assert Awaited(a, i) == Awaited(b, i);
      }
    }
  }

  /** b is a with only the pending count of fixup i lowered. */
  lemma DecrementCounts(a: Asm, ws: seq<nat>)
    requires ws != [] && Told(a, ws) && Counted(a, ws)
    ensures var b := Decrement(a, ws[0]);
            && Counted(b, ws[1..]) && Told(b, ws[1..])
            && b.fixups[ws[0]].pending == a.fixups[ws[0]].pending - 1 == |Awaited(a, ws[0])|
  {
    var b := Decrement(a, ws[0]);
    forall i | 0 <= i < |b.fixups|
      ensures b.fixups[i].pending == |Awaited(b, i)| + if i in ws[1..] then 1 else 0
    {
      assert Awaited(b, i) == Awaited(a, i);
      assert i in ws <==> i == ws[0] || i in ws[1..];
    }
  }

  /** What completing leaves alone: everything but the image. */
  lemma CompleteFixupFrame(a: Asm, i: nat)
    requires i < |a.fixups| && CompleteFixup(a, i).Some?
    ensures CompleteFixup(a, i).value == a.(image := CompleteFixup(a, i).value.image)
  {
  }

  lemma ImageKeepsLists(a: Asm, b: Asm)
    requires TablesAgree(a) && ListsSound(a) && ListsComplete(a) && b == a.(image := b.image)
    ensures TablesAgree(b) && ListsSound(b) && ListsComplete(b)
  {
  }

  lemma CountedFrame(a: Asm, b: Asm, ws: seq<nat>)
    requires Counted(a, ws) && b == a.(image := b.image)
    ensures Counted(b, ws)
  {
    forall i | 0 <= i < |b.fixups|
      ensures b.fixups[i].pending == |Awaited(b, i)| + if i in ws then 1 else 0
    {
      assert Awaited(b, i) == Awaited(a, i);
    }
  }

  lemma DecrementKeepsLists(a: Asm, i: nat)
    requires i < |a.fixups| && TablesAgree(a) && ListsSound(a) && ListsComplete(a)
    ensures var b := Decrement(a, i); TablesAgree(b) && ListsSound(b) && ListsComplete(b)
  {
    var b := Decrement(a, i);
    forall key | key in b.symbols
      ensures forall k :: 0 <= k < |b.symbols[key].forward| ==>
                b.symbols[key].forward[k] < |b.fixups| && key in LeafSet(b.fixups[b.symbols[key].forward[k]].expr)
    {
    }
  }

  lemma {:induction false} CompleteKeepsLinked(a: Asm, ws: seq<nat>)
    requires Told(a, ws) && Complete(a, ws).Some?
    requires TablesAgree(a) && ListsSound(a) && ListsComplete(a) && Counted(a, ws)
    ensures Linked(Complete(a, ws).value)
    decreases |ws|
  {
    hide TablesAgree, ListsSound, ListsComplete, Counted, CompleteFixup;
    if ws != [] {
      var b := Decrement(a, ws[0]);
      DecrementCounts(a, ws);
      DecrementKeepsLists(a, ws[0]);
      if b.fixups[ws[0]].pending > 0 {
        CompleteKeepsLinked(b, ws[1..]);
      } else {
        var c := CompleteFixup(b, ws[0]).value;
        CompleteFixupFrame(b, ws[0]);
        ImageKeepsLists(b, c);
        CountedFrame(b, c, ws[1..]);
        CompleteKeepsLinked(c, ws[1..]);
      }
    }
  }

  lemma DefineKeepsLinked(a: Asm, name: string, v: word, e: Term)
    requires Linked(a) && Define(a, name, v, e).Some?
    ensures Linked(Define(a, name, v, e).value)
  {
    SetSymbolTables(a, name, v, e);
    SetSymbolCounts(a, name, v, e);
    CompleteKeepsLinked(SetSymbol(a, name, v, e), WaitersOn(a.symbols, name));
  }

  // ---- Every reachable state ----

  lemma {:induction false} ItemsKeepLinked(a: Asm, items: seq<Item>)
    requires Linked(a) && StepItems(a, items).Some?
    ensures Linked(StepItems(a, items).value)
  {
    if items != [] {
      ItemsKeepLinked(a, items[..|items| - 1]);
      ItemKeepsLinked(StepItems(a, items[..|items| - 1]).value, items[|items| - 1]);
    }
  }

  lemma StatementKeepsLinked(a: Asm, s: Statement)
    requires Linked(a) && StepStatement(a, s).Some?
    ensures Linked(StepStatement(a, s).value)
  {
    var b := NextStatement(a);
    SameLinksLinked(a, b);
    match s
    case Label(name) => DefineKeepsLinked(b, name, b.lay.pc, Here);
    case Assign(name, e) => DefineKeepsLinked(b, name, ReadNow(b.lay, e).value, e);
    case Origin(e) => SameLinksLinked(b, b.(lay := b.lay.(pc := ReadNow(b.lay, e).value)));
    case Store(isCase, items) =>
      SameLinksLinked(b, b.(lay := LayCaseBase(b.lay, isCase)));
      ItemsKeepLinked(b.(lay := LayCaseBase(b.lay, isCase)), items);
  }

  lemma {:induction false} RunKeepsLinked(program: seq<Statement>, base: word, start: word)
    requires Assemble(program, base, start).Some?
    ensures Linked(Assemble(program, base, start).value)
  {
    if program != [] {
      RunKeepsLinked(program[..|program| - 1], base, start);
      StatementKeepsLinked(Assemble(program[..|program| - 1], base, start).value, program[|program| - 1]);
    }
  }

  // ---- Completed exactly once ----

  /** The fixups Complete completes, in order. */
  ghost function Completed(a: Asm, ws: seq<nat>): seq<nat>
    requires forall k :: 0 <= k < |ws| ==> ws[k] < |a.fixups|
    decreases |ws|
  {
    if ws == [] then []
    else
      var b := Decrement(a, ws[0]);
      (if b.fixups[ws[0]].pending > 0 then [] else [ws[0]]) + Completed(b, ws[1..])
  }

  lemma {:induction false} CompletedOnce(a: Asm, ws: seq<nat>)
    requires Told(a, ws) && Counted(a, ws)
    ensures Distinct(Completed(a, ws))
    ensures forall i :: i in Completed(a, ws) <==> i in ws && Awaited(a, i) == {}
    decreases |ws|
  {
    if ws != [] {
      var b := Decrement(a, ws[0]);
      DecrementCounts(a, ws);
      CompletedOnce(b, ws[1..]);
      forall i | i in ws
        ensures Awaited(b, i) == Awaited(a, i)
      {
      }
      assert forall i :: i in ws <==> i == ws[0] || i in ws[1..];
      assert ws[0] !in ws[1..];
    }
  }

  lemma SetSymbolUndefined(a: Asm, name: string, v: word, e: Term, i: nat)
    requires Linked(a) && i < |a.fixups|
    ensures Awaited(SetSymbol(a, name, v, e), i) == Awaited(a, i) - {name}
    ensures i in WaitersOn(a.symbols, name) <==> name in Awaited(a, i)
    ensures |SetSymbol(a, name, v, e).fixups| == |a.fixups|
  {
    assert i in WaitersOn(a.symbols, name) ==> name in LeafSet(a.fixups[i].expr);
  }

  /** A definition completes, once each, exactly the fixups that were waiting on that symbol alone. */
  lemma DefinitionCompletes(a: Asm, name: string, v: word, e: Term)
    requires Linked(a)
    ensures var b := SetSymbol(a, name, v, e);
            var done := Completed(b, WaitersOn(a.symbols, name));
            && Distinct(done)
            && forall i :: i in done <==> 0 <= i < |a.fixups| && Awaited(a, i) == {name}
  {
    hide SetSymbol, Linked, Awaited, Completed, Counted, WaitersOn;
    var b := SetSymbol(a, name, v, e);
    var ws := WaitersOn(a.symbols, name);
    SetSymbolCounts(a, name, v, e);
    CompletedOnce(b, ws);
    forall i: nat
      ensures i in Completed(b, ws) <==> i < |a.fixups| && Awaited(a, i) == {name}
    {
      if i < |a.fixups| {
        SetSymbolUndefined(a, name, v, e, i);
      } else {
        assert i !in ws;
      }
    }
  }
}
