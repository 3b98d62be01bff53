/**
 One pass and two: exactly when the backpatched image is the image of two passes; and which overlapping stores the
 assembler sees.
 */
module Passes {
  import opened Words
  import opened Expressions
  import opened TwoPass
  import opened OnePass
  import opened ForwardLists
  import opened Backpatch
  import opened Supersession
  import opened Painting

  // ---- A statement stores no byte twice ----

  /** A statement's stores follow one another. */
  ghost predicate Forward(log: seq<Stored>) {
    forall i, k :: 0 <= i < k < |log| && log[i].stmt == log[k].stmt ==> log[i].at + StoredSize(log[i]) <= log[k].at
  }

  ghost predicate Reached(lay: Layout) {
    forall i :: 0 <= i < |lay.log| ==>
      && lay.log[i].stmt <= lay.stmt
      && (lay.log[i].stmt == lay.stmt ==> lay.log[i].at + StoredSize(lay.log[i]) <= lay.pc)
  }

  /** Unless a store runs round the top of the address space. */
  ghost predicate InOrder(lay: Layout) {
    NoWrap(lay.log) ==> Forward(lay.log) && Reached(lay)
  }

  lemma StoreInOrder(lay: Layout, s: Stored)
    requires InOrder(lay) && s.stmt == lay.stmt && s.at == lay.pc
    ensures InOrder(LayStore(lay, s))
  {
    var next := LayStore(lay, s);
    if NoWrap(next.log) {
      assert NoWrap(lay.log) by {
        assert forall i :: 0 <= i < |lay.log| ==> next.log[i] == lay.log[i];
      }
      assert next.log[|lay.log|] == s;
    }
  }

  lemma FieldInOrder(lay: Layout, kind: FieldKind, x: ExprVal, e: Term, here: word, ph: word)
    requires InOrder(lay)
    ensures InOrder(LayField(lay, kind, x, e, here, ph))
  {
    StoreInOrder(lay, FieldAt(lay, kind, x, e, here, ph));
  }

  lemma {:induction false} CopiesInOrder(lay: Layout, kind: FieldKind, x: ExprVal, e: Term, here: word, ph: word,
                                         count: nat)
    requires InOrder(lay)
    ensures InOrder(LayCopies(lay, kind, x, e, here, ph, count))
  {
    hide InOrder, LayField;
    if count > 0 {
      CopiesInOrder(lay, kind, x, e, here, ph, count - 1);
      FieldInOrder(LayCopies(lay, kind, x, e, here, ph, count - 1), kind, x, e, here, ph);
    }
  }

  lemma ValueInOrder(lay: Layout, item: Item, x: ExprVal)
    requires InOrder(lay)
    ensures InOrder(LayValue(lay, item, x))
  {
    hide InOrder, LayField, LayCopies, LayStore;
    match item
    case Raw(data) => StoreInOrder(lay, Literal(lay.stmt, lay.pc, data));
    case Data(w, e, count) => CopiesInOrder(lay, Address(w), x, e, lay.pc, Placeholder(AsTree(x)), count);
    case Branch(w, e) =>
      FieldInOrder(lay, BranchField(w), x, e, lay.pc, Wrap(Placeholder(AsTree(x)) - lay.pc - Bytes(w)));
    case CaseEntry(e) => FieldInOrder(lay, CaseField, x, e, lay.pc, 0);
    case Relative(deferred, size, e) =>
      var w := RelativeSize(x, size, Wrap(lay.pc + 1));
      StoreInOrder(lay, Literal(lay.stmt, lay.pc, [ModeByte(w, deferred, 15)]));
      FieldInOrder(LayLiteral(lay, [ModeByte(w, deferred, 15)]), Displacement(w), x, e, lay.pc, 0);
    case Register(deferred, reg, size, e) =>
      var w := RegisterSize(x, size);
      StoreInOrder(lay, Literal(lay.stmt, lay.pc, [ModeByte(w, deferred, reg)]));
      FieldInOrder(LayLiteral(lay, [ModeByte(w, deferred, reg)]), Address(w), x, e, lay.pc, 0);
  }

  lemma {:induction false} ItemsInOrder(lay: Layout, items: seq<Item>)
    requires InOrder(lay)
    ensures InOrder(LayItems(lay, items))
  {
    hide InOrder, LayValue, Read;
    if items != [] {
      var b := LayItems(lay, items[..|items| - 1]);
      ItemsInOrder(lay, items[..|items| - 1]);
      if Read(b, ItemTerm(items[|items| - 1]), b.pc).Ok? {
        ValueInOrder(b, items[|items| - 1], Read(b, ItemTerm(items[|items| - 1]), b.pc).value);
      }
    }
  }

  lemma {:induction false} RunInOrder(program: seq<Statement>, start: word)
    ensures InOrder(PassOne(program, start))
  {
    if program != [] {
      hide ReadNow, LayItems;
      var lay0 := PassOne(program[..|program| - 1], start);
      RunInOrder(program[..|program| - 1], start);
      var lay := lay0.(stmt := lay0.stmt + 1);
      match program[|program| - 1]
      case Store(isCase, items) => ItemsInOrder(LayCaseBase(lay, isCase), items);
      case _ =>
    }
  }

  // ---- Which overlaps are seen ----

  /** Every store is in the section, at its base or after. */
  predicate InSection(log: seq<Stored>, base: word) {
    forall i :: 0 <= i < |log| ==> log[i].at >= base
  }

  /** The last to claim a byte's offset is the last to store the byte. */
  lemma {:induction false} LastClaims(log: seq<Stored>, base: word, p: word)
    requires NoWrap(log) && InSection(log, base) && p >= base
    ensures var h, j := Claimants(log, base, p - base), LastStore(log, p);
            (j < 0 <==> h == []) && (j >= 0 ==> h[|h| - 1] == log[j].stmt)
  {
    if log != [] {
      var n := |log| - 1;
      assert forall i :: 0 <= i < n ==> log[..n][i] == log[i];
      LastClaims(log[..n], base, p);
      ClaimsCovers(log[n], base, p);
    }
  }

  lemma ClaimsCovers(s: Stored, base: word, p: word)
    requires s.at + StoredSize(s) < TWO32 && s.at >= base && p >= base
    ensures LowOffset(base, s) == s.at - base && HighOffset(base, s) == s.at - base + StoredSize(s)
    ensures LowOffset(base, s) <= p - base < HighOffset(base, s) <==> Covers(s, p)
  {
  }

  /** The field's addresses and the store's offsets have a byte in common. */
  predicate MeetsShifted(base: word, f: Stored, s: Stored) {
    f.at < s.at - base + StoredSize(s) && s.at - base < f.at + StoredSize(f)
  }

  /** Store k goes over some byte another stored. */
  ghost predicate GoesOver(log: seq<Stored>, k: nat)
    requires k < |log|
  {
    exists p: word :: Covers(log[k], p) && LastStore(log[..k], p) >= 0
  }

  lemma OverwritesExactly(log: seq<Stored>, base: word, k: nat)
    requires NoWrap(log) && Forward(log) && InSection(log, base) && k < |log|
    ensures OverwritesIn(log[..k], base, log[k]) <==> GoesOver(log, k)
  {
    hide Claimants;
    var front, s := log[..k], log[k];
    assert forall i :: 0 <= i < k ==> front[i] == log[i];
    if q: word :| LowOffset(base, s) <= q < HighOffset(base, s) && ClaimedByOther(front, base, q, s.stmt) {
      ClaimsCovers(s, base, s.at);
      var p: word := q + base;
      ClaimsCovers(s, base, p);
      LastClaims(front, base, p);
    }
    if p: word :| Covers(s, p) && LastStore(front, p) >= 0 {
      LastClaims(front, base, p);
      ClaimsCovers(s, base, p);
      OtherStatement(log, LastStore(front, p), k, p);
      assert ClaimedByOther(front, base, p - base, s.stmt);
    }
  }

  /** Stores that go over one another are different statements'. */
  lemma OtherStatement(log: seq<Stored>, j: nat, k: nat, p: word)
    requires Forward(log) && j < k < |log| && Covers(log[j], p) && Covers(log[k], p)
    ensures log[j].stmt != log[k].stmt
  {
  }

  /**
   * In a section at any base a store supersedes the fixup of a field that still waits exactly where it goes over some
   * byte stored before, whosever, and its offsets meet the field's addresses.
   */
  lemma HitsExactly(lay: Layout, base: word, j: nat, k: nat)
    requires NoWrap(lay.log) && Forward(lay.log) && InSection(lay.log, base)
    requires j < k < |lay.log| && lay.log[j].Field? && lay.log[j].stmt != lay.log[k].stmt && StillWaits(lay, j, k)
    ensures Hits(lay, base, j, k) <==> GoesOver(lay.log, k) && MeetsShifted(base, lay.log[j], lay.log[k])
  {
    hide OverwritesIn, GoesOver, StillWaits, Forward;
    ClaimsCovers(lay.log[k], base, base);
    OverwritesExactly(lay.log, base, k);
    assert lay.log[j].at + StoredSize(lay.log[j]) < TWO32;
  }

  /**
   * So of the stores that go over a field while it waits, in a section based at zero all supersede it; in one whose
   * base is as long as the two together none does.
   */
  lemma SeenExactly(lay: Layout, base: word, j: nat, k: nat)
    requires NoWrap(lay.log) && Forward(lay.log) && InSection(lay.log, base) && CutsShort(lay, j, k)
    ensures Hits(lay, base, j, k) <==> MeetsShifted(base, lay.log[j], lay.log[k])
    ensures base == 0 ==> Hits(lay, base, j, k)
    ensures base >= StoredSize(lay.log[j]) + StoredSize(lay.log[k]) ==> !Hits(lay, base, j, k)
  {
    hide Hits, StillWaits, Forward, NoWrap;
    HitsExactly(lay, base, j, k);
    var p: word :| Covers(lay.log[j], p) && Covers(lay.log[k], p);
    assert LastStore(lay.log[..k], p) >= j by {
      assert lay.log[..k][j] == lay.log[j];
    }
  }

  /** Based at zero, the stores seen to supersede a field are those that go over it while it waits. */
  lemma HitsAtZero(lay: Layout, j: nat, k: nat)
    requires NoWrap(lay.log) && Forward(lay.log)
    ensures Hits(lay, 0, j, k) <==> CutsShort(lay, j, k)
  {
    hide StillWaits, OverwritesIn, Forward, Overlapping, GoesOver;
    assert InSection(lay.log, 0);
    if CutsShort(lay, j, k) {
      SeenExactly(lay, 0, j, k);
    }
    if Hits(lay, 0, j, k) {
      HitsExactly(lay, 0, j, k);
      ShareByte(lay.log, j, k);
    }
  }

  lemma ShareByte(log: seq<Stored>, j: nat, k: nat)
    requires NoWrap(log) && j < |log| && k < |log| && GoesOver(log, k) && log[j].Field?
    requires MeetsShifted(0, log[j], log[k])
    ensures Overlapping(log[j], log[k])
  {
    assert log[j].at + StoredSize(log[j]) < TWO32 && log[k].at + StoredSize(log[k]) < TWO32;
    var p: word := if log[j].at > log[k].at then log[j].at else log[k].at;
    assert Covers(log[j], p) && Covers(log[k], p);
  }

  /**
   * Based at zero, a fixup ends dead exactly where a later statement stored over a byte of its field while it waited.
   */
  lemma DeadWhereSpoiled(program: seq<Statement>, start: word, i: nat)
    requires Assemble(program, 0, start).Some? && NoWrap(PassOne(program, start).log)
    requires i < |Assemble(program, 0, start).value.fixups|
    ensures var a := Assemble(program, 0, start).value;
            i < |a.home| && (a.fixups[i].dead <==> Spoiled(PassOne(program, start), a.home[i]))
  {
    hide Assemble, PassOne, Hits, CutsShort;
    var lay := PassOne(program, start);
    DeadExactly(program, 0, start, i);
    RunInOrder(program, start);
    SpoiledIsHit(lay, Assemble(program, 0, start).value.home[i]);
  }

  lemma SpoiledIsHit(lay: Layout, j: nat)
    requires NoWrap(lay.log) && Forward(lay.log)
    ensures Hit(lay, 0, j) <==> Spoiled(lay, j)
  {
    hide Hits, CutsShort, NoWrap, Forward;
    forall k: nat
      ensures Hits(lay, 0, j, k) <==> CutsShort(lay, j, k)
    {
      HitsAtZero(lay, j, k);
    }
  }

  // ---- Which field holds a byte ----

  /** A field completed over a later store was stored over while it waited, unseen. */
  lemma LateOverLater(lay: Layout, base: word, p: word, j: nat, n: nat)
    requires DefinedOnce(lay.equations) && Forward(lay.log) && Late(lay, base, p, j, n) && j != LastStore(lay.log, p)
    ensures var k := LastStore(lay.log, p); k > j && CutsShort(lay, j, k) && !Hits(lay, base, j, k)
  {
    hide Hits, Forward;
    var k := LastStore(lay.log, p);
    OtherStatement(lay.log, j, k, p);
    var key := lay.equations[n].name;
    forall i: nat | i < |lay.equations| && lay.equations[i].name == key
      ensures lay.equations[i].stores > k
    {
      SameName(lay.equations, i, n);
    }
    assert !DefinedBefore(lay, key, k);
    assert StillWaits(lay, j, k);
  }

  lemma SameName(equations: seq<Equation>, i: nat, n: nat)
    requires DefinedOnce(equations) && i < |equations| && n < |equations| && equations[i].name == equations[n].name
    ensures i == n
  {
  }

  /** A field whose symbols are all defined was completed by one of the definitions. */
  lemma {:induction false} SomeCompletes(lay: Layout, j: nat, m: nat)
    requires j < |lay.log| && lay.log[j].Field? && lay.log[j].waits != {} && m <= |lay.equations|
    requires forall key :: key in lay.log[j].waits ==> exists i :: 0 <= i < m && lay.equations[i].name == key
    ensures exists n :: CompletedBy(lay, j, n)
  {
    var key :| key in lay.log[j].waits;
    if lay.equations[m - 1].name in lay.log[j].waits {
      assert CompletedBy(lay, j, m - 1);
    } else {
      SomeCompletes(lay, j, m - 1);
    }
  }

  /** Of the fields completed late, one is the last. */
  lemma SomeWins(lay: Layout, base: word, p: word, j: nat, n: nat)
    requires Late(lay, base, p, j, n)
    ensures exists i: nat, m: nat :: Wins(lay, base, p, i, m)
    decreases |lay.equations| - n, j
  {
    hide Hit;
    if i: nat, m: nat :| Late(lay, base, p, i, m) && m > n {
      SomeWins(lay, base, p, i, m);
    } else if i: nat :| Late(lay, base, p, i, n) && i < j {
      SomeWins(lay, base, p, i, n);
    } else {
      assert Wins(lay, base, p, j, n);
    }
  }

  // ---- The image ----

  /**
   * The bytes that one pass gets right: held by a field completed over the last store, or by the last store as it first
   * was, they are nevertheless what the second pass stores.
   */
  ghost predicate RightAnyway(lay: Layout, base: word, env: Env, p: word) {
    && (forall j: nat, n: nat :: Wins(lay, base, p, j, n) && j != LastStore(lay.log, p)
                                 ==> ByteOf(lay.log[j], env, p) == At(PassTwo(lay.log, env), p))
    && ((forall j: nat, n: nat :: !Late(lay, base, p, j, n)) ==>
         FirstByte(lay.log, env, p) == At(PassTwo(lay.log, env), p))
  }

  lemma PaintedRight(lay: Layout, base: word, env: Env, p: word, v: octet)
    requires NoWrap(lay.log) && PaintedAt(lay, base, env, p, v)
    ensures v == At(PassTwo(lay.log, env), p) <==> RightAnyway(lay, base, env, p)
  {
    hide Late, StoredData, FirstByte, PassTwo, NoWrap;
    PassTwoAt(lay.log, env, p);
    if j: nat, n: nat :| Late(lay, base, p, j, n) {
      SomeWins(lay, base, p, j, n);
      var i: nat, m: nat :| Wins(lay, base, p, i, m);
      LateCovers(lay, base, p, i, m);
    }
  }

  lemma LateCovers(lay: Layout, base: word, p: word, j: nat, n: nat)
    requires Late(lay, base, p, j, n)
    ensures j < |lay.log| && Covers(lay.log[j], p)
  {
  }

  /** Byte by byte what one pass leaves, in a section at any base and whatever overlaps. */
  lemma ImageExactly(program: seq<Statement>, base: word, start: word, p: word)
    requires Assemble(program, base, start).Some? && Clean(PassOne(program, start))
    ensures var lay := PassOne(program, start);
            PaintedAt(lay, base, TableEnv(lay.defs), p, At(Assemble(program, base, start).value.image, p))
  {
    hide Assemble, PassOne, TableEnv, Agrees, Tabled, Track, PaintedAt, Homes, Means, Clean;
    var a := Assemble(program, base, start).value;
    RunLayout(program, base, start);
    RunKeepsLinked(program, base, start);
    TableIsAbsolute(a);
    TableAgrees(a.lay.defs);
    RunSound(program, base, start, TableEnv(a.lay.defs));
    RunTrack(program, base, start);
    assert PaintedAt(a.lay, a.base, TableEnv(a.lay.defs), p, At(a.image, p));
  }

  lemma TableIsAbsolute(a: Asm)
    requires Linked(a)
    ensures AllAbsolute(a.lay.defs)
  {
  }

  /**
   * One pass equals two passes exactly where every byte that pass one's layout gives to a field completed over a later
   * store, or leaves as its last store first gave it, is nevertheless the second pass's: whatever mix of forward and
   * backward references each expression uses, whatever the statements store over, and in a section at any base.
   */
  lemma OnePassIsTwoPass(program: seq<Statement>, base: word, start: word)
    requires Assemble(program, base, start).Some? && Clean(PassOne(program, start))
    ensures var lay := PassOne(program, start);
            (forall p: word :: At(Assemble(program, base, start).value.image, p)
              == At(PassTwo(lay.log, TableEnv(lay.defs)), p))
            <==> forall p: word :: RightAnyway(lay, base, TableEnv(lay.defs), p)
  {
    hide Assemble, PassOne, TableEnv, PassTwo, PaintedAt, At, RightAnyway;
    var lay := PassOne(program, start);
    forall p: word
      ensures At(Assemble(program, base, start).value.image, p) == At(PassTwo(lay.log, TableEnv(lay.defs)), p)
              <==> RightAnyway(lay, base, TableEnv(lay.defs), p)
    {
      ImageExactly(program, base, start, p);
      PaintedRight(lay, base, TableEnv(lay.defs), p, At(Assemble(program, base, start).value.image, p));
    }
  }

  // ---- Where the condition is easily seen to hold ----

  lemma SymbolsDefined(a: Asm)
    requires Linked(a) && Track(a) && a.lay.waiting == {}
    ensures WaitsOver(a.lay)
  {
    hide Timed, ClaimsAre, DeadIs, Awaited;
    forall j, key | 0 <= j < |a.lay.log| && a.lay.log[j].Field? && key in a.lay.log[j].waits
      ensures key in a.lay.defs
    {
      var i :| 0 <= i < |a.home| && a.home[i] == j;
      assert HomeMatches(a.fixups[i], a.lay.log[j]);
      AwaitedMissing(a, i, key);
    }
  }

  /** The symbols the fields waited for are all defined. */
  ghost predicate WaitsOver(lay: Layout) {
    forall j, key :: 0 <= j < |lay.log| && lay.log[j].Field? && key in lay.log[j].waits ==> key in lay.defs
  }

  /** A byte over which no field is completed late is its last store's, with its value unless it was superseded. */
  lemma OnlyLast(lay: Layout, base: word, env: Env, p: word, v: octet)
    requires Timed(lay) && Clean(lay) && WaitsOver(lay) && PaintedAt(lay, base, env, p, v)
    requires forall j: nat, n: nat :: Late(lay, base, p, j, n) ==> j == LastStore(lay.log, p)
    ensures var k := LastStore(lay.log, p);
            v == if k >= 0 && lay.log[k].Field? && lay.log[k].waits != {} && Hit(lay, base, k)
              then FirstByte(lay.log, env, p)
                 else At(PassTwo(lay.log, env), p)
  {
    hide Hit, StoredData, PassTwo, FirstByte, NoWrap, DefinedOnce;
    var k := LastStore(lay.log, p);
    PassTwoAt(lay.log, env, p);
    if k >= 0 && lay.log[k].Field? && lay.log[k].waits != {} {
      if !Hit(lay, base, k) {
        forall key | key in lay.log[k].waits
          ensures exists i :: 0 <= i < |lay.equations| && lay.equations[i].name == key
        {
          assert key in lay.defs;
        }
        SomeCompletes(lay, k, |lay.equations|);
        var n: nat :| CompletedBy(lay, k, n);
        SomeWins(lay, base, p, k, n);
      }
    } else {
      KnownFirst(lay.log, env, p);
      NeverLate(lay, base, p);
    }
  }

  lemma KnownFirst(log: seq<Stored>, env: Env, p: word)
    requires var k := LastStore(log, p); k < 0 || !log[k].Field? || log[k].waits == {}
    ensures var k := LastStore(log, p); FirstByte(log, env, p) == if k < 0 then 0 else ByteOf(log[k], env, p)
  {
  }

  lemma NeverLate(lay: Layout, base: word, p: word)
    requires var k := LastStore(lay.log, p); k < 0 || !lay.log[k].Field? || lay.log[k].waits == {}
    requires forall j: nat, n: nat :: Late(lay, base, p, j, n) ==> j == LastStore(lay.log, p)
    ensures forall j: nat, n: nat :: !Late(lay, base, p, j, n)
  {
    hide Hit;
  }

  /** What is known of every run that leaves no symbol undefined. */
  lemma RunFacts(program: seq<Statement>, base: word, start: word)
    requires Assemble(program, base, start).Some? && Clean(PassOne(program, start))
    requires PassOne(program, start).waiting == {}
    ensures var lay := PassOne(program, start); Timed(lay) && WaitsOver(lay) && Forward(lay.log)
  {
    hide Assemble, PassOne, Forward, Reached, Homes, Housed, Timed, ClaimsAre, DeadIs, WaitsOver, Linked;
    var a := Assemble(program, base, start).value;
    RunLayout(program, base, start);
    RunKeepsLinked(program, base, start);
    RunTrack(program, base, start);
    RunInOrder(program, start);
    SymbolsDefined(a);
  }

  /**
   * Based at zero the image is, byte by byte, what the second pass stores, unless the byte's last store is a field that
   * another statement stored over in part while it waited, when the byte is what the field was first given.
   */
  lemma OnePassByte(program: seq<Statement>, start: word, p: word)
    requires Assemble(program, 0, start).Some?
    requires var lay := PassOne(program, start); Clean(lay) && lay.waiting == {}
    ensures var lay := PassOne(program, start);
            At(Assemble(program, 0, start).value.image, p) ==
            if Spoiled(lay, LastStore(lay.log, p)) then FirstByte(lay.log, TableEnv(lay.defs), p)
            else At(PassTwo(lay.log, TableEnv(lay.defs)), p)
  {
    hide Assemble, PassOne, TableEnv, PassTwo, Forward, Timed, WaitsOver, Hit, Hits, CutsShort, FirstByte, Late;
    var lay := PassOne(program, start);
    RunFacts(program, 0, start);
    ImageExactly(program, 0, start, p);
    forall j: nat, n: nat | Late(lay, 0, p, j, n)
      ensures j == LastStore(lay.log, p)
    {
      if j != LastStore(lay.log, p) {
        LateOverLater(lay, 0, p, j, n);
        HitsAtZero(lay, j, LastStore(lay.log, p));
      }
    }
    OnlyLast(lay, 0, TableEnv(lay.defs), p, At(Assemble(program, 0, start).value.image, p));
    SpoiledWaited(lay, LastStore(lay.log, p));
    if LastStore(lay.log, p) >= 0 {
      SpoiledIsHit(lay, LastStore(lay.log, p));
    }
  }

  /**
   * Based at zero, then, one pass equals two exactly where each byte a spoiled field still holds was first given its
   * final value.
   */
  lemma AtZeroExactly(program: seq<Statement>, start: word)
    requires Assemble(program, 0, start).Some?
    requires var lay := PassOne(program, start); Clean(lay) && lay.waiting == {}
    ensures var lay := PassOne(program, start);
            var env := TableEnv(lay.defs);
            (forall p: word :: At(Assemble(program, 0, start).value.image, p) == At(PassTwo(lay.log, env), p))
            <==> forall p: word :: Spoiled(lay, LastStore(lay.log, p)) ==>
              FirstByte(lay.log, env, p) == At(PassTwo(lay.log, env), p)
  {
    hide Assemble, PassOne, TableEnv, PassTwo, Spoiled, FirstByte, Clean;
    forall p: word
      ensures var lay := PassOne(program, start);
              At(Assemble(program, 0, start).value.image, p) ==
              if Spoiled(lay, LastStore(lay.log, p)) then FirstByte(lay.log, TableEnv(lay.defs), p)
              else At(PassTwo(lay.log, TableEnv(lay.defs)), p)
    {
      OnePassByte(program, start, p);
    }
  }

  lemma SpoiledWaited(lay: Layout, j: int)
    ensures Spoiled(lay, j) ==> 0 <= j < |lay.log| && lay.log[j].Field? && lay.log[j].waits != {}
  {
    hide Overlapping;
  }

  /** No byte is stored twice. */
  ghost predicate Apart(log: seq<Stored>) {
    forall j, k :: 0 <= j < k < |log| ==> !Overlapping(log[j], log[k])
  }

  lemma {:induction false} ClaimedIsStored(log: seq<Stored>, base: word, q: word)
    requires NoWrap(log) && Claimants(log, base, q) != []
    ensures exists i :: 0 <= i < |log| && Covers(log[i], Wrap(q + base))
  {
    hide Covers, Wrap;
    var n := |log| - 1;
    var front := log[..n];
    assert forall i :: 0 <= i < n ==> front[i] == log[i];
    if Claimants(front, base, q) != [] {
      ClaimedIsStored(front, base, q);
      var i :| 0 <= i < |front| && Covers(front[i], Wrap(q + base));
      assert Covers(log[i], Wrap(q + base));
    } else {
      ClaimedAddress(log[n], base, q);
    }
  }

  lemma ClaimedAddress(s: Stored, base: word, q: word)
    requires s.at + StoredSize(s) < TWO32 && LowOffset(base, s) <= q < HighOffset(base, s)
    ensures Covers(s, Wrap(q + base))
  {
  }

  lemma ApartUnhit(lay: Layout, base: word, j: nat)
    requires NoWrap(lay.log) && Apart(lay.log)
    ensures !Hit(lay, base, j)
  {
    hide Claimants, LowOffset, HighOffset, StillWaits, Meets, Covers;
    forall k: nat | j < k < |lay.log|
      ensures !OverwritesIn(lay.log[..k], base, lay.log[k])
    {
      ApartUnclaimed(lay.log, base, k);
    }
  }

  lemma ApartUnclaimed(log: seq<Stored>, base: word, k: nat)
    requires NoWrap(log) && Apart(log) && k < |log|
    ensures !OverwritesIn(log[..k], base, log[k])
  {
    hide Claimants, LowOffset, HighOffset, Covers, Wrap;
    var front := log[..k];
    assert forall i :: 0 <= i < k ==> front[i] == log[i];
    forall q: word | LowOffset(base, log[k]) <= q < HighOffset(base, log[k])
      ensures !ClaimedByOther(front, base, q, log[k].stmt)
    {
      ClaimedAddress(log[k], base, q);
      forall i | 0 <= i < |front|
        ensures !Covers(front[i], Wrap(q + base))
      {
        assert !Overlapping(log[i], log[k]);
      }
      if Claimants(front, base, q) != [] {
        ClaimedIsStored(front, base, q);
      }
    }
  }

  /** In a section at any base, where no byte is stored twice, the image is the second pass's. */
  lemma ApartIsTwoPass(program: seq<Statement>, base: word, start: word, p: word)
    requires Assemble(program, base, start).Some?
    requires var lay := PassOne(program, start); Clean(lay) && lay.waiting == {} && Apart(lay.log)
    ensures var lay := PassOne(program, start);
            At(Assemble(program, base, start).value.image, p) == At(PassTwo(lay.log, TableEnv(lay.defs)), p)
  {
    hide Assemble, PassOne, TableEnv, PassTwo, Forward, Timed, WaitsOver, Hit, Hits, Late, Overlapping;
    var lay := PassOne(program, start);
    RunFacts(program, base, start);
    ImageExactly(program, base, start, p);
    forall j: nat, n: nat | Late(lay, base, p, j, n)
      ensures j == LastStore(lay.log, p)
    {
      if j != LastStore(lay.log, p) {
        LateOverLater(lay, base, p, j, n);
      }
    }
    OnlyLast(lay, base, TableEnv(lay.defs), p, At(Assemble(program, base, start).value.image, p));
    if LastStore(lay.log, p) >= 0 {
      ApartUnhit(lay, base, LastStore(lay.log, p));
    }
  }
}
