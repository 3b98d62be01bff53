/**
 Which fixups are superseded, from the layout alone: a fixup ends dead exactly where, while its field still waited, a
 later statement's store was seen to overlap it (overwrite.go). Nothing here asks how the program's stores overlap.
 */
module Supersession {
  import opened Words
  import opened Expressions
  import opened TwoPass
  import opened OnePass
  import opened ForwardLists
  import opened Backpatch

  // ---- What the layout says ----

  function LowOffset(base: word, s: Stored): word {
    Wrap(s.at - base)
  }

  function HighOffset(base: word, s: Stored): word {
    Wrap(LowOffset(base, s) + StoredSize(s))
  }

  /** The statements that claimed the byte at offset q, in order. */
  function Claimants(log: seq<Stored>, base: word, q: word): seq<nat> {
    if log == [] then []
    else
      var s := log[|log| - 1];
      var before := Claimants(log[..|log| - 1], base, q);
      if LowOffset(base, s) <= q < HighOffset(base, s) then before + [s.stmt] else before
  }

  predicate ClaimedByOther(log: seq<Stored>, base: word, q: word, stmt: nat) {
    var h := Claimants(log, base, q);
    h != [] && h[|h| - 1] != stmt
  }

  /** claim finds another statement's byte among those of s. */
  predicate OverwritesIn(log: seq<Stored>, base: word, s: Stored) {
    exists q: word | LowOffset(base, s) <= q < HighOffset(base, s) :: ClaimedByOther(log, base, q, s.stmt)
  }

  /** supersede's comparison: the field's address against the store's offsets. */
  predicate Meets(base: word, f: Stored, s: Stored) {
    f.stmt != s.stmt && f.at < HighOffset(base, s) && Wrap(f.at + StoredSize(f)) > LowOffset(base, s)
  }

  /** Store k supersedes the fixup store j left. */
  ghost predicate Hits(lay: Layout, base: word, j: nat, k: nat) {
    && j < k < |lay.log| && lay.log[j].Field? && Meets(base, lay.log[j], lay.log[k])
    && OverwritesIn(lay.log[..k], base, lay.log[k]) && StillWaits(lay, j, k)
  }

  ghost predicate Hit(lay: Layout, base: word, j: nat) {
    exists k: nat :: Hits(lay, base, j, k)
  }

  // ---- The invariant ----

  /**
   * A symbol is defined where it has an equation, made after the stores before it; and the fields that wait on a symbol
   * are among those.
   */
  ghost predicate Timed(lay: Layout) {
    && (forall key :: key in lay.defs <==> exists i :: 0 <= i < |lay.equations| && lay.equations[i].name == key)
    && (forall i :: 0 <= i < |lay.equations| ==> lay.equations[i].stores <= |lay.log|)
    && (forall i, j :: 0 <= i < |lay.equations| && 0 <= j < |lay.log| && lay.log[j].Field?
                       && lay.equations[i].name in lay.log[j].waits
          ==> j < lay.equations[i].stores)
  }

  /** Every field that had to wait left a fixup. */
  ghost predicate Housed(a: Asm) {
    forall j :: 0 <= j < |a.lay.log| && a.lay.log[j].Field? && a.lay.log[j].waits != {} ==> j in a.home
  }

  ghost predicate ClaimsAre(a: Asm) {
    forall q: word :: History(a.owners, q) == Claimants(a.lay.log, a.base, q)
  }

  ghost predicate DeadIs(a: Asm)
    requires Homes(a)
  {
    forall i :: 0 <= i < |a.fixups| ==> (a.fixups[i].dead <==> Hit(a.lay, a.base, a.home[i]))
  }

  ghost predicate Track(a: Asm) {
    Homes(a) && Housed(a) && Timed(a.lay) && ClaimsAre(a) && DeadIs(a)
  }

  // ---- A store ----

  lemma ClaimantsAppend(log: seq<Stored>, s: Stored, base: word, q: word)
    ensures Claimants(log + [s], base, q) ==
            if LowOffset(base, s) <= q < HighOffset(base, s) then Claimants(log, base, q) + [s.stmt]
            else Claimants(log, base, q)
  {
    assert (log + [s])[..|log|] == log;
  }

  /** The fixup's field still waits exactly while some symbol of its tree is undefined. */
  lemma WaitingNow(a: Asm, i: nat)
    requires Linked(a) && Homes(a) && Timed(a.lay) && i < |a.fixups|
    ensures a.fixups[i].pending > 0 <==> StillWaits(a.lay, a.home[i], |a.lay.log|)
  {
    var j := a.home[i];
    assert HomeMatches(a.fixups[i], a.lay.log[j]);
    assert a.fixups[i].pending == |Awaited(a, i)|;
    if a.fixups[i].pending > 0 {
      var key :| key in Awaited(a, i);
      assert key !in a.lay.defs;
      assert key in a.lay.log[j].waits && !DefinedBefore(a.lay, key, |a.lay.log|);
    }
    if StillWaits(a.lay, j, |a.lay.log|) {
      var key :| key in a.lay.log[j].waits && !DefinedBefore(a.lay, key, |a.lay.log|);
      assert key !in a.lay.defs;
      assert key in Awaited(a, i);
    }
  }

  /** What is known of a store's record. */
  predicate Recorded(a: Asm, s: Stored, data: seq<octet>) {
    s.stmt == a.lay.stmt && s.at == a.lay.pc && |data| == StoredSize(s)
  }

  lemma OverwritesSame(a: Asm, s: Stored, data: seq<octet>)
    requires ClaimsAre(a) && Recorded(a, s, data)
    ensures Offset(a) == LowOffset(a.base, s) && Wrap(Offset(a) + |data|) == HighOffset(a.base, s)
    ensures Overwrites(a.owners, LowOffset(a.base, s), HighOffset(a.base, s), a.lay.stmt) <==>
              OverwritesIn(a.lay.log, a.base, s)
  {
    hide Claimants, History, Wrap;
    var lo, hi := LowOffset(a.base, s), HighOffset(a.base, s);
    forall q: word
      ensures OwnedByOther(a.owners, q, a.lay.stmt) <==> ClaimedByOther(a.lay.log, a.base, q, s.stmt)
    {
      assert History(a.owners, q) == Claimants(a.lay.log, a.base, q);
    }
  }

  /** Whether a later store supersedes the field depends on nothing after that store. */
  lemma HitsSame(lay: Layout, next: Layout, base: word, j: nat, k: nat)
    requires lay.log <= next.log && j < k < |lay.log| && lay.log[j].Field?
    requires forall key :: DefinedBefore(lay, key, k) <==> DefinedBefore(next, key, k)
    ensures Hits(lay, base, j, k) <==> Hits(next, base, j, k)
  {
    hide Meets, OverwritesIn, DefinedBefore;
    assert next.log[..k] == lay.log[..k] && next.log[j] == lay.log[j] && next.log[k] == lay.log[k];
  }

  lemma StoreDeadIs(a: Asm, s: Stored, data: seq<octet>, i: nat)
    requires Linked(a) && Track(a) && Recorded(a, s, data) && i < |a.fixups|
    ensures var b := StoreBytes(a, s, data);
            b.home == a.home && |b.fixups| == |a.fixups| && (b.fixups[i].dead <==> Hit(b.lay, b.base, b.home[i]))
  {
    hide Linked, Timed, ClaimsAre, OverwritesIn, Claim, Write, DefinedBefore, Overwrites;
    var b := StoreBytes(a, s, data);
    var j, n := a.home[i], |a.lay.log|;
    assert b.lay.log == a.lay.log + [s] && b.lay.equations == a.lay.equations && b.lay.log[..n] == a.lay.log;
    WaitingNow(a, i);
    OverwritesSame(a, s, data);
    assert HomeMatches(a.fixups[i], a.lay.log[j]);
    assert a.fixups[i].dead <==> Hit(a.lay, a.base, j);
    SameBefore(a.lay, b.lay);
    assert StillWaits(b.lay, j, n) <==> StillWaits(a.lay, j, n);
    NewHit(a, s, data, i);
    hide StoreBytes, StillWaits, Meets, Hits;
    HitGrows(a.lay, b.lay, a.base, j);
  }

  lemma SameBefore(lay: Layout, next: Layout)
    requires next.equations == lay.equations
    ensures forall key, k: nat :: DefinedBefore(lay, key, k) <==> DefinedBefore(next, key, k)
  {
  }

  lemma NewHit(a: Asm, s: Stored, data: seq<octet>, i: nat)
    requires Homes(a) && Recorded(a, s, data) && i < |a.fixups|
    requires a.fixups[i].pending > 0 <==> StillWaits(a.lay, a.home[i], |a.lay.log|)
    requires Offset(a) == LowOffset(a.base, s) && Wrap(Offset(a) + |data|) == HighOffset(a.base, s)
    requires Overwrites(a.owners, LowOffset(a.base, s), HighOffset(a.base, s), a.lay.stmt) <==>
               OverwritesIn(a.lay.log, a.base, s)
    ensures var b := StoreBytes(a, s, data);
            b.fixups[i].dead <==> a.fixups[i].dead || Hits(b.lay, b.base, a.home[i], |a.lay.log|)
  {
    hide OverwritesIn, Overwrites, Claim, Write, LowOffset, HighOffset, Offset, DefinedBefore;
    var b := StoreBytes(a, s, data);
    var n := |a.lay.log|;
    assert b.lay.log[..n] == a.lay.log && b.lay.log[n] == s;
    assert HomeMatches(a.fixups[i], a.lay.log[a.home[i]]);
    SameBefore(a.lay, b.lay);
    assert StillWaits(b.lay, a.home[i], n) <==> StillWaits(a.lay, a.home[i], n);
  }

  /** One more store may supersede a field; the earlier ones did or did not. */
  lemma HitGrows(lay: Layout, next: Layout, base: word, j: nat)
    requires |next.log| == |lay.log| + 1 && lay.log <= next.log && next.equations == lay.equations && j < |lay.log|
    requires lay.log[j].Field?
    ensures Hit(next, base, j) <==> Hit(lay, base, j) || Hits(next, base, j, |lay.log|)
  {
    SameBefore(lay, next);
    forall k: nat | j < k < |lay.log|
      ensures Hits(lay, base, j, k) <==> Hits(next, base, j, k)
    {
      HitsSame(lay, next, base, j, k);
    }
    assert forall k: nat :: Hits(next, base, j, k) ==> j < k < |next.log|;
    assert forall k: nat :: Hits(lay, base, j, k) ==> j < k < |lay.log|;
  }

  lemma StoreTrack(a: Asm, s: Stored, data: seq<octet>)
    requires Linked(a) && Track(a) && Recorded(a, s, data) && (s.Field? ==> s.waits == {})
    ensures Track(StoreBytes(a, s, data))
  {
    var b := StoreBytes(a, s, data);
    StoreHomed(a, s, data);
    forall j | 0 <= j < |b.lay.log| && b.lay.log[j].Field? && b.lay.log[j].waits != {}
      ensures j in b.home
    {
      assert b.lay.log[j] == a.lay.log[j];
    }
  }

  /** All but that the last store, if its field waits, has left its fixup. */
  lemma StoreHomed(a: Asm, s: Stored, data: seq<octet>)
    requires Linked(a) && Track(a) && Recorded(a, s, data) && (s.Field? ==> s.waits !! a.lay.defs.Keys)
    ensures var b := StoreBytes(a, s, data);
            && Homes(b) && Timed(b.lay) && ClaimsAre(b) && DeadIs(b)
            && b.lay.log == a.lay.log + [s] && b.home == a.home && |b.fixups| == |a.fixups|
  {
    hide Linked, Hit, Claimants, Hits;
    var b := StoreBytes(a, s, data);
    StoreHomes(a, s, data);
    StoreLog(a, s, data);
    assert Timed(b.lay) by {
      hide DeadIs, ClaimsAre;
    }
    hide Timed, Track, Homes, DeadIs;
    TrackParts(a);
    forall q: word
      ensures History(b.owners, q) == Claimants(b.lay.log, b.base, q)
    {
      StoreHistory(a, s, data, q);
      ClaimantsAppend(a.lay.log, s, a.base, q);
    }
    forall i | 0 <= i < |b.fixups|
      ensures b.fixups[i].dead <==> Hit(b.lay, b.base, b.home[i])
    {
      StoreDeadIs(a, s, data, i);
    }
    DeadIsAll(b);
  }

  lemma TrackParts(a: Asm)
    requires Track(a)
    ensures Homes(a) && Housed(a) && Timed(a.lay) && ClaimsAre(a) && DeadIs(a)
  {
  }

  lemma DeadIsAll(b: Asm)
    requires Homes(b)
    requires forall i :: 0 <= i < |b.fixups| ==> i < |b.home| && (b.fixups[i].dead <==> Hit(b.lay, b.base, b.home[i]))
    ensures DeadIs(b)
  {
  }

  // ---- Fields, and what follows them in a statement ----

  /** Two layouts with the same stores, and the same definitions before each, have the same superseded fields. */
  lemma SameHits(lay: Layout, next: Layout, base: word)
    requires next.log == lay.log
    requires forall key, k: nat :: k < |lay.log| ==> (DefinedBefore(lay, key, k) <==> DefinedBefore(next, key, k))
    ensures forall j: nat :: Hit(lay, base, j) <==> Hit(next, base, j)
  {
    hide Meets, OverwritesIn, DefinedBefore;
    forall j: nat, k: nat
      ensures Hits(lay, base, j, k) <==> Hits(next, base, j, k)
    {
      if j < k < |lay.log| && lay.log[j].Field? {
        HitsSame(lay, next, base, j, k);
      }
    }
  }

  lemma QueueTrack(a: Asm, f: Fixup, s: Stored)
    requires Homes(a) && Timed(a.lay) && ClaimsAre(a) && DeadIs(a)
    requires a.lay.log != [] && a.lay.log[|a.lay.log| - 1] == s && HomeMatches(f, s) && !f.dead
    requires forall i :: 0 <= i < |a.home| ==> a.home[i] < |a.lay.log| - 1
    requires forall j :: 0 <= j < |a.lay.log| - 1 && a.lay.log[j].Field? && a.lay.log[j].waits != {} ==> j in a.home
    ensures Track(QueueFixup(a, f))
  {
    hide Hits, Claimants, Attach, Leaves;
    QueueFrame(a, f);
    var b := QueueFixup(a, f);
    hide QueueFixup;
    var n := |a.lay.log| - 1;
    SameHits(a.lay, b.lay, a.base);
    assert b.home[|a.home|] == n;
    forall j | 0 <= j < |b.lay.log| && b.lay.log[j].Field? && b.lay.log[j].waits != {}
      ensures j in b.home
    {
      assert j < n ==> j in a.home;
    }
    assert forall k: nat :: Hits(b.lay, b.base, n, k) ==> n < k < |b.lay.log| by { LastUnhit(b.lay, b.base, n); }
  }

  lemma LastUnhit(lay: Layout, base: word, j: nat)
    ensures forall k: nat :: Hits(lay, base, j, k) ==> j < k < |lay.log|
  {
  }

  lemma FieldTrack(a: Asm, kind: FieldKind, x: ExprVal, e: Term, here: word, ph: word)
    requires Linked(a) && Track(a) && forall key :: key in Waits(x) ==> key !in a.lay.defs
    ensures var b := StoreField(a, kind, x, e, here, ph); Track(b) && Linked(b) && b.lay.defs == a.lay.defs
  {
    hide Linked, Track, Homes, DeadIs, Timed, ClaimsAre, StoreBytes, QueueFixup, FieldBytes, LittleEndian, LeafSet;
    StoreFieldKeepsLinked(a, kind, x, e, here, ph);
    var s := FieldAt(a.lay, kind, x, e, here, ph);
    match x
    case Known(v, _) => StoreTrack(a, s, FieldBytes(kind, a.lay.pc, a.lay.caseBase, v));
    case Unknown(t) =>
      var data := LittleEndian(ph, FieldSize(kind));
      StoreHomed(a, s, data);
      TrackParts(a);
      HousedBefore(a, s, data);
      QueueTrack(StoreBytes(a, s, data), Fixup(a.lay.pc, kind, a.lay.caseBase, t, 0, a.lay.stmt, false), s);
  }

  lemma HousedBefore(a: Asm, s: Stored, data: seq<octet>)
    requires Homes(a) && Housed(a)
    requires var b := StoreBytes(a, s, data); b.lay.log == a.lay.log + [s] && b.home == a.home
    ensures var b := StoreBytes(a, s, data);
            && (forall i :: 0 <= i < |b.home| ==> b.home[i] < |b.lay.log| - 1)
            && forall j :: 0 <= j < |b.lay.log| - 1 && b.lay.log[j].Field? && b.lay.log[j].waits != {} ==> j in b.home
  {
    hide StoreBytes, HomeMatches;
    var b := StoreBytes(a, s, data);
    forall j | 0 <= j < |b.lay.log| - 1 && b.lay.log[j].Field? && b.lay.log[j].waits != {}
      ensures j in b.home
    {
      assert b.lay.log[j] == a.lay.log[j];
    }
  }

  lemma LiteralTrack(a: Asm, data: seq<octet>)
    requires Linked(a) && Track(a)
    ensures var b := StoreLiteral(a, data); Track(b) && Linked(b) && b.lay.defs == a.lay.defs
  {
    hide Linked, Track, StoreBytes;
    StoreLiteralKeepsLinked(a, data);
    StoreTrack(a, Literal(a.lay.stmt, a.lay.pc, data), data);
  }

  lemma {:induction false} CopiesTrack(a: Asm, kind: FieldKind, x: ExprVal, e: Term, here: word, ph: word, count: nat)
    requires Linked(a) && Track(a) && forall key :: key in Waits(x) ==> key !in a.lay.defs
    ensures var b := StoreCopies(a, kind, x, e, here, ph, count); Track(b) && Linked(b) && b.lay.defs == a.lay.defs
  {
    hide Linked, Track, StoreField, Waits;
    if count > 0 {
      CopiesTrack(a, kind, x, e, here, ph, count - 1);
      FieldTrack(StoreCopies(a, kind, x, e, here, ph, count - 1), kind, x, e, here, ph);
    }
  }

  lemma ValueTrack(a: Asm, item: Item, x: ExprVal)
    requires Linked(a) && Track(a) && forall key :: key in Waits(x) ==> key !in a.lay.defs
    ensures Track(StoreValue(a, item, x))
  {
    hide Linked, Track, StoreField, StoreLiteral, StoreCopies, Waits;
    match item
    case Raw(data) => LiteralTrack(a, data);
    case Data(w, e, count) => CopiesTrack(a, Address(w), x, e, a.lay.pc, Placeholder(AsTree(x)), count);
    case Branch(w, e) =>
      FieldTrack(a, BranchField(w), x, e, a.lay.pc, Wrap(Placeholder(AsTree(x)) - a.lay.pc - Bytes(w)));
    case CaseEntry(e) => FieldTrack(a, CaseField, x, e, a.lay.pc, 0);
    case Relative(deferred, size, e) =>
      var w := RelativeSize(x, size, Wrap(a.lay.pc + 1));
      LiteralTrack(a, [ModeByte(w, deferred, 15)]);
      FieldTrack(StoreLiteral(a, [ModeByte(w, deferred, 15)]), Displacement(w), x, e, a.lay.pc, 0);
    case Register(deferred, reg, size, e) =>
      var w := RegisterSize(x, size);
      LiteralTrack(a, [ModeByte(w, deferred, reg)]);
      FieldTrack(StoreLiteral(a, [ModeByte(w, deferred, reg)]), Address(w), x, e, a.lay.pc, 0);
  }

  lemma {:induction false} ItemsTrack(a: Asm, items: seq<Item>)
    requires Linked(a) && Track(a) && StepItems(a, items).Some?
    ensures Track(StepItems(a, items).value)
  {
    hide Linked, Track, StoreValue, Waits, Read;
    if items != [] {
      var front := items[..|items| - 1];
      ItemsTrack(a, front);
      ItemsKeepLinked(a, front);
      var b := StepItems(a, front).value;
      ReadWaits(b.lay, items[|items| - 1]);
      ValueTrack(b, items[|items| - 1], Read(b.lay, ItemTerm(items[|items| - 1]), b.lay.pc).value);
    }
  }

  // ---- Definitions ----

  /** Completing the fixups a symbol held up changes only their counts and the image. */
  lemma {:induction false} CompleteFrame(a: Asm, ws: seq<nat>)
    requires forall k :: 0 <= k < |ws| ==> ws[k] < |a.fixups|
    requires Complete(a, ws).Some?
    ensures var b := Complete(a, ws).value;
            && b.lay == a.lay && b.base == a.base && b.owners == a.owners && b.home == a.home
            && |b.fixups| == |a.fixups|
            && forall i :: 0 <= i < |a.fixups| ==> b.fixups[i] == a.fixups[i].(pending := b.fixups[i].pending)
    decreases |ws|
  {
    hide CompleteFixup;
    if ws != [] {
      var a1 := Decrement(a, ws[0]);
      if a1.fixups[ws[0]].pending > 0 {
        CompleteFrame(a1, ws[1..]);
      } else {
        CompleteFixupFrame(a1, ws[0]);
        CompleteFrame(CompleteFixup(a1, ws[0]).value, ws[1..]);
      }
    }
  }

  lemma DefineTrack(a: Asm, name: string, v: word, e: Term)
    requires Track(a) && Define(a, name, v, e).Some?
    ensures Track(Define(a, name, v, e).value)
  {
    hide Hits, Claimants, CompleteFixup, Complete;
    CompleteFrame(SetSymbol(a, name, v, e), WaitersOn(a.symbols, name));
    var b := Define(a, name, v, e).value;
    assert b.lay == LayDefine(a.lay, name, v, e);
    hide Define;
    DefineTimed(a.lay, name, v, e);
    SameHits(a.lay, b.lay, a.base);
    forall i | 0 <= i < |b.home|
      ensures b.home[i] < |b.lay.log| && HomeMatches(b.fixups[i], b.lay.log[b.home[i]])
    {
    }
  }

  lemma DefineTimed(lay: Layout, name: string, v: word, e: Term)
    requires Timed(lay)
    ensures var next := LayDefine(lay, name, v, e);
            && Timed(next) && next.log == lay.log
            && forall key, k: nat :: k < |lay.log| ==> (DefinedBefore(lay, key, k) <==> DefinedBefore(next, key, k))
  {
    var next := LayDefine(lay, name, v, e);
    var n := |lay.equations|;
    assert next.equations[n].name == name;
    assert forall i :: 0 <= i < n ==> next.equations[i] == lay.equations[i];
  }

  // ---- Every run ----

  /** Only the location, the statement or the .CASE base changes. */
  lemma SameTrack(a: Asm, b: Asm)
    requires Track(a) && b == a.(lay := b.lay)
    requires b.lay.log == a.lay.log && b.lay.equations == a.lay.equations && b.lay.defs == a.lay.defs
    ensures Track(b)
  {
    hide Hits, Claimants;
    SameHits(a.lay, b.lay, a.base);
  }

  lemma StatementTrack(a: Asm, s: Statement)
    requires Linked(a) && Track(a) && StepStatement(a, s).Some?
    ensures Track(StepStatement(a, s).value)
  {
    hide Linked, Track, Define, StepItems, ReadNow;
    var b := NextStatement(a);
    SameTrack(a, b);
    SameLinksLinked(a, b);
    match s
    case Label(name) => DefineTrack(b, name, b.lay.pc, Here);
    case Assign(name, e) => DefineTrack(b, name, ReadNow(b.lay, e).value, e);
    case Origin(e) => SameTrack(b, b.(lay := b.lay.(pc := ReadNow(b.lay, e).value)));
    case Store(isCase, items) =>
      var c := b.(lay := LayCaseBase(b.lay, isCase));
      SameTrack(b, c);
      SameLinksLinked(b, c);
      ItemsTrack(c, items);
  }

  lemma {:induction false} RunTrack(program: seq<Statement>, base: word, start: word)
    requires Assemble(program, base, start).Some?
    ensures Track(Assemble(program, base, start).value) && Assemble(program, base, start).value.base == base
  {
    hide Track, StepStatement;
    if program == [] {
      StartTrack(base, start);
    } else {
      var front := program[..|program| - 1];
      RunTrack(front, base, start);
      RunKeepsLinked(front, base, start);
      StatementTrack(Assemble(front, base, start).value, program[|program| - 1]);
      StatementBase(Assemble(front, base, start).value, program[|program| - 1]);
    }
  }

  lemma StartTrack(base: word, start: word)
    ensures Track(Start(base, start))
  {
  }

  lemma {:induction false} ItemsBase(a: Asm, items: seq<Item>)
    requires StepItems(a, items).Some?
    ensures StepItems(a, items).value.base == a.base
  {
    hide StepItem;
    if items != [] {
      ItemsBase(a, items[..|items| - 1]);
      ItemBase(StepItems(a, items[..|items| - 1]).value, items[|items| - 1]);
    }
  }

  lemma StatementBase(a: Asm, s: Statement)
    requires StepStatement(a, s).Some?
    ensures StepStatement(a, s).value.base == a.base
  {
    hide Define, StepItems, ReadNow;
    var b := NextStatement(a);
    match s
    case Label(name) => DefineLayout(b, name, b.lay.pc, Here);
    case Assign(name, e) => DefineLayout(b, name, ReadNow(b.lay, e).value, e);
    case Origin(_) =>
    case Store(isCase, items) => ItemsBase(b.(lay := LayCaseBase(b.lay, isCase)), items);
  }

  /** In every run, whatever overlaps: a fixup ends dead exactly where a later store met it, by pass one's layout. */
  lemma DeadExactly(program: seq<Statement>, base: word, start: word, i: nat)
    requires Assemble(program, base, start).Some? && i < |Assemble(program, base, start).value.fixups|
    ensures var a := Assemble(program, base, start).value;
            i < |a.home| && (a.fixups[i].dead <==> Hit(PassOne(program, start), base, a.home[i]))
  {
    hide Assemble, PassOne, Hit;
    RunTrack(program, base, start);
    RunLayout(program, base, start);
  }
}
