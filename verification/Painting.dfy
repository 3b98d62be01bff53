/**
 The image one pass leaves, byte by byte, from pass one's layout alone and in a section at any base: what the byte's
 last store first put there, unless fields completed after that store cover the byte; then it is the last of those.
 */
module Painting {
  import opened Words
  import opened Expressions
  import opened TwoPass
  import opened OnePass
  import opened ForwardLists
  import opened Backpatch
  import opened Supersession

  // ---- What the layout says ----

  /** Definition n is the last that store j's field waited for. */
  ghost predicate CompletedBy(lay: Layout, j: nat, n: nat) {
    && j < |lay.log| && n < |lay.equations| && lay.log[j].Field? && lay.equations[n].name in lay.log[j].waits
    && forall key :: key in lay.log[j].waits ==> exists i :: 0 <= i <= n && lay.equations[i].name == key
  }

  /** Store j's field, not superseded, is completed by definition n, after the byte's last store. */
  ghost predicate Late(lay: Layout, base: word, p: word, j: nat, n: nat) {
    CompletedBy(lay, j, n) && !Hit(lay, base, j) && Covers(lay.log[j], p)
    && LastStore(lay.log, p) < lay.equations[n].stores
  }

  /** The last of them to be completed: a definition completes the fields that waited for it last first. */
  ghost predicate Wins(lay: Layout, base: word, p: word, j: nat, n: nat) {
    Late(lay, base, p, j, n) && forall i: nat, m: nat :: Late(lay, base, p, i, m) ==> m < n || (m == n && j <= i)
  }

  function ByteOf(s: Stored, env: Env, p: word): octet
    requires Covers(s, p)
  {
    StoredData(s, env)[p - s.at]
  }

  function FirstData(s: Stored, env: Env): (data: seq<octet>)
    ensures |data| == StoredSize(s)
  {
    if s.Field? && s.waits != {} then LittleEndian(s.held, FieldSize(s.kind)) else StoredData(s, env)
  }

  /** What the last store to the byte put there: of a field that had to wait, what it was first given. */
  function FirstByte(log: seq<Stored>, env: Env, p: word): octet {
    var i := LastStore(log, p);
    if i < 0 then 0 else FirstData(log[i], env)[p - log[i].at]
  }

  ghost predicate PaintedAt(lay: Layout, base: word, env: Env, p: word, v: octet) {
    && (forall j: nat, n: nat :: Wins(lay, base, p, j, n) ==> v == ByteOf(lay.log[j], env, p))
    && ((forall j: nat, n: nat :: !Late(lay, base, p, j, n)) ==> v == FirstByte(lay.log, env, p))
  }

  ghost predicate Painted(a: Asm, env: Env) {
    forall p: word :: PaintedAt(a.lay, a.base, env, p, At(a.image, p))
  }

  // ---- A store ----

  lemma FirstByteAppend(log: seq<Stored>, s: Stored, env: Env, p: word)
    ensures FirstByte(log + [s], env, p) == if Covers(s, p) then FirstData(s, env)[p - s.at] else FirstByte(log, env, p)
  {
    LastStoreAppend(log, s, p);
  }

  lemma CompletedSame(lay: Layout, next: Layout, j: nat, n: nat)
    requires lay.log <= next.log && next.equations == lay.equations && Timed(next)
    requires forall i :: 0 <= i < |lay.equations| ==> lay.equations[i].stores <= |lay.log|
    ensures CompletedBy(next, j, n) <==> CompletedBy(lay, j, n)
  {
    if j < |lay.log| {
      assert next.log[j] == lay.log[j];
    }
  }

  /** A field already completed is not superseded any more. */
  lemma CompletedUnhit(lay: Layout, next: Layout, base: word, j: nat, n: nat)
    requires |next.log| == |lay.log| + 1 && lay.log <= next.log && next.equations == lay.equations
    requires CompletedBy(lay, j, n) && forall i :: 0 <= i < |lay.equations| ==> lay.equations[i].stores <= |lay.log|
    ensures Hit(next, base, j) <==> Hit(lay, base, j)
  {
    hide Meets, OverwritesIn, Hit;
    HitGrows(lay, next, base, j);
    assert next.log[j] == lay.log[j];
    forall key | key in next.log[j].waits
      ensures DefinedBefore(next, key, |lay.log|)
    {
      var i :| 0 <= i <= n && lay.equations[i].name == key;
      assert next.equations[i].stores <= |lay.log|;
    }
  }

  lemma LateStored(lay: Layout, next: Layout, base: word, s: Stored, p: word, j: nat, n: nat)
    requires next.log == lay.log + [s] && next.equations == lay.equations && Timed(lay) && Timed(next)
    ensures Late(next, base, p, j, n) <==> !Covers(s, p) && Late(lay, base, p, j, n)
  {
    hide Hit;
    LastStoreAppend(lay.log, s, p);
    CompletedSame(lay, next, j, n);
    if CompletedBy(lay, j, n) {
      CompletedUnhit(lay, next, base, j, n);
    }
  }

  lemma StorePaints(a: Asm, s: Stored, data: seq<octet>, env: Env)
    requires Timed(a.lay) && Painted(a, env) && Timed(StoreBytes(a, s, data).lay)
    requires Recorded(a, s, data) && a.lay.pc + |data| < TWO32 && data == FirstData(s, env)
    ensures Painted(StoreBytes(a, s, data), env)
  {
    hide StoreBytes, Late, Timed, FirstByte, FirstData, StoredData;
    var b := StoreBytes(a, s, data);
    StoreLog(a, s, data);
    forall p: word
      ensures PaintedAt(b.lay, b.base, env, p, At(b.image, p))
    {
      assert PaintedAt(a.lay, a.base, env, p, At(a.image, p));
      StoreByte(a, s, data, p);
      FirstByteAppend(a.lay.log, s, env, p);
      StorePaintsAt(a.lay, b.lay, a.base, s, env, p, At(a.image, p), At(b.image, p));
    }
  }

  lemma StorePaintsAt(lay: Layout, next: Layout, base: word, s: Stored, env: Env, p: word, v: octet, w: octet)
    requires next.log == lay.log + [s] && next.equations == lay.equations && Timed(lay) && Timed(next)
    requires PaintedAt(lay, base, env, p, v) && w == if Covers(s, p) then FirstByte(next.log, env, p) else v
    requires !Covers(s, p) ==> FirstByte(next.log, env, p) == FirstByte(lay.log, env, p)
    ensures PaintedAt(next, base, env, p, w)
  {
    hide Timed, Hit, FirstByte, StoredData;
    forall j: nat, n: nat
      ensures Late(next, base, p, j, n) <==> !Covers(s, p) && Late(lay, base, p, j, n)
    {
      LateStored(lay, next, base, s, p, j, n);
    }
    forall j: nat, n: nat | Wins(next, base, p, j, n)
      ensures w == ByteOf(next.log[j], env, p)
    {
      assert Late(lay, base, p, j, n);
      assert next.log[j] == lay.log[j];
      assert forall i: nat, m: nat :: Late(lay, base, p, i, m) ==> Late(next, base, p, i, m);
      assert Wins(lay, base, p, j, n);
    }
  }

  /** The image depends on the stores, the definitions and the base. */
  lemma SamePainted(a: Asm, b: Asm, env: Env)
    requires Painted(a, env) && b.image == a.image && b.base == a.base
    requires b.lay.log == a.lay.log && b.lay.equations == a.lay.equations
    ensures Painted(b, env)
  {
    hide Hit, StoredData, FirstByte;
    SameHits(a.lay, b.lay, a.base);
    forall p: word
      ensures PaintedAt(b.lay, b.base, env, p, At(b.image, p))
    {
      assert PaintedAt(a.lay, a.base, env, p, At(a.image, p));
      forall j: nat, n: nat
        ensures Late(b.lay, b.base, p, j, n) <==> Late(a.lay, a.base, p, j, n)
      {
        assert CompletedBy(b.lay, j, n) <==> CompletedBy(a.lay, j, n);
      }
      assert forall j: nat, n: nat :: Wins(b.lay, b.base, p, j, n) ==> Wins(a.lay, a.base, p, j, n);
    }
  }

  // ---- A definition ----

  /** Fixup i waits for nothing more, and is to be stored over the byte. */
  ghost predicate Finished(a: Asm, i: nat, p: word)
    requires Homes(a) && i < |a.fixups|
  {
    Awaited(a, i) == {} && !a.fixups[i].dead && Covers(a.lay.log[a.home[i]], p)
  }

  /** What the fixups ws leave at the byte, told one after another: the last of them to be stored over it, if any is. */
  ghost predicate ToldAt(a: Asm, ws: seq<nat>, env: Env, p: word, v: octet)
    requires Homes(a) && Told(a, ws)
  {
    && (forall i :: i in ws && Finished(a, i, p) && (forall k :: k in ws && Finished(a, k, p) ==> i <= k)
                    ==> v == ByteOf(a.lay.log[a.home[i]], env, p))
    && ((forall i :: i in ws ==> !Finished(a, i, p)) ==> v == At(a.image, p))
  }

  /** What telling a fixup changes: counts, and the image. */
  ghost predicate TellFrame(a: Asm, c: Asm) {
    && c.lay == a.lay && c.home == a.home && |c.fixups| == |a.fixups| && c.symbols == a.symbols
    && forall i :: 0 <= i < |a.fixups| ==> c.fixups[i] == a.fixups[i].(pending := c.fixups[i].pending)
  }

  lemma TellIs(a: Asm, ws: seq<nat>, env: Env, p: word)
    requires TablesAgree(a) && ListsComplete(a) && Homes(a) && Means(a, env) && Agrees(env, a.lay.defs)
    requires NoWrap(a.lay.log)
    requires ws != [] && Told(a, ws) && Counted(a, ws) && Tell(a, ws[0]).Some?
    ensures var c := Tell(a, ws[0]).value;
            && TellFrame(a, c)
            && At(c.image, p) == if Finished(a, ws[0], p) then ByteOf(a.lay.log[a.home[ws[0]]], env, p)
                 else At(a.image, p)
  {
    var i := ws[0];
    DecrementCounts(a, ws);
    DecrementFrame(a, i);
    hide Counted, TablesAgree, ListsComplete, Agrees, Decrement, CompleteFixup, Awaited, Means, NoWrap;
    var b := Decrement(a, i);
    if b.fixups[i].pending == 0 {
      assert Awaited(a, i) == {};
      CompletedRight(a, i, env);
      var s := a.lay.log[a.home[i]];
      CompleteFixupIs(b, i, MeaningAt(s, env));
      assert HomeMatches(a.fixups[i], s);
      StoredIs(s, env);
      InRange(a.lay.log, a.home[i]);
      WriteAt(a.image, s.at, StoredData(s, env), p);
    } else {
      assert Awaited(a, i) != {};
    }
  }

  lemma InRange(log: seq<Stored>, j: nat)
    requires NoWrap(log) && j < |log|
    ensures log[j].at + StoredSize(log[j]) < TWO32
  {
  }

  lemma StoredIs(s: Stored, env: Env)
    requires s.Field?
    ensures StoredData(s, env) == FieldBytes(s.kind, s.at, s.base, MeaningAt(s, env))
  {
  }

  lemma FrameHomes(a: Asm, c: Asm, env: Env)
    requires Homes(a) && Means(a, env) && TellFrame(a, c)
    ensures Homes(c) && Means(c, env)
    ensures forall i, p: word :: 0 <= i < |a.fixups| ==> (Finished(c, i, p) <==> Finished(a, i, p))
  {
    hide Linear, Value, MeaningAt, Covers;
    forall i | 0 <= i < |a.fixups|
      ensures Awaited(c, i) == Awaited(a, i)
    {
    }
  }

  lemma {:induction false} CompletePaints(a: Asm, ws: seq<nat>, env: Env, p: word)
    requires TablesAgree(a) && ListsSound(a) && ListsComplete(a) && Told(a, ws) && Counted(a, ws)
    requires Homes(a) && Means(a, env) && Agrees(env, a.lay.defs) && NoWrap(a.lay.log) && Complete(a, ws).Some?
    ensures ToldAt(a, ws, env, p, At(Complete(a, ws).value.image, p))
    decreases |ws|
  {
    if ws == [] {
      assert Complete(a, ws) == Some(a);
    } else {
      CompleteTells(a, ws);
      hide TablesAgree, ListsSound, ListsComplete, Counted, Agrees, NoWrap, Tell, Complete, Homes, Means, Finished;
      var c := Tell(a, ws[0]).value;
      TellIs(a, ws, env, p);
      TellKeepsLists(a, ws);
      FrameHomes(a, c, env);
      CompletePaints(c, ws[1..], env, p);
      ToldOn(a, c, ws, env, p, At(Complete(a, ws).value.image, p));
    }
  }

  lemma ToldOn(a: Asm, c: Asm, ws: seq<nat>, env: Env, p: word, v: octet)
    requires Homes(a) && Homes(c) && ws != [] && Told(a, ws) && Told(c, ws[1..]) && TellFrame(a, c)
    requires forall i, p: word :: 0 <= i < |a.fixups| ==> (Finished(c, i, p) <==> Finished(a, i, p))
    requires At(c.image, p) == if Finished(a, ws[0], p) then ByteOf(a.lay.log[a.home[ws[0]]], env, p)
               else At(a.image, p)
    requires ToldAt(c, ws[1..], env, p, v)
    ensures ToldAt(a, ws, env, p, v)
  {
    hide HomeMatches, Awaited, Covers, StoredData;
    assert forall i :: i in ws <==> i == ws[0] || i in ws[1..];
    assert forall i :: i in ws[1..] ==> i < ws[0];
    forall i | i in ws && Finished(a, i, p) && (forall k :: k in ws && Finished(a, k, p) ==> i <= k)
      ensures v == ByteOf(a.lay.log[a.home[i]], env, p)
    {
      if i == ws[0] {
        assert forall k :: k in ws[1..] ==> !Finished(c, k, p);
      }
    }
  }

  /** A fixup's symbol is missing just while it is awaited. */
  lemma AwaitedMissing(a: Asm, i: nat, key: string)
    requires Linked(a) && i < |a.fixups| && key in LeafSet(a.fixups[i].expr)
    ensures key in Awaited(a, i) <==> key !in a.lay.defs
  {
  }

  /** The fixups told of a symbol that wait for no other are those whose fields its definition completes. */
  lemma CompletedIsTold(a: Asm, name: string, v: word, e: Term, i: nat)
    requires Linked(a) && Homes(a) && Timed(SetSymbol(a, name, v, e).lay) && name !in a.lay.defs && i < |a.fixups|
    ensures var b := SetSymbol(a, name, v, e);
            CompletedBy(b.lay, a.home[i], |a.lay.equations|) <==> i in WaitersOn(a.symbols, name) && Awaited(b, i) == {}
  {
    hide Linked, Timed, Awaited, WaitersOn, LeafSet, CompletedBy;
    var b := SetSymbol(a, name, v, e);
    var waits := LeafSet(a.fixups[i].expr);
    SetSymbolUndefined(a, name, v, e, i);
    assert HomeMatches(a.fixups[i], a.lay.log[a.home[i]]);
    NewCompletedBy(a.lay, name, v, e, a.home[i]);
    AwaitsOwn(a, i);
    hide Homes, SetSymbol;
    AwaitedOnly(a, i, name);
    assert b.lay.defs.Keys == a.lay.defs.Keys + {name} by {
      DefinedKeys(a, name, v, e);
    }
  }

  lemma DefinedKeys(a: Asm, name: string, v: word, e: Term)
    ensures SetSymbol(a, name, v, e).lay.defs.Keys == a.lay.defs.Keys + {name}
  {
  }

  lemma AwaitedOnly(a: Asm, i: nat, name: string)
    requires Linked(a) && i < |a.fixups| && name !in a.lay.defs
    ensures var waits := LeafSet(a.fixups[i].expr);
            (name in Awaited(a, i) && Awaited(a, i) - {name} == {})
            <==> name in waits && forall key :: key in waits ==> key == name || key in a.lay.defs
  {
    hide Linked, LeafSet, Awaited;
    AwaitsOwn(a, i);
    forall key | key in LeafSet(a.fixups[i].expr)
      ensures key in Awaited(a, i) <==> key !in a.lay.defs
    {
      AwaitedMissing(a, i, key);
    }
    var rest := Awaited(a, i) - {name};
    forall key | key in Awaited(a, i)
      ensures key == name || key in rest
    {
    }
  }

  lemma AwaitsOwn(a: Asm, i: nat)
    requires i < |a.fixups|
    ensures Awaited(a, i) <= LeafSet(a.fixups[i].expr)
  {
  }

  lemma NewCompletedBy(lay: Layout, name: string, v: word, e: Term, j: nat)
    requires var next := LayDefine(lay, name, v, e); Timed(next) && j < |lay.log| && lay.log[j].Field?
    ensures var next := LayDefine(lay, name, v, e);
            CompletedBy(next, j, |lay.equations|)
            <==> name in lay.log[j].waits && forall key :: key in lay.log[j].waits ==> key in next.defs
  {
    var next := LayDefine(lay, name, v, e);
    assert next.equations[|lay.equations|].name == name;
  }

  /** What the definition completes late is what its fixups finish. */
  lemma LateIsFinished(a: Asm, b: Asm, name: string, v: word, e: Term, p: word)
    requires Linked(a) && Track(a) && b == SetSymbol(a, name, v, e) && Timed(b.lay) && Homes(b) && name !in a.lay.defs
    requires forall j: nat :: Hit(b.lay, b.base, j) <==> Hit(a.lay, a.base, j)
    ensures forall i :: 0 <= i < |a.fixups| ==>
              (Late(b.lay, b.base, p, a.home[i], |a.lay.equations|) <==>
                i in WaitersOn(a.symbols, name) && Finished(b, i, p))
    ensures forall j: nat :: Late(b.lay, b.base, p, j, |a.lay.equations|) ==> j in a.home
  {
    var n := |a.lay.equations|;
    assert b.lay.equations[n].stores == |b.lay.log|;
    assert DeadIs(a) && Housed(a);
    hide SetSymbol, Linked, Track, Homes, Timed, CompletedBy, Hit, Awaited, WaitersOn, Covers;
    forall i | 0 <= i < |a.fixups|
      ensures Late(b.lay, b.base, p, a.home[i], n) <==> i in WaitersOn(a.symbols, name) && Finished(b, i, p)
    {
      CompletedIsTold(a, name, v, e, i);
    }
    forall j: nat | Late(b.lay, b.base, p, j, n)
      ensures j in a.home
    {
      CompletedWaits(b.lay, j, n);
    }
  }

  lemma CompletedWaits(lay: Layout, j: nat, n: nat)
    requires CompletedBy(lay, j, n)
    ensures j < |lay.log| && lay.log[j].Field? && lay.log[j].waits != {}
  {
  }

  /** The earlier definitions complete what they did. */
  lemma EarlierLate(lay: Layout, next: Layout, base: word, p: word, j: nat, m: nat)
    requires next.log == lay.log && lay.equations <= next.equations && m < |lay.equations|
    requires Hit(next, base, j) <==> Hit(lay, base, j)
    ensures Late(next, base, p, j, m) <==> Late(lay, base, p, j, m)
  {
    hide Hit;
    assert forall i :: 0 <= i <= m ==> next.equations[i] == lay.equations[i];
  }

  /** No fixup of the new definition's is stored over the byte: it is as before. */
  lemma NoneFinished(lay: Layout, next: Layout, base: word, env: Env, p: word, v: octet)
    requires next.log == lay.log && lay.equations <= next.equations && |next.equations| == |lay.equations| + 1
    requires forall j: nat :: Hit(next, base, j) <==> Hit(lay, base, j)
    requires forall j: nat :: !Late(next, base, p, j, |lay.equations|)
    requires PaintedAt(lay, base, env, p, v)
    ensures PaintedAt(next, base, env, p, v)
  {
    hide Hit, FirstByte, StoredData;
    forall j: nat, m: nat
      ensures Late(next, base, p, j, m) <==> Late(lay, base, p, j, m)
    {
      if m < |lay.equations| {
        EarlierLate(lay, next, base, p, j, m);
      }
    }
    assert forall j: nat, m: nat :: Wins(next, base, p, j, m) ==> Wins(lay, base, p, j, m);
  }

  /** What definition n completes late is what its fixups ws finish. */
  ghost predicate NowLate(a: Asm, ws: seq<nat>, n: nat, p: word)
    requires Homes(a)
  {
    && (forall i :: 0 <= i < |a.fixups| ==> (Late(a.lay, a.base, p, a.home[i], n) <==> i in ws && Finished(a, i, p)))
    && (forall j: nat :: Late(a.lay, a.base, p, j, n) ==> j in a.home)
  }

  /** The last of them told is the first that stored its field. */
  lemma SomeFinished(a: Asm, ws: seq<nat>, n: nat, p: word, j: nat)
    requires Homes(a) && Told(a, ws) && NowLate(a, ws, n, p) && Wins(a.lay, a.base, p, j, n)
    ensures exists i :: 0 <= i < |a.home| && a.home[i] == j && i in ws && Finished(a, i, p)
                        && forall k :: k in ws && Finished(a, k, p) ==> i <= k
  {
    hide Late, Finished, HomeMatches;
    var i :| 0 <= i < |a.home| && a.home[i] == j;
    forall k | k in ws && Finished(a, k, p)
      ensures i <= k
    {
      assert Late(a.lay, a.base, p, a.home[k], n);
    }
  }

  lemma LastWins(lay: Layout, base: word, p: word, j: nat, m: nat, i: nat, n: nat)
    requires Wins(lay, base, p, j, m) && Late(lay, base, p, i, n) && |lay.equations| == n + 1
    ensures m == n && j <= i
  {
    hide Hit, Covers;
  }

  lemma DefinePaintsAt(a: Asm, ws: seq<nat>, lay: Layout, env: Env, p: word, w: octet)
    requires Homes(a) && Told(a, ws) && ToldAt(a, ws, env, p, w) && NowLate(a, ws, |lay.equations|, p)
    requires a.lay.log == lay.log && lay.equations <= a.lay.equations && |a.lay.equations| == |lay.equations| + 1
    requires forall j: nat :: Hit(a.lay, a.base, j) <==> Hit(lay, a.base, j)
    requires PaintedAt(lay, a.base, env, p, At(a.image, p))
    ensures PaintedAt(a.lay, a.base, env, p, w)
  {
    hide Homes, HomeMatches, Awaited, Covers, Late, Wins, Hit, FirstByte, StoredData, NowLate, PaintedAt, ToldAt;
    if j0: nat :| Late(a.lay, a.base, p, j0, |lay.equations|) {
      forall j: nat, m: nat | Wins(a.lay, a.base, p, j, m)
        ensures j < |a.lay.log| && Covers(a.lay.log[j], p) && w == ByteOf(a.lay.log[j], env, p)
      {
        LastWins(a.lay, a.base, p, j, m, j0, |lay.equations|);
        WinnerTold(a, ws, env, p, w, j, m);
      }
      PaintedBy(a.lay, a.base, env, p, w, j0, |lay.equations|);
    } else {
      NoneTold(a, ws, |lay.equations|, env, p, w);
      NoneFinished(lay, a.lay, a.base, env, p, w);
    }
  }

  lemma WinnerTold(a: Asm, ws: seq<nat>, env: Env, p: word, w: octet, j: nat, n: nat)
    requires Homes(a) && Told(a, ws) && ToldAt(a, ws, env, p, w) && NowLate(a, ws, n, p) && Wins(a.lay, a.base, p, j, n)
    ensures j < |a.lay.log| && Covers(a.lay.log[j], p) && w == ByteOf(a.lay.log[j], env, p)
  {
    hide Late, Wins, NowLate, Told, Awaited, HomeMatches, Covers, StoredData;
    SomeFinished(a, ws, n, p, j);
  }

  lemma NoneTold(a: Asm, ws: seq<nat>, n: nat, env: Env, p: word, w: octet)
    requires Homes(a) && Told(a, ws) && ToldAt(a, ws, env, p, w) && NowLate(a, ws, n, p)
    requires forall j: nat :: !Late(a.lay, a.base, p, j, n)
    ensures w == At(a.image, p)
  {
    hide Late, Finished, HomeMatches;
    assert forall i :: i in ws ==> !Finished(a, i, p);
  }

  lemma PaintedBy(lay: Layout, base: word, env: Env, p: word, w: octet, j: nat, n: nat)
    requires Late(lay, base, p, j, n)
    requires forall i: nat, m: nat :: Wins(lay, base, p, i, m) ==> w == ByteOf(lay.log[i], env, p)
    ensures PaintedAt(lay, base, env, p, w)
  {
    hide Hit, StoredData, FirstByte;
  }

  /** The state between a symbol's definition and the first fixup told of it. */
  lemma SetSymbolFrame(a: Asm, name: string, v: word, e: Term)
    ensures var b := SetSymbol(a, name, v, e);
            && b.lay == LayDefine(a.lay, name, v, e) && b.lay.log == a.lay.log && b.image == a.image && b.base == a.base
            && b.fixups == a.fixups && b.home == a.home && b.owners == a.owners
            && a.lay.equations <= b.lay.equations && |b.lay.equations| == |a.lay.equations| + 1
  {
  }

  lemma NewName(lay: Layout, name: string, v: word, e: Term)
    requires Timed(lay) && Clean(LayDefine(lay, name, v, e))
    ensures name !in lay.defs
  {
    DefineTabled(lay, name, v, e);
  }

  lemma SetSymbolSets(a: Asm, name: string, v: word, e: Term)
    requires Linked(a) && Track(a) && Clean(LayDefine(a.lay, name, v, e))
    ensures var b := SetSymbol(a, name, v, e);
            && name !in a.lay.defs && Timed(b.lay) && Homes(b) && NoWrap(b.lay.log)
            && forall j: nat :: Hit(b.lay, b.base, j) <==> Hit(a.lay, a.base, j)
  {
    hide Linked, Housed, ClaimsAre, DeadIs, Hit, HomeMatches;
    var b := SetSymbol(a, name, v, e);
    NewName(a.lay, name, v, e);
    DefineTimed(a.lay, name, v, e);
    SameHits(a.lay, b.lay, a.base);
  }

  lemma SetSymbolLate(a: Asm, name: string, v: word, e: Term, p: word)
    requires Linked(a) && Track(a) && Clean(LayDefine(a.lay, name, v, e))
    ensures var b := SetSymbol(a, name, v, e);
            Homes(b) && NowLate(b, WaitersOn(a.symbols, name), |a.lay.equations|, p)
  {
    hide Linked, Track, Homes, Timed, Clean, LayDefine, SetSymbol, Late, Finished, WaitersOn, Hit;
    var b := SetSymbol(a, name, v, e);
    SetSymbolFrame(a, name, v, e);
    SetSymbolSets(a, name, v, e);
    LateIsFinished(a, b, name, v, e, p);
  }

  lemma SetSymbolLists(a: Asm, name: string, v: word, e: Term, env: Env)
    requires Linked(a) && Homes(a) && Means(a, env)
    ensures var b := SetSymbol(a, name, v, e);
            && TablesAgree(b) && ListsSound(b) && ListsComplete(b)
            && Told(b, WaitersOn(a.symbols, name)) && Counted(b, WaitersOn(a.symbols, name)) && Homes(b)
            && Means(b, env)
  {
    SetSymbolFrame(a, name, v, e);
    SetSymbolTables(a, name, v, e);
    SetSymbolCounts(a, name, v, e);
    hide SetSymbol, Linked, TablesAgree, ListsSound, ListsComplete, Told, Counted, WaitersOn, HomeMatches, Value,
      MeaningAt, Linear;
  }

  lemma DefinePaintsByte(a: Asm, name: string, v: word, e: Term, env: Env, p: word)
    requires Linked(a) && Track(a) && Means(a, env) && Painted(a, env) && Define(a, name, v, e).Some?
    requires Clean(LayDefine(a.lay, name, v, e)) && Agrees(env, LayDefine(a.lay, name, v, e).defs)
    ensures PaintedAt(LayDefine(a.lay, name, v, e), a.base, env, p, At(Define(a, name, v, e).value.image, p))
  {
    DefineIs(a, name, v, e);
    TrackParts(a);
    hide Means, Agrees, Linked, Complete, Define, Track, Homes, Timed, SetSymbol, WaitersOn, LayDefine, Told, Clean,
      ToldAt, NowLate, PaintedAt, TablesAgree, ListsSound, ListsComplete, Counted, Hit, NoWrap;
    var b := SetSymbol(a, name, v, e);
    var ws := WaitersOn(a.symbols, name);
    SetSymbolFrame(a, name, v, e);
    SetSymbolSets(a, name, v, e);
    SetSymbolLate(a, name, v, e, p);
    SetSymbolLists(a, name, v, e, env);
    assert PaintedAt(a.lay, a.base, env, p, At(a.image, p));
    CompletePaints(b, ws, env, p);
    DefinePaintsAt(b, ws, a.lay, env, p, At(Complete(b, ws).value.image, p));
  }

  lemma DefineIs(a: Asm, name: string, v: word, e: Term)
    requires Define(a, name, v, e).Some?
    ensures var b := SetSymbol(a, name, v, e);
            && (forall k :: 0 <= k < |WaitersOn(a.symbols, name)| ==> WaitersOn(a.symbols, name)[k] < |b.fixups|)
            && Define(a, name, v, e) == Complete(b, WaitersOn(a.symbols, name))
  {
  }

  lemma DefineMeans(a: Asm, name: string, v: word, e: Term, env: Env)
    requires Homes(a) && Means(a, env) && Define(a, name, v, e).Some?
    ensures var b := Define(a, name, v, e).value;
            Homes(b) && Means(b, env) && b.lay == LayDefine(a.lay, name, v, e) && b.base == a.base
  {
    DefineIs(a, name, v, e);
    SetSymbolFrame(a, name, v, e);
    CompleteFrame(SetSymbol(a, name, v, e), WaitersOn(a.symbols, name));
    hide SetSymbol, Define, Complete, LayDefine, WaitersOn, Value, MeaningAt, Linear;
  }

  lemma DefinePaints(a: Asm, name: string, v: word, e: Term, env: Env)
    requires Linked(a) && Track(a) && Means(a, env) && Painted(a, env) && Define(a, name, v, e).Some?
    requires Clean(LayDefine(a.lay, name, v, e)) && Agrees(env, LayDefine(a.lay, name, v, e).defs)
    ensures var b := Define(a, name, v, e).value; Homes(b) && Means(b, env) && Painted(b, env)
  {
    TrackParts(a);
    hide Track, Means, Agrees, Linked, Define, LayDefine, Clean, PaintedAt, Homes;
    DefineMeans(a, name, v, e, env);
    var b := Define(a, name, v, e).value;
    forall p: word
      ensures PaintedAt(b.lay, b.base, env, p, At(b.image, p))
    {
      DefinePaintsByte(a, name, v, e, env, p);
    }
  }

  // ---- Every run ----

  ghost predicate Sound(a: Asm, env: Env) {
    Homes(a) && Means(a, env) && Painted(a, env)
  }

  lemma NoWrapEarlier(log: seq<Stored>, next: seq<Stored>)
    requires log <= next && NoWrap(next)
    ensures NoWrap(log)
  {
    assert forall i :: 0 <= i < |log| ==> log[i] == next[i];
  }

  lemma LastInRange(log: seq<Stored>, s: Stored)
    requires NoWrap(log + [s])
    ensures s.at + StoredSize(s) < TWO32
  {
    assert (log + [s])[|log|] == s;
  }

  lemma StoreSound(a: Asm, s: Stored, data: seq<octet>, env: Env)
    requires Linked(a) && Track(a) && Sound(a, env) && Recorded(a, s, data) && NoWrap(a.lay.log + [s])
    requires data == FirstData(s, env) && (s.Field? ==> s.waits !! a.lay.defs.Keys)
    ensures Sound(StoreBytes(a, s, data), env)
  {
    hide Linked, Painted, FirstData, StoreBytes;
    StoreHomed(a, s, data);
    TrackParts(a);
    LastInRange(a.lay.log, s);
    hide Track, Timed;
    StoreMeans(a, s, data, env);
    StorePaints(a, s, data, env);
  }

  lemma FieldSound(a: Asm, kind: FieldKind, x: ExprVal, e: Term, here: word, ph: word, env: Env)
    requires Linked(a) && Track(a) && Sound(a, env) && ReadFrom(a, x, e, here, env)
    requires NoWrap(LayField(a.lay, kind, x, e, here, ph).log)
    ensures Sound(StoreField(a, kind, x, e, here, ph), env)
  {
    hide Linked, Track, StoreBytes, QueueFixup, FieldBytes, LittleEndian, Value, Meaning, Sound, LeafSet;
    var s := FieldAt(a.lay, kind, x, e, here, ph);
    var data := if x.Known? then FieldBytes(kind, a.lay.pc, a.lay.caseBase, x.v) else LittleEndian(ph, FieldSize(kind));
    FieldFirst(a, kind, x, e, here, ph, env);
    StoreSound(a, s, data, env);
    if x.Unknown? {
      QueueSound(a, s, data, Fixup(a.lay.pc, kind, a.lay.caseBase, x.x, 0, a.lay.stmt, false), env);
    }
  }

  lemma FieldFirst(a: Asm, kind: FieldKind, x: ExprVal, e: Term, here: word, ph: word, env: Env)
    requires ReadFrom(a, x, e, here, env)
    ensures FirstData(FieldAt(a.lay, kind, x, e, here, ph), env)
            == if x.Known? then FieldBytes(kind, a.lay.pc, a.lay.caseBase, x.v) else LittleEndian(ph, FieldSize(kind))
    ensures x.Unknown? ==> LeafSet(x.x) != {}
  {
    hide Meaning, FieldBytes, LittleEndian;
    if x.Unknown? {
      HasSymbolsLeaf(x.x);
      assert Leaves(x.x)[0] in LeafSet(x.x);
    }
  }

  lemma QueueSound(a: Asm, s: Stored, data: seq<octet>, f: Fixup, env: Env)
    requires Track(a) && Sound(StoreBytes(a, s, data), env)
    requires HomeMatches(f, s) && !f.dead && Linear(f.expr) && HasSymbols(f.expr)
    requires Value(f.expr, env, Assembler) == MeaningAt(s, env)
    ensures Sound(QueueFixup(StoreBytes(a, s, data), f), env)
  {
    var b := StoreBytes(a, s, data);
    StoreLog(a, s, data);
    hide StoreBytes, HomeMatches, Linear, HasSymbols, Value, MeaningAt, Painted, Timed, Housed, ClaimsAre, DeadIs;
    QueueFrame(b, f);
    QueueHomes(b, f, s, env);
    SamePainted(b, QueueFixup(b, f), env);
  }

  lemma LiteralSound(a: Asm, data: seq<octet>, env: Env)
    requires Linked(a) && Track(a) && Sound(a, env) && NoWrap(LayLiteral(a.lay, data).log)
    ensures Sound(StoreLiteral(a, data), env)
  {
    hide Linked, Track, Sound, StoreBytes;
    StoreSound(a, Literal(a.lay.stmt, a.lay.pc, data), data, env);
  }

  lemma {:induction false} CopiesSound(
      a: Asm, kind: FieldKind, x: ExprVal, e: Term, here: word, ph: word, count: nat, env: Env)
    requires Linked(a) && Track(a) && Sound(a, env) && ReadFrom(a, x, e, here, env)
    requires NoWrap(LayCopies(a.lay, kind, x, e, here, ph, count).log)
    ensures Sound(StoreCopies(a, kind, x, e, here, ph, count), env)
  {
    hide Linked, Track, Sound, NoWrap, LayField, StoreField, Waits, Value, Meaning;
    if count > 0 {
      var b := StoreCopies(a, kind, x, e, here, ph, count - 1);
      CopiesLayout(a, kind, x, e, here, ph, count - 1);
      FieldExtends(b.lay, kind, x, e, here, ph);
      NoWrapEarlier(b.lay.log, LayCopies(a.lay, kind, x, e, here, ph, count).log);
      CopiesTrack(a, kind, x, e, here, ph, count - 1);
      CopiesSound(a, kind, x, e, here, ph, count - 1, env);
      FieldSound(b, kind, x, e, here, ph, env);
    }
  }

  lemma OperandSound(a: Asm, mode: octet, kind: FieldKind, x: ExprVal, e: Term, here: word, env: Env)
    requires Linked(a) && Track(a) && Sound(a, env) && ReadFrom(a, x, e, here, env)
    requires NoWrap(LayField(LayLiteral(a.lay, [mode]), kind, x, e, here, 0).log)
    ensures Sound(StoreField(StoreLiteral(a, [mode]), kind, x, e, here, 0), env)
  {
    var b := StoreLiteral(a, [mode]);
    assert b.lay == LayLiteral(a.lay, [mode]);
    hide Linked, Track, Sound, NoWrap, LayField, StoreLiteral, LayLiteral, StoreField, Waits, Value, Meaning;
    FieldExtends(b.lay, kind, x, e, here, 0);
    NoWrapEarlier(b.lay.log, LayField(b.lay, kind, x, e, here, 0).log);
    LiteralTrack(a, [mode]);
    LiteralSound(a, [mode], env);
    FieldSound(b, kind, x, e, here, 0, env);
  }

  lemma ValueSound(a: Asm, item: Item, x: ExprVal, env: Env)
    requires Linked(a) && Track(a) && Sound(a, env) && (item.Raw? || ReadFrom(a, x, item.e, a.lay.pc, env))
    requires NoWrap(LayValue(a.lay, item, x).log)
    ensures Sound(StoreValue(a, item, x), env)
  {
    hide Linked, Track, Sound, ReadFrom, NoWrap, LayField, LayCopies, LayLiteral, StoreField, StoreCopies, StoreLiteral;
    match item
    case Raw(data) => LiteralSound(a, data, env);
    case Data(w, e, count) => CopiesSound(a, Address(w), x, e, a.lay.pc, Placeholder(AsTree(x)), count, env);
    case Branch(w, e) =>
      FieldSound(a, BranchField(w), x, e, a.lay.pc, Wrap(Placeholder(AsTree(x)) - a.lay.pc - Bytes(w)), env);
    case CaseEntry(e) => FieldSound(a, CaseField, x, e, a.lay.pc, 0, env);
    case Relative(deferred, size, e) =>
      var w := RelativeSize(x, size, Wrap(a.lay.pc + 1));
      OperandSound(a, ModeByte(w, deferred, 15), Displacement(w), x, e, a.lay.pc, env);
    case Register(deferred, reg, size, e) =>
      var w := RegisterSize(x, size);
      OperandSound(a, ModeByte(w, deferred, reg), Address(w), x, e, a.lay.pc, env);
  }

  lemma ItemSound(a: Asm, item: Item, env: Env)
    requires Linked(a) && Track(a) && Sound(a, env) && Agrees(env, a.lay.defs) && StepItem(a, item).Some?
    requires NoWrap(LayItem(a.lay, item).log)
    ensures Sound(StepItem(a, item).value, env)
  {
    assert TablesAgree(a);
    hide Linked, Track, Sound, ReadFrom, NoWrap, LayValue, StoreValue, TablesAgree, Read;
    var x := Read(a.lay, ItemTerm(item), a.lay.pc).value;
    ReadIsReadFrom(a, ItemTerm(item), env);
    ValueSound(a, item, x, env);
  }

  lemma {:induction false} ItemsSound(a: Asm, items: seq<Item>, env: Env)
    requires Linked(a) && Track(a) && Sound(a, env) && Agrees(env, a.lay.defs) && StepItems(a, items).Some?
    requires NoWrap(LayItems(a.lay, items).log)
    ensures Sound(StepItems(a, items).value, env)
  {
    if items != [] {
      hide Linked, Track, Sound, NoWrap, LayItem, StepItem, Agrees;
      var rest := items[..|items| - 1];
      var b := StepItems(a, rest).value;
      ItemsLayout(a, rest);
      ItemsExtend(a.lay, rest);
      ItemExtends(b.lay, items[|items| - 1]);
      NoWrapEarlier(b.lay.log, LayItems(a.lay, items).log);
      ItemsSound(a, rest, env);
      ItemsKeepLinked(a, rest);
      ItemsTrack(a, rest);
      ItemSound(b, items[|items| - 1], env);
    }
  }

  /** Only the location, the statement or the .CASE base changes. */
  lemma SameSound(a: Asm, b: Asm, env: Env)
    requires Sound(a, env) && b == a.(lay := b.lay) && b.lay.log == a.lay.log && b.lay.equations == a.lay.equations
    ensures Sound(b, env)
  {
    hide Linear, Value, MeaningAt, Painted, HomeMatches;
    SamePainted(a, b, env);
  }

  lemma DefineSound(a: Asm, name: string, v: word, e: Term, env: Env)
    requires Linked(a) && Track(a) && Sound(a, env) && Define(a, name, v, e).Some?
    requires Clean(LayDefine(a.lay, name, v, e)) && Agrees(env, LayDefine(a.lay, name, v, e).defs)
    ensures Sound(Define(a, name, v, e).value, env)
  {
    hide Linked, Track, Homes, Means, Painted, Define, LayDefine, Clean, Agrees;
    DefinePaints(a, name, v, e, env);
  }

  lemma StatementSound(a: Asm, s: Statement, env: Env)
    requires Linked(a) && Track(a) && Sound(a, env) && Agrees(env, a.lay.defs) && StepStatement(a, s).Some?
    requires var next := LayStatement(a.lay, s); Clean(next) && Agrees(env, next.defs)
    ensures Sound(StepStatement(a, s).value, env)
  {
    hide Linked, Track, Sound, Define, StepItems, ReadNow, LayDefine, LayItems, Agrees, NoWrap, DefinedOnce;
    var b := NextStatement(a);
    SameTrack(a, b);
    SameLinksLinked(a, b);
    SameSound(a, b, env);
    assert Agrees(env, b.lay.defs);
    match s
    case Label(name) => DefineSound(b, name, b.lay.pc, Here, env);
    case Assign(name, e) => DefineSound(b, name, ReadNow(b.lay, e).value, e, env);
    case Origin(e) => SameSound(b, b.(lay := b.lay.(pc := ReadNow(b.lay, e).value)), env);
    case Store(isCase, items) =>
      var c := b.(lay := LayCaseBase(b.lay, isCase));
      SameTrack(b, c);
      SameLinksLinked(b, c);
      SameSound(b, c, env);
      ItemsSound(c, items, env);
  }

  lemma {:induction false} RunSound(program: seq<Statement>, base: word, start: word, env: Env)
    requires Assemble(program, base, start).Some?
    requires var lay := PassOne(program, start); Clean(lay) && Agrees(env, lay.defs)
    ensures Sound(Assemble(program, base, start).value, env)
  {
    hide Sound, Clean, Agrees, StepStatement, LayStatement;
    if program == [] {
      StartSound(base, start, env);
    } else {
      var rest, s := program[..|program| - 1], program[|program| - 1];
      var a := Assemble(rest, base, start).value;
      RunLayout(rest, base, start);
      RunTabled(rest, start);
      EarlierLayout(a.lay, s, env);
      RunSound(rest, base, start, env);
      RunKeepsLinked(rest, base, start);
      RunTrack(rest, base, start);
      StatementSound(a, s, env);
    }
  }

  lemma StartSound(base: word, start: word, env: Env)
    ensures Sound(Start(base, start), env)
  {
  }
}
