/**
 The assembler's record of its output, kept in place: logEvent, claim, supersede, the stores that use them, and
 completeFixup.
 */
module Recorder {
  import opened Words
  import opened Expressions
  import opened Output

  class Record {
    var stmt: nat
    var cur: nat
    var locs: map<nat, word>
    var his: map<nat, word>
    var events: seq<Event>
    var owners: Owners
    var image: Image
    var fixes: seq<Fix>
    /** The stores themselves, in order, which the source does not keep: what the rest is a record of. */
    var stores: seq<Source>

    /** The record as a value. */
    ghost function View(): Log
      reads this
    {
      Log(stmt, cur, locs, his, events, owners, image, fixes, stores)
    }

    constructor ()
      ensures View() == Output.Start
    {
      stmt, cur, locs, his, events, owners, image, fixes, stores := 0, 0, map[], map[], [Switch(0, 0, false)], map[],
        map[], [], [];
    }

    method Location() returns (loc: word)
      ensures loc == Loc(View(), cur)
    {
      return if cur in locs then locs[cur] else 0;
    }

    /** mark */
    method MarkHere()
      requires cur in locs
      modifies this`his
      ensures his == Mark(old(his), cur, locs[cur])
    {
      var hi := if cur in his then his[cur] else 0;
      if locs[cur] > hi {
        his := his[cur := locs[cur]];
      }
    }

    method Note(e: Event)
      modifies this`events
      ensures events == LogEvent(old(events), e)
    {
      var n := |events|;
      if n > 0 && e.DataAt? {
        var last := events[n - 1];
        if last.DataAt? && last.sect == e.sect && Wrap(last.offset + last.size) == e.offset {
          events := events[n - 1 := DataAt(last.sect, last.offset, Wrap(last.size + e.size))];
          return;
        }
      }
      events := events + [e];
    }

    method StoreBytes(s: nat, at: int, data: seq<octet>)
      modifies this`image
      ensures image == StoreImage(old(image), s, at, data)
    {
      var i := 0;
      while i < |data|
        invariant 0 <= i <= |data| && StoreImage(image, s, at + i, data[i..]) == StoreImage(old(image), s, at, data)
      {
        assert data[i..][1..] == data[i + 1..];
        image := image[Cell(s, at + i) := data[i]];
        i := i + 1;
      }
    }

    /** supersede */
    method MarkSuperseded(s: nat, lo: int, hi: int)
      modifies this`fixes
      ensures fixes == Supersede(old(fixes), s, lo, hi, stmt)
    {
      hide Overlaps;
      var i := 0;
      while i < |fixes|
        invariant 0 <= i <= |fixes| == |old(fixes)|
        invariant forall j :: 0 <= j < i ==> fixes[j] == Superseded(old(fixes)[j], s, lo, hi, stmt)
        invariant forall j :: i <= j < |fixes| ==> fixes[j] == old(fixes)[j]
      {
        var f := fixes[i];
        if f.outcome.Waiting? && Overlaps(f, s, lo, hi, stmt) {
          fixes := fixes[i := f.(dead := true)];
        }
        i := i + 1;
      }
    }

    /** claim */
    method ClaimBytes(s: nat, lo: int, hi: int)
      requires events != [] && lo <= hi
      modifies this`owners, this`fixes
      ensures owners == Claim(old(owners), image, s, lo, hi, stmt, |events| - 1)
      ensures fixes == if Overwrites(old(owners), s, lo, hi, stmt) then Supersede(old(fixes), s, lo, hi, stmt)
                else old(fixes)
    {
      hide Supersede;
      var event := |events| - 1;
      var overwritten := false;
      var p := lo;
      while p < hi
        invariant lo <= p <= hi && fixes == old(fixes)
        invariant Claim(owners, image, s, p, hi, stmt, event) == Claim(old(owners), image, s, lo, hi, stmt, event)
        invariant forall q :: q >= p ==> History(owners, Cell(s, q)) == History(old(owners), Cell(s, q))
        invariant overwritten <==> Overwrites(old(owners), s, lo, p, stmt)
      {
        var c := Cell(s, p);
        var history := if c in owners then owners[c] else [];
        assert history == History(old(owners), c);
        OverwritesNext(old(owners), s, lo, p, stmt);
        if history != [] && history[|history| - 1].stmt != stmt {
          overwritten := true;
        }
        var b := if c in image then image[c] else 0;
        owners := owners[c := history + [Owner(stmt, event, b)]];
        p := p + 1;
      }
      if overwritten {
        MarkSuperseded(s, lo, hi);
      }
    }

    static lemma OverwritesNext(owners: Owners, s: nat, lo: int, p: int, stmt: nat)
      requires lo <= p
      ensures Overwrites(owners, s, lo, p + 1, stmt) <==>
                Overwrites(owners, s, lo, p, stmt) || OtherOwns(owners, Cell(s, p), stmt)
    {
    }

    /**
     * Stores data at the current location, and moves past it (advanceData); fill says it is a field waiting for its
     * value.
     */
    method EmitData(data: seq<octet>, fill: Option<Filling>)
      modifies this
      ensures View() == Emit(old(View()), data, fill)
    {
      hide Claim, StoreImage, Overwrites, Supersede, LogEvent, Mark;
      var s := cur;
      var lo := Location();
      StoreBytes(s, lo, data);
      Note(DataAt(s, lo, Wrap(|data|)));
      ClaimBytes(s, lo, lo + |data|);
      stores := stores + [Source(s, lo, data, stmt, |events| - 1, true, if fill.Some? then Some(|fixes|) else None)];
      if fill.Some? {
        fixes := fixes + [Fix(s, lo, fill.value.kind, fill.value.prefix, stmt, false, Waiting, |stores| - 1)];
      }
      locs := locs[s := Wrap(lo + |data|)];
      MarkHere();
    }

    /** emitBytes */
    method EmitEach(data: seq<octet>)
      modifies this
      ensures View() == EmitBytes(old(View()), data)
    {
      hide Emit;
      assert data[..0] == [];
      for i := 0 to |data|
        invariant View() == EmitBytes(old(View()), data[..i])
      {
        assert data[..i + 1][..i] == data[..i];
        EmitData([data[i]], None);
      }
      assert data[..|data|] == data;
    }

    /** An operand field: its specifier's bytes one at a time (emitBytes), and the field. */
    method EmitOperand(pre: seq<octet>, data: seq<octet>, kind: Kind)
      modifies this
      ensures View() == EmitField(old(View()), pre, data, kind)
    {
      hide Emit, EmitBytes;
      EmitEach(pre);
      EmitData(data, Some(Filling(kind, |pre|)));
    }

    /** Another section; an implied change of it is noted too. */
    method EnterSection(s: nat, implicit: bool)
      modifies this`cur, this`events
      ensures View() == old(View()).(cur := s, events := LogEvent(old(View()).events,
                Switch(s, Loc(old(View()), s), implicit)))
    {
      cur := s;
      var loc := Location();
      Note(Switch(s, loc, implicit));
    }

    /** setLocation, and the event noted of it. */
    method MoveLocation(offset: word, e: Event)
      modifies this`locs, this`his, this`events
      ensures var log := old(View());
              View() == log.(locs := log.locs[log.cur := offset], his := Mark(log.his, log.cur, offset),
                events := LogEvent(log.events, e))
    {
      locs := locs[cur := offset];
      MarkHere();
      Note(e);
    }

    /** advanceGap: .BLKx notes its gap even when it is empty. */
    method SkipBytes(n: word, always: bool)
      modifies this`locs, this`his, this`events
      ensures View() == Output.Apply(old(View()), {}, Skip(n, always))
    {
      var loc := Location();
      if n > 0 || always {
        MoveLocation(Wrap(loc + n), Gap(cur, n));
      } else {
        locs := locs[cur := Wrap(loc + n)];
        MarkHere();
      }
    }

    /** A constant stored through the linker's stack, which no history lists. */
    method EmitConstant(size: word, value: word, form: ConstForm)
      requires size <= 4
      modifies this
      ensures View() == EmitConst(old(View()), size, value, form)
    {
      hide StoreImage, LittleEndian;
      var lo := Location();
      var data := LittleEndian(value, size);
      stores := stores + [Source(cur, lo, data, stmt, |events|, false, None)];
      StoreBytes(cur, lo, data);
      MoveLocation(Wrap(lo + size), ConstAt(cur, lo, size, value, form));
    }

    /** A value stored behind the location. */
    method PatchBack(offset: word, size: word, value: word, immediate: bool)
      requires size <= 4
      modifies this`stores, this`image, this`events
      ensures View() == EmitPatch(old(View()), offset, size, value, immediate)
    {
      hide StoreImage, LittleEndian;
      var data := LittleEndian(value, size);
      stores := stores + [Source(cur, offset, data, stmt, |events|, false, None)];
      StoreBytes(cur, offset, data);
      Note(PatchAt(cur, offset, size, value, immediate));
    }

    /** completeFixup */
    method Complete(i: nat, t: Tree)
      requires i < |fixes|
      modifies this`fixes, this`image
      ensures View() == Finish(old(View()), i, t)
    {
      hide StoreImage, AppliedBytes, LittleEndian;
      var f := fixes[i];
      if f.dead && t.Const? && f.kind != Pidr {
        fixes := fixes[i := f.(outcome := Dropped)];
      } else if f.dead {
        fixes := fixes[i := f.(outcome := Left(t))];
      } else if Storable(f, t) {
        fixes := fixes[i := f.(outcome := Applied(t, OutOfRange(f, t)))];
        StoreBytes(f.sect, f.at, AppliedBytes(f, t));
      } else {
        fixes := fixes[i := f.(outcome := Left(t))];
        StoreBytes(f.sect, f.at, LittleEndian(0, KindSize(f.kind)));
      }
    }

    /** One operation. */
    method Perform(op: Op, ghost absolute: set<nat>)
      requires Proper(View(), absolute, op)
      modifies this
      ensures View() == Output.Apply(old(View()), absolute, op)
    {
      hide Emit, EmitField, EmitConst, EmitPatch, Finish, RoomFor, Hi;
      match op
      case Statement => stmt := stmt + 1;
      case Enter(s, implicit) => EnterSection(s, implicit);
      case MoveTo(offset) => MoveLocation(offset, SetTo(cur, offset));
      case Skip(n, always) => SkipBytes(n, always);
      case Bytes(data) => EmitData(data, None);
      case Field(pre, data, kind) => EmitOperand(pre, data, kind);
      case Const(size, value, form) => EmitConstant(size, value, form);
      case Patch(offset, size, value, immediate) => PatchBack(offset, size, value, immediate);
      case Complete(i, tree) => Complete(i, tree);
    }
  }

  /** A whole assembly, operation after operation, in place. */
  method RecordAll(ops: seq<Op>, ghost absolute: set<nat>) returns (r: Record)
    requires Assembled(ops, absolute).Some?
    ensures fresh(r) && r.View() == Assembled(ops, absolute).value
  {
    hide Output.Apply, Proper;
    r := new Record();
    assert ops[..0] == [];
    for i := 0 to |ops|
      invariant fresh(r) && Assembled(ops[..i], absolute) == Some(r.View())
    {
      SomeBefore(ops, absolute, i + 1);
      assert ops[..i + 1][..i] == ops[..i];
      r.Perform(ops[i], absolute);
    }
    assert ops[..|ops|] == ops;
  }

  lemma {:induction false} SomeBefore(ops: seq<Op>, absolute: set<nat>, n: nat)
    requires Assembled(ops, absolute).Some? && n <= |ops|
    ensures Assembled(ops[..n], absolute).Some?
    decreases |ops|
  {
    hide Output.Apply, Proper;
    if n == |ops| {
      assert ops[..n] == ops;
    } else {
      assert ops[..|ops| - 1][..n] == ops[..n];
      SomeBefore(ops[..|ops| - 1], absolute, n);
    }
  }
}
