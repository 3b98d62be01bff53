/**
 What the record of an assembly's output keeps true: every byte's history, event and image byte follow from the stores.
 */
module Histories {
  import opened Words
  import opened Expressions
  import opened Output

  // ---- The last store of a byte, and the last event ----

  predicate Covers(x: Source, p: Cell) {
    x.sect == p.sect && x.at <= p.off < x.at + |x.data|
  }

  predicate EventCovers(e: Event, p: Cell) {
    match e
    case DataAt(s, offset, size) => s == p.sect && offset <= p.off < offset + size
    case ConstAt(s, offset, size, _, _) => s == p.sect && offset <= p.off < offset + size
    case PatchAt(s, offset, size, _, _) => s == p.sect && offset <= p.off < offset + size
    case _ => false
  }

  /** The index of the last store of the byte, or -1. */
  function LastStore(stores: seq<Source>, p: Cell): (j: int)
    ensures -1 <= j < |stores| && (j >= 0 ==> Covers(stores[j], p))
    ensures forall k :: j < k < |stores| ==> !Covers(stores[k], p)
  {
    if stores == [] then -1
    else if Covers(stores[|stores| - 1], p) then |stores| - 1
    else LastStore(stores[..|stores| - 1], p)
  }

  function LastEvent(events: seq<Event>, p: Cell): (k: int)
    ensures -1 <= k < |events| && (k >= 0 ==> EventCovers(events[k], p))
    ensures forall n :: k < n < |events| ==> !EventCovers(events[n], p)
  {
    if events == [] then -1
    else if EventCovers(events[|events| - 1], p) then |events| - 1
    else LastEvent(events[..|events| - 1], p)
  }

  /** The statements and events that stored the byte as data, in order. */
  function DataHistory(stores: seq<Source>, p: Cell): seq<Owner> {
    if stores == [] then []
    else
      var x := stores[|stores| - 1];
      var front := DataHistory(stores[..|stores| - 1], p);
      if x.isData && Covers(x, p) then front + [Owner(x.stmt, x.event, x.data[p.off - x.at])] else front
  }

  lemma LastStoreAppend(stores: seq<Source>, x: Source, p: Cell)
    ensures LastStore(stores + [x], p) == if Covers(x, p) then |stores| else LastStore(stores, p)
  {
    assert (stores + [x])[..|stores|] == stores;
  }

  lemma LastEventAppend(events: seq<Event>, e: Event, p: Cell)
    ensures LastEvent(events + [e], p) == if EventCovers(e, p) then |events| else LastEvent(events, p)
  {
    assert (events + [e])[..|events|] == events;
  }

  lemma DataHistoryAppend(stores: seq<Source>, x: Source, p: Cell)
    ensures DataHistory(stores + [x], p) ==
            if x.isData && Covers(x, p) then DataHistory(stores, p) + [Owner(x.stmt, x.event, x.data[p.off - x.at])]
            else DataHistory(stores, p)
  {
    assert (stores + [x])[..|stores|] == stores;
  }

  lemma {:induction false} ClaimAt(owners: Owners, image: Image, s: nat, lo: int, hi: int, stmt: nat, event: nat,
                                   p: Cell)
    ensures History(Claim(owners, image, s, lo, hi, stmt, event), p) ==
            if p.sect == s && lo <= p.off < hi then History(owners, p) + [Owner(stmt, event, ByteIn(image, p))]
            else History(owners, p)
    decreases hi - lo
  {
    hide ByteIn;
    if lo < hi {
      var q := Cell(s, lo);
      ClaimAt(owners[q := History(owners, q) + [Owner(stmt, event, ByteIn(image, q))]], image, s, lo + 1, hi, stmt,
        event, p);
    }
  }

  lemma {:induction false} StoredAt(image: Image, s: nat, at: int, data: seq<octet>, p: Cell)
    ensures ByteIn(StoreImage(image, s, at, data), p) ==
            if p.sect == s && at <= p.off < at + |data| then data[p.off - at] else ByteIn(image, p)
    decreases |data|
  {
    if data != [] {
      StoredAt(image[Cell(s, at) := data[0]], s, at + 1, data[1..], p);
    }
  }

  // ---- The invariant ----

  /** The event holds the store: data within a data event, or a constant or patch of its own. */
  predicate EventHolds(e: Event, x: Source) {
    match e
    case DataAt(s, offset, size) => x.isData && s == x.sect && offset <= x.at && x.at + |x.data| <= offset + size
    case ConstAt(s, offset, size, value, _) =>
      !x.isData && s == x.sect && offset == x.at && size <= 4 && x.data == LittleEndian(value, size)
    case PatchAt(s, offset, size, value, _) =>
      !x.isData && s == x.sect && offset == x.at && size <= 4 && x.data == LittleEndian(value, size)
    case _ => false
  }

  predicate StoreOk(log: Log, absolute: set<nat>, j: nat) {
    && j < |log.stores|
    && var x := log.stores[j];
       && x.event < |log.events| && x.stmt <= log.stmt && x.sect !in absolute && x.at + |x.data| < TWO32
       && EventHolds(log.events[x.event], x)
       && (!x.isData ==> x.fix.None?)
       && (x.fix.Some? ==> x.fix.value < |log.fixes| && log.fixes[x.fix.value].home == j)
  }

  /** No event runs past a section's end, and only relocatable sections hold any. */
  predicate EventOk(e: Event, absolute: set<nat>) {
    match e
    case DataAt(s, offset, size) => s !in absolute && offset + size < TWO32
    case ConstAt(s, offset, size, _, form) =>
      s !in absolute && offset + size < TWO32 && (size == 1 || size == 2 || size == 4) && FormFits(form, size)
    case PatchAt(s, offset, size, _, _) =>
      s !in absolute && offset + size < TWO32 && (size == 1 || size == 2 || size == 4)
    case _ => true
  }

  /** The fixup's field, with what comes before it of its operand, is in the data event that stored it. */
  predicate FixOk(log: Log, i: nat) {
    && i < |log.fixes|
    && var f := log.fixes[i];
       && f.home < |log.stores| && f.prefix <= 2
       && var x := log.stores[f.home];
          && x.fix == Some(i) && x.isData && x.sect == f.sect && x.at == f.at && |x.data| == KindSize(f.kind)
          && x.stmt == f.stmt
          && x.event < |log.events| && log.events[x.event].DataAt? && log.events[x.event].offset + f.prefix <= f.at
          && (f.outcome.Applied? ==>
               Storable(f, f.outcome.expr) && (f.outcome.reported <==> OutOfRange(f, f.outcome.expr)))
  }

  function FixEvent(log: Log, i: nat): int {
    if i < |log.fixes| && log.fixes[i].home < |log.stores| then log.stores[log.fixes[i].home].event else -1
  }

  /** The two fixups' operands do not share a byte. */
  predicate FieldsApart(f: Fix, g: Fix) {
    f.at + KindSize(f.kind) <= g.at - g.prefix || g.at + KindSize(g.kind) <= f.at - f.prefix
  }

  /** Two stores of one byte were in different events, in order; and a statement stores no byte twice. */
  predicate Ordered(stores: seq<Source>, j: nat, k: nat) {
    j < k < |stores| ==>
      (stores[j].sect == stores[k].sect && stores[j].at < stores[k].at + |stores[k].data|
       && stores[k].at < stores[j].at + |stores[j].data| ==>
         stores[j].event < stores[k].event
         && (stores[j].isData && stores[k].isData ==> stores[j].stmt != stores[k].stmt))
  }

  /** A fixup that would store its value has had no data stored over it. */
  predicate Alive(log: Log, i: nat) {
    i < |log.fixes| && log.fixes[i].outcome.Waiting? && !log.fixes[i].dead ==>
      var f := log.fixes[i];
      forall k :: f.home < k < |log.stores| && log.stores[k].isData && log.stores[k].sect == f.sect ==>
        log.stores[k].at + |log.stores[k].data| <= f.at || f.at + KindSize(f.kind) <= log.stores[k].at
  }

  /**
   * The byte's image is what the last store, if it was of data, has made of it by now; a field left to the linker
   * aside.
   */
  predicate ImageHolds(log: Log, p: Cell) {
    var j := LastStore(log.stores, p);
    j >= 0 && log.stores[j].isData ==>
      var x := log.stores[j];
      match x.fix
      case None => ByteIn(log.image, p) == x.data[p.off - x.at]
      case Some(i) =>
        i < |log.fixes| ==>
          match log.fixes[i].outcome
          case Applied(t, _) =>
            p.off - x.at < KindSize(log.fixes[i].kind) ==>
              ByteIn(log.image, p) == AppliedBytes(log.fixes[i], t)[p.off - x.at]
          case Left(_) => true
          case _ => ByteIn(log.image, p) == x.data[p.off - x.at]
  }

  predicate EventIs(log: Log, p: Cell) {
    var j := LastStore(log.stores, p);
    LastEvent(log.events, p) == if j < 0 then -1 else log.stores[j].event
  }

  ghost predicate Inv(log: Log, absolute: set<nat>) {
    && log.events != []
    && (forall k :: 0 <= k < |log.events| ==> EventOk(log.events[k], absolute))
    && (forall j: nat :: j < |log.stores| ==> StoreOk(log, absolute, j))
    && (forall j: nat, k: nat :: Ordered(log.stores, j, k))
    && (forall i: nat :: i < |log.fixes| ==> FixOk(log, i))
    && (forall i: nat, k: nat :: i < k < |log.fixes| && log.fixes[i].sect == log.fixes[k].sect
                                 && FixEvent(log, i) == FixEvent(log, k) ==>
          FieldsApart(log.fixes[i], log.fixes[k]))
    && (forall i: nat :: Alive(log, i))
    && (forall p :: History(log.owners, p) == DataHistory(log.stores, p))
    && (forall p :: EventIs(log, p))
    && (forall p :: ImageHolds(log, p))
  }

  // ---- Storing data ----

  /** The last event ends at the current location, so that data stored there extends it. */
  predicate Extends(log: Log) {
    && log.events != []
    && var e := log.events[|log.events| - 1];
       e.DataAt? && e.sect == log.cur && e.offset + e.size == Loc(log, log.cur)
  }

  /** The k bytes before the current location are in the last event, clear of every field in it. */
  predicate Before(log: Log, k: nat) {
    && (k > 0 ==> Extends(log) && log.events[|log.events| - 1].offset + k <= Loc(log, log.cur))
    && (Extends(log) ==>
          forall i: nat :: i < |log.fixes| && FixEvent(log, i) == |log.events| - 1 ==>
            log.fixes[i].at + KindSize(log.fixes[i].kind) <= Loc(log, log.cur) - k)
  }

  predicate Fillable(log: Log, data: seq<octet>, fill: Option<Filling>) {
    fill.Some? ==> |data| == KindSize(fill.value.kind) && fill.value.prefix <= 2 && Before(log, fill.value.prefix)
  }

  /** What storing data does to the events: it extends the last, or adds one. */
  lemma EmitEvents(log: Log, absolute: set<nat>, data: seq<octet>, fill: Option<Filling>)
    requires Inv(log, absolute) && 0 < |data| && RoomFor(log, absolute, |data|)
    ensures var n, lo := Emit(log, data, fill), Loc(log, log.cur);
            && n.stores == log.stores + [n.stores[|log.stores|]] && n.stores[|log.stores|].event == |n.events| - 1
            && n.cur == log.cur && Loc(n, n.cur) == lo + |data|
            && (if Extends(log) then
                  && |n.events| == |log.events| && n.events[..|log.events| - 1] == log.events[..|log.events| - 1]
                  && var e := log.events[|log.events| - 1];
                     n.events[|log.events| - 1] == DataAt(e.sect, e.offset, e.size + |data|)
                else n.events == log.events + [DataAt(log.cur, lo, |data|)])
  {
    hide Claim, StoreImage, Overwrites, StoreOk, Ordered, FixOk, FieldsApart, Alive, History, DataHistory, EventIs,
      ImageHolds;
    assert EventOk(log.events[|log.events| - 1], absolute);
  }

  lemma EmitStoresOk(log: Log, absolute: set<nat>, data: seq<octet>, fill: Option<Filling>)
    requires Inv(log, absolute) && 0 < |data| && RoomFor(log, absolute, |data|) && Fillable(log, data, fill)
    ensures var n := Emit(log, data, fill);
            && n.events != [] && (forall k :: 0 <= k < |n.events| ==> EventOk(n.events[k], absolute))
            && forall j: nat :: j < |n.stores| ==> StoreOk(n, absolute, j)
  {
    hide Claim, StoreImage, Overwrites, Ordered, FixOk, FieldsApart, Alive, History, DataHistory, EventIs, ImageHolds,
      Untouched, Before;
    EmitEvents(log, absolute, data, fill);
    EmitFixes(log, data, fill);
    var n := Emit(log, data, fill);
    hide Emit;
    forall j: nat | j < |n.stores|
      ensures StoreOk(n, absolute, j)
    {
      if j < |log.stores| {
        assert StoreOk(log, absolute, j);
      }
    }
    forall k | 0 <= k < |n.events|
      ensures EventOk(n.events[k], absolute)
    {
      assert k < |log.events| ==> EventOk(log.events[k], absolute);
    }
  }

  /** Storing data leaves every fixup where and what it is, and adds the new field's. */
  lemma EmitFixes(log: Log, data: seq<octet>, fill: Option<Filling>)
    ensures var n := Emit(log, data, fill);
            && |n.fixes| == |log.fixes| + (if fill.Some? then 1 else 0)
            && (forall i: nat :: i < |log.fixes| ==>
                 n.fixes[i] == log.fixes[i].(dead := n.fixes[i].dead) && (log.fixes[i].dead ==> n.fixes[i].dead))
            && (fill.Some? ==>
                  n.fixes[|log.fixes|] ==
                  Fix(log.cur, Loc(log, log.cur), fill.value.kind, fill.value.prefix, log.stmt, false, Waiting,
                      |log.stores|))
            && n.stores[|log.stores|] ==
               Source(log.cur, Loc(log, log.cur), data, log.stmt, |n.events| - 1, true,
                      if fill.Some? then Some(|log.fixes|) else None)
  {
    hide Claim, StoreImage, Overwrites, LogEvent, Overlaps;
  }

  lemma EmitOrdered(log: Log, absolute: set<nat>, data: seq<octet>, fill: Option<Filling>)
    requires Inv(log, absolute) && 0 < |data| && RoomFor(log, absolute, |data|)
    ensures forall j: nat, k: nat :: Ordered(Emit(log, data, fill).stores, j, k)
  {
    hide Claim, StoreImage, Overwrites, FixOk, FieldsApart, Alive, History, DataHistory, EventIs, ImageHolds;
    EmitEvents(log, absolute, data, fill);
    EmitFixes(log, data, fill);
    var n := Emit(log, data, fill);
    hide Emit;
    forall j: nat, k: nat
      ensures Ordered(n.stores, j, k)
    {
      assert Ordered(log.stores, j, k);
      if j < k == |log.stores| {
        assert StoreOk(log, absolute, j);
      }
    }
  }

  lemma EmitFixesOk(log: Log, absolute: set<nat>, data: seq<octet>, fill: Option<Filling>)
    requires Inv(log, absolute) && 0 < |data| && RoomFor(log, absolute, |data|) && Fillable(log, data, fill)
    ensures var n := Emit(log, data, fill);
            && (forall i: nat :: i < |n.fixes| ==> FixOk(n, i))
            && forall i: nat, k: nat :: i < k < |n.fixes| && n.fixes[i].sect == n.fixes[k].sect
                                        && FixEvent(n, i) == FixEvent(n, k) ==>
                 FieldsApart(n.fixes[i], n.fixes[k])
  {
    hide Claim, StoreImage, Overwrites, Ordered, Alive, History, DataHistory, EventIs, ImageHolds, Untouched;
    EmitEvents(log, absolute, data, fill);
    EmitFixes(log, data, fill);
    var n := Emit(log, data, fill);
    hide Emit;
    forall i: nat | i < |n.fixes|
      ensures FixOk(n, i)
    {
      if i < |log.fixes| {
        assert FixOk(log, i);
      }
    }
    forall i: nat, k: nat | i < k < |n.fixes| && n.fixes[i].sect == n.fixes[k].sect && FixEvent(n, i) == FixEvent(n, k)
      ensures FieldsApart(n.fixes[i], n.fixes[k])
    {
      assert FixOk(log, i);
      if k < |log.fixes| {
        assert FixOk(log, k);
      } else {
        NewFieldApart(log, absolute, data, fill, i);
      }
    }
  }

  lemma NewFieldApart(log: Log, absolute: set<nat>, data: seq<octet>, fill: Option<Filling>, i: nat)
    requires Inv(log, absolute) && 0 < |data| && RoomFor(log, absolute, |data|) && Fillable(log, data, fill)
    requires fill.Some?
    requires i < |log.fixes|
    requires var n := Emit(log, data, fill);
             |n.fixes| == |log.fixes| + 1 && n.fixes[i].sect == n.fixes[|log.fixes|].sect
             && FixEvent(n, i) == FixEvent(n, |log.fixes|)
    ensures var n := Emit(log, data, fill);
            FieldsApart(n.fixes[i], n.fixes[|log.fixes|])
  {
    hide Claim, StoreImage, Overwrites, Ordered, Alive, History, DataHistory, EventIs, ImageHolds, Untouched;
    EmitEvents(log, absolute, data, fill);
    EmitFixes(log, data, fill);
    assert FixOk(log, i);
    hide Emit, FixOk;
  }

  lemma EmitAlive(log: Log, absolute: set<nat>, data: seq<octet>, fill: Option<Filling>)
    requires Inv(log, absolute) && 0 < |data| && RoomFor(log, absolute, |data|)
    ensures forall i: nat :: Alive(Emit(log, data, fill), i)
  {
    hide Claim, StoreImage, LogEvent, Overwrites, Ordered, FieldsApart, History, DataHistory, EventIs, ImageHolds,
      StoreOk, EventOk, Overlaps;
    EmitFixes(log, data, fill);
    var n := Emit(log, data, fill);
    forall i: nat
      ensures Alive(n, i)
    {
      assert Alive(log, i);
      if i < |log.fixes| && n.fixes[i].outcome.Waiting? && !n.fixes[i].dead {
        assert FixOk(log, i);
        if log.fixes[i].sect == log.cur && log.fixes[i].at < Loc(log, log.cur) + |data|
           && Loc(log, log.cur) < log.fixes[i].at + KindSize(log.fixes[i].kind) {
          Superseding(log, absolute, data, i);
        }
      }
    }
  }

  /** Data stored over a waiting fixup's field supersedes it. */
  lemma Superseding(log: Log, absolute: set<nat>, data: seq<octet>, i: nat)
    requires Inv(log, absolute) && 0 < |data| && RoomFor(log, absolute, |data|) && i < |log.fixes|
    requires var f := log.fixes[i];
             f.sect == log.cur && f.at < Loc(log, log.cur) + |data| && Loc(log, log.cur) < f.at + KindSize(f.kind)
    ensures var lo := Loc(log, log.cur);
            Overwrites(log.owners, log.cur, lo, lo + |data|, log.stmt)
            && Overlaps(log.fixes[i], log.cur, lo, lo + |data|, log.stmt)
  {
    hide Ordered, FieldsApart, EventIs, ImageHolds, StoreOk, EventOk, Alive;
    var f, lo := log.fixes[i], Loc(log, log.cur);
    assert FixOk(log, i);
    var q := if f.at < lo then lo else f.at;
    var p := Cell(log.cur, q);
    assert Covers(log.stores[f.home], p);
    assert History(log.owners, p) == DataHistory(log.stores, p);
    HistoryByOthers(log.stores, p, log.stmt, f.home);
    assert OtherOwns(log.owners, Cell(log.cur, q), log.stmt);
  }

  /** A byte some statement stored, and this one has not, was last stored by another. */
  lemma {:induction false} HistoryByOthers(stores: seq<Source>, p: Cell, stmt: nat, j: nat)
    requires j < |stores| && stores[j].isData && Covers(stores[j], p)
    requires forall k :: 0 <= k < |stores| && stores[k].isData && Covers(stores[k], p) ==> stores[k].stmt != stmt
    ensures var h := DataHistory(stores, p);
            h != [] && h[|h| - 1].stmt != stmt
  {
    var n := |stores| - 1;
    if !(stores[n].isData && Covers(stores[n], p)) {
      assert forall k :: 0 <= k < n ==> stores[..n][k] == stores[k];
      HistoryByOthers(stores[..n], p, stmt, j);
    }
  }

  lemma EmitHistory(log: Log, absolute: set<nat>, data: seq<octet>, fill: Option<Filling>, p: Cell)
    requires Inv(log, absolute) && 0 < |data| && RoomFor(log, absolute, |data|)
    ensures History(Emit(log, data, fill).owners, p) == DataHistory(Emit(log, data, fill).stores, p)
  {
    hide Claim, StoreImage, Overwrites, Ordered, FieldsApart, Alive, History, DataHistory, EventIs, ImageHolds, StoreOk,
      EventOk, FixOk;
    hide ByteIn, Untouched;
    assert History(log.owners, p) == DataHistory(log.stores, p);
    var s, lo := log.cur, Loc(log, log.cur);
    var image := StoreImage(log.image, s, lo, data);
    var n := Emit(log, data, fill);
    ClaimAt(log.owners, image, s, lo, lo + |data|, log.stmt, |n.events| - 1, p);
    StoredAt(log.image, s, lo, data, p);
    DataHistoryAppend(log.stores, n.stores[|log.stores|], p);
  }

  lemma EmitEventIs(log: Log, absolute: set<nat>, data: seq<octet>, fill: Option<Filling>, p: Cell)
    requires Inv(log, absolute) && 0 < |data| && RoomFor(log, absolute, |data|)
    ensures EventIs(Emit(log, data, fill), p)
  {
    hide Claim, StoreImage, Overwrites, Ordered, FieldsApart, Alive, History, DataHistory, ImageHolds, StoreOk, EventOk,
      FixOk;
    hide LastStore, LastEvent, Untouched;
    EmitEvents(log, absolute, data, fill);
    EmitFixes(log, data, fill);
    var n := Emit(log, data, fill);
    hide Emit;
    assert EventIs(log, p);
    LastStoreAppend(log.stores, n.stores[|log.stores|], p);
    if Extends(log) {
      var k := |log.events| - 1;
      LastEventAppend(log.events[..k], log.events[k], p);
      LastEventAppend(log.events[..k], n.events[k], p);
      assert log.events == log.events[..k] + [log.events[k]] && n.events == log.events[..k] + [n.events[k]];
    } else {
      LastEventAppend(log.events, DataAt(log.cur, Loc(log, log.cur), |data|), p);
    }
  }

  lemma EmitImage(log: Log, absolute: set<nat>, data: seq<octet>, fill: Option<Filling>, p: Cell)
    requires Inv(log, absolute) && 0 < |data| && RoomFor(log, absolute, |data|)
    ensures ImageHolds(Emit(log, data, fill), p)
  {
    hide Claim, StoreImage, Overwrites, Ordered, FieldsApart, Alive, History, DataHistory, EventIs, EventOk, FixOk;
    hide LastStore, ByteIn, Untouched, LogEvent;
    EmitFixes(log, data, fill);
    var n := Emit(log, data, fill);
    assert ImageHolds(log, p);
    LastStoreAppend(log.stores, n.stores[|log.stores|], p);
    StoredAt(log.image, log.cur, Loc(log, log.cur), data, p);
    assert n.image == StoreImage(log.image, log.cur, Loc(log, log.cur), data);
    var j := LastStore(log.stores, p);
    if j >= 0 {
      assert StoreOk(log, absolute, j);
    }
  }

  lemma EmitKeeps(log: Log, absolute: set<nat>, data: seq<octet>, fill: Option<Filling>)
    requires Inv(log, absolute) && 0 < |data| && RoomFor(log, absolute, |data|) && Fillable(log, data, fill)
    ensures Inv(Emit(log, data, fill), absolute)
  {
    hide Emit, Ordered, FieldsApart, Alive, History, DataHistory, EventIs, ImageHolds, StoreOk, EventOk, FixOk, RoomFor,
      Fillable;
    EmitStoresOk(log, absolute, data, fill);
    EmitOrdered(log, absolute, data, fill);
    EmitFixesOk(log, absolute, data, fill);
    EmitAlive(log, absolute, data, fill);
    forall p
      ensures History(Emit(log, data, fill).owners, p) == DataHistory(Emit(log, data, fill).stores, p)
      ensures EventIs(Emit(log, data, fill), p) && ImageHolds(Emit(log, data, fill), p)
    {
      EmitHistory(log, absolute, data, fill, p);
      EmitEventIs(log, absolute, data, fill, p);
      EmitImage(log, absolute, data, fill, p);
    }
  }

  // ---- Operands ----

  lemma BeforeNone(log: Log, absolute: set<nat>)
    requires Inv(log, absolute)
    ensures Before(log, 0)
  {
    hide Ordered, FieldsApart, Alive, History, DataHistory, EventIs, ImageHolds, EventOk;
    if Extends(log) {
      forall i: nat | i < |log.fixes| && FixEvent(log, i) == |log.events| - 1
        ensures log.fixes[i].at + KindSize(log.fixes[i].kind) <= Loc(log, log.cur)
      {
        assert FixOk(log, i);
        assert StoreOk(log, absolute, log.fixes[i].home);
      }
    }
  }

  lemma BeforeNext(log: Log, absolute: set<nat>, b: octet, k: nat)
    requires Inv(log, absolute) && RoomFor(log, absolute, 1) && Before(log, k)
    ensures Before(Emit(log, [b], None), k + 1)
  {
    hide Ordered, FieldsApart, Alive, History, DataHistory, EventIs, ImageHolds, EventOk, StoreOk, Untouched;
    EmitEvents(log, absolute, [b], None);
    EmitFixes(log, [b], None);
    var n := Emit(log, [b], None);
    hide Emit;
    forall i: nat | i < |n.fixes| && FixEvent(n, i) == |n.events| - 1
      ensures n.fixes[i].at + KindSize(n.fixes[i].kind) <= Loc(n, n.cur) - (k + 1)
    {
      assert FixOk(log, i);
    }
  }

  lemma RoomAfter(log: Log, absolute: set<nat>, b: octet, m: nat)
    requires Inv(log, absolute) && RoomFor(log, absolute, 1 + m)
    ensures RoomFor(log, absolute, 1) && RoomFor(Emit(log, [b], None), absolute, m)
  {
    hide Ordered, FieldsApart, Alive, History, DataHistory, EventIs, ImageHolds, EventOk, StoreOk, FixOk;
    EmitEvents(log, absolute, [b], None);
    EmitFixes(log, [b], None);
    var n := Emit(log, [b], None);
    assert n.stmt == log.stmt;
    hide Emit;
    forall j | 0 <= j < |n.stores| && n.stores[j].isData && n.stores[j].stmt == n.stmt && n.stores[j].sect == n.cur
      ensures n.stores[j].at + |n.stores[j].data| <= Loc(n, n.cur) || Loc(n, n.cur) + m <= n.stores[j].at
    {
      if j < |log.stores| {
        assert n.stores[j] == log.stores[j];
      }
    }
  }

  lemma {:induction false} EmitBytesKeeps(log: Log, absolute: set<nat>, pre: seq<octet>, m: nat)
    requires Inv(log, absolute) && RoomFor(log, absolute, |pre| + m)
    ensures var l := EmitBytes(log, pre);
            Inv(l, absolute) && RoomFor(l, absolute, m) && Before(l, |pre|)
  {
    hide Inv, RoomFor, Before, Emit;
    if pre == [] {
      BeforeNone(log, absolute);
    } else {
      var k := |pre| - 1;
      var front, b := pre[..k], pre[k];
      EmitBytesKeeps(log, absolute, front, 1 + m);
      var l := EmitBytes(log, front);
      RoomAfter(l, absolute, b, m);
      BeforeNext(l, absolute, b, k);
      EmitKeeps(l, absolute, [b], None);
    }
  }

  lemma FieldKeeps(log: Log, absolute: set<nat>, pre: seq<octet>, data: seq<octet>, kind: Kind)
    requires Inv(log, absolute) && Proper(log, absolute, Field(pre, data, kind))
    ensures Inv(EmitField(log, pre, data, kind), absolute)
  {
    hide Inv, RoomFor, Before, Emit, EmitBytes;
    EmitBytesKeeps(log, absolute, pre, |data|);
    EmitKeeps(EmitBytes(log, pre), absolute, data, Some(Filling(kind, |pre|)));
  }

  // ---- Constants and patches ----

  /** An event of its own that stores a constant. */
  lemma StoreKeeps(log: Log, absolute: set<nat>, x: Source, e: Event, n: Log)
    requires Inv(log, absolute) && EventOk(e, absolute) && EventHolds(e, x) && !e.DataAt? && x.fix.None? && !x.isData
    requires x.event == |log.events| && x.stmt == log.stmt && x.sect !in absolute && x.at + |x.data| < TWO32
    requires forall p :: EventCovers(e, p) <==> Covers(x, p)
    requires n == log.(image := StoreImage(log.image, x.sect, x.at, x.data), events := log.events + [e], locs := n.locs,
               his := n.his, stores := log.stores + [x])
    ensures Inv(n, absolute)
  {
    hide History, DataHistory, EventIs, ImageHolds, EventOk, EventHolds, Covers, EventCovers, FieldsApart, StoreImage;
    forall j: nat | j < |n.stores|
      ensures StoreOk(n, absolute, j)
    {
      assert j < |log.stores| ==> StoreOk(log, absolute, j);
    }
    forall j: nat, k: nat
      ensures Ordered(n.stores, j, k)
    {
      assert Ordered(log.stores, j, k);
      if j < k == |log.stores| {
        assert StoreOk(log, absolute, j);
      }
    }
    forall i: nat
      ensures i < |n.fixes| ==> FixOk(n, i)
      ensures Alive(n, i)
    {
      assert i < |log.fixes| ==> FixOk(log, i);
      assert Alive(log, i);
    }
    assert forall i: nat :: i < |log.fixes| ==> FixOk(log, i);
    hide StoreOk, Ordered, Alive;
    forall p
      ensures History(n.owners, p) == DataHistory(n.stores, p) && EventIs(n, p) && ImageHolds(n, p)
    {
      assert History(log.owners, p) == DataHistory(log.stores, p);
      StoreKeepsAt(log, absolute, x, e, n, p);
    }
    forall i: nat, k: nat | i < k < |n.fixes| && n.fixes[i].sect == n.fixes[k].sect && FixEvent(n, i) == FixEvent(n, k)
      ensures FieldsApart(n.fixes[i], n.fixes[k])
    {
      assert FixOk(log, i) && FixOk(log, k);
    }
  }

  lemma StoreKeepsAt(log: Log, absolute: set<nat>, x: Source, e: Event, n: Log, p: Cell)
    requires Inv(log, absolute) && !x.isData && x.event == |log.events| && (EventCovers(e, p) <==> Covers(x, p))
    requires n == log.(image := StoreImage(log.image, x.sect, x.at, x.data), events := log.events + [e], locs := n.locs,
               his := n.his, stores := log.stores + [x])
    ensures DataHistory(n.stores, p) == DataHistory(log.stores, p) && EventIs(n, p) && ImageHolds(n, p)
  {
    hide History, DataHistory, EventOk, EventHolds, EventCovers, FieldsApart, StoreImage, LastStore, LastEvent, Ordered,
      Alive, FixOk, ByteIn;
    hide StoreOk;
    assert EventIs(log, p) && ImageHolds(log, p);
    DataHistoryAppend(log.stores, x, p);
    LastStoreAppend(log.stores, x, p);
    LastEventAppend(log.events, e, p);
    StoredAt(log.image, x.sect, x.at, x.data, p);
  }

  lemma ConstKeeps(log: Log, absolute: set<nat>, size: word, value: word, form: ConstForm)
    requires Inv(log, absolute) && Proper(log, absolute, Op.Const(size, value, form))
    ensures Inv(EmitConst(log, size, value, form), absolute)
  {
    hide Inv, StoreImage, LittleEndian;
    var n := EmitConst(log, size, value, form);
    StoreKeeps(log, absolute, n.stores[|log.stores|], ConstAt(log.cur, Loc(log, log.cur), size, value, form), n);
  }

  lemma PatchKeeps(log: Log, absolute: set<nat>, offset: word, size: word, value: word, immediate: bool)
    requires Inv(log, absolute) && Proper(log, absolute, Patch(offset, size, value, immediate))
    ensures Inv(EmitPatch(log, offset, size, value, immediate), absolute)
  {
    hide Inv, StoreImage, LittleEndian;
    var n := EmitPatch(log, offset, size, value, immediate);
    StoreKeeps(log, absolute, n.stores[|log.stores|], PatchAt(log.cur, offset, size, value, immediate), n);
  }

  // ---- Moves ----

  /** An event that stores nothing. */
  lemma MoveKeeps(log: Log, absolute: set<nat>, e: Event, n: Log)
    requires Inv(log, absolute) && (e.Switch? || e.SetTo? || e.Gap?)
    requires n == log.(cur := n.cur, locs := n.locs, his := n.his, events := log.events + [e])
    ensures Inv(n, absolute)
  {
    hide History, DataHistory, Ordered, FieldsApart, Alive, ImageHolds, LastStore, LastEvent;
    forall j: nat | j < |n.stores|
      ensures StoreOk(n, absolute, j)
    {
      assert StoreOk(log, absolute, j);
    }
    forall i: nat | i < |n.fixes|
      ensures FixOk(n, i)
    {
      assert FixOk(log, i);
    }
    forall p
      ensures EventIs(n, p)
    {
      assert EventIs(log, p);
      LastEventAppend(log.events, e, p);
    }
    hide StoreOk, FixOk, EventIs;
    SameElsewhere(log, n);
  }

  /** What does not depend on the events or the location. */
  lemma SameElsewhere(log: Log, n: Log)
    requires n.stores == log.stores && n.fixes == log.fixes && n.image == log.image
    ensures forall i: nat :: Alive(log, i) ==> Alive(n, i)
    ensures forall p :: ImageHolds(log, p) ==> ImageHolds(n, p)
    ensures forall i: nat :: FixEvent(n, i) == FixEvent(log, i)
  {
    hide LastStore, ByteIn;
  }

  // ---- Completed fixups ----

  lemma SameBytes(f: Fix, o: Outcome, t: Tree)
    ensures AppliedBytes(f.(outcome := o), t) == AppliedBytes(f, t)
  {
    hide LittleEndian;
  }

  lemma FinishImage(log: Log, absolute: set<nat>, i: nat, t: Tree, p: Cell)
    requires Inv(log, absolute) && Proper(log, absolute, Complete(i, t))
    ensures ImageHolds(Finish(log, i, t), p)
  {
    hide History, DataHistory, Ordered, FieldsApart, EventIs, EventOk, EventHolds, LastStore, ByteIn, StoreImage,
      LittleEndian, AppliedBytes, Storable;
    var n, f := Finish(log, i, t), log.fixes[i];
    SameBytes(f, n.fixes[i].outcome, t);
    assert ImageHolds(log, p) && FixOk(log, i) && Alive(log, i);
    var j := LastStore(log.stores, p);
    if j >= 0 && log.stores[j].isData {
      assert StoreOk(log, absolute, j);
      StoredAt(log.image, f.sect, f.at, AppliedBytes(f, t), p);
      StoredAt(log.image, f.sect, f.at, LittleEndian(0, KindSize(f.kind)), p);
    }
  }

  lemma FinishKeeps(log: Log, absolute: set<nat>, i: nat, t: Tree)
    requires Inv(log, absolute) && Proper(log, absolute, Complete(i, t))
    ensures Inv(Finish(log, i, t), absolute)
  {
    hide History, DataHistory, Ordered, ImageHolds, LastStore, LastEvent, StoreImage, EventOk, EventHolds;
    var n := Finish(log, i, t);
    forall p
      ensures ImageHolds(n, p) && EventIs(n, p)
    {
      assert EventIs(log, p);
      FinishImage(log, absolute, i, t, p);
    }
    hide EventIs;
    FinishFixes(log, absolute, i, t);
    forall j: nat | j < |n.stores|
      ensures StoreOk(n, absolute, j)
    {
      assert StoreOk(log, absolute, j);
    }
  }

  lemma FinishFixes(log: Log, absolute: set<nat>, i: nat, t: Tree)
    requires Inv(log, absolute) && Proper(log, absolute, Complete(i, t))
    ensures var n := Finish(log, i, t);
            && (forall k: nat :: k < |n.fixes| ==> FixOk(n, k)) && (forall k: nat :: Alive(n, k))
            && forall j: nat, k: nat :: j < k < |n.fixes| && n.fixes[j].sect == n.fixes[k].sect
                                        && FixEvent(n, j) == FixEvent(n, k) ==>
                 FieldsApart(n.fixes[j], n.fixes[k])
  {
    hide History, DataHistory, Ordered, ImageHolds, LastStore, LastEvent, StoreImage, EventOk, EventHolds, EventIs,
      StoreOk;
    var n := Finish(log, i, t);
    forall k: nat
      ensures k < |n.fixes| ==> FixOk(n, k)
      ensures Alive(n, k)
    {
      assert k < |log.fixes| ==> FixOk(log, k);
      assert Alive(log, k);
    }
    forall j: nat, k: nat | j < k < |n.fixes| && n.fixes[j].sect == n.fixes[k].sect && FixEvent(n, j) == FixEvent(n, k)
      ensures FieldsApart(n.fixes[j], n.fixes[k])
    {
      assert FieldsApart(log.fixes[j], log.fixes[k]);
    }
  }

  // ---- Every operation keeps the invariant ----

  /** Only the statement's number or the location changes. */
  lemma NextKeeps(log: Log, absolute: set<nat>, n: Log)
    requires Inv(log, absolute) && n == log.(stmt := n.stmt, locs := n.locs, his := n.his) && log.stmt <= n.stmt
    ensures Inv(n, absolute)
  {
    hide History, DataHistory, Ordered, ImageHolds, FieldsApart, EventOk, EventHolds, EventIs, Alive;
    forall j: nat | j < |n.stores|
      ensures StoreOk(n, absolute, j)
    {
      assert StoreOk(log, absolute, j);
    }
    forall i: nat | i < |n.fixes|
      ensures FixOk(n, i)
    {
      assert FixOk(log, i);
    }
    hide StoreOk, FixOk;
    SameElsewhere(log, n);
    forall p
      ensures EventIs(n, p)
    {
      assert EventIs(log, p);
      SameEvent(log, n, p);
    }
  }

  lemma SameEvent(log: Log, n: Log, p: Cell)
    requires n.stores == log.stores && n.events == log.events && EventIs(log, p)
    ensures EventIs(n, p)
  {
    hide LastStore, LastEvent;
  }

  lemma OpKeeps(log: Log, absolute: set<nat>, op: Op)
    requires Inv(log, absolute) && Proper(log, absolute, op)
    ensures Inv(Output.Apply(log, absolute, op), absolute)
  {
    hide Inv, Emit, EmitField, EmitConst, EmitPatch, Finish, RoomFor;
    match op
    case Statement => NextKeeps(log, absolute, Output.Apply(log, absolute, op));
    case Enter(s, implicit) =>
      MoveKeeps(log, absolute, Switch(s, Loc(log, s), implicit), Output.Apply(log, absolute, op));
    case MoveTo(offset) => MoveKeeps(log, absolute, SetTo(log.cur, offset), Output.Apply(log, absolute, op));
    case Skip(n, always) =>
      if n > 0 || always {
        MoveKeeps(log, absolute, Gap(log.cur, n), Output.Apply(log, absolute, op));
      } else {
        NextKeeps(log, absolute, Output.Apply(log, absolute, op));
      }
    case Bytes(data) =>
      BeforeNone(log, absolute);
      EmitKeeps(log, absolute, data, None);
    case Field(pre, data, kind) => FieldKeeps(log, absolute, pre, data, kind);
    case Const(size, value, form) => ConstKeeps(log, absolute, size, value, form);
    case Patch(offset, size, value, immediate) => PatchKeeps(log, absolute, offset, size, value, immediate);
    case Complete(i, tree) => FinishKeeps(log, absolute, i, tree);
  }

  lemma StartInv(absolute: set<nat>)
    ensures Inv(Output.Start, absolute)
  {
    var log := Output.Start;
    forall p
      ensures EventIs(log, p) && ImageHolds(log, p) && History(log.owners, p) == DataHistory(log.stores, p)
    {
      assert log.events[..0] == [];
      assert LastEvent(log.events, p) == LastEvent([], p);
    }
  }

  /** Whatever a program stores, moves, stores over and completes, the record keeps its invariant. */
  lemma {:induction false} AssembledKeeps(ops: seq<Op>, absolute: set<nat>)
    requires Assembled(ops, absolute).Some?
    ensures Inv(Assembled(ops, absolute).value, absolute)
  {
    hide Inv, Proper, Output.Apply;
    if ops == [] {
      StartInv(absolute);
    } else {
      AssembledKeeps(ops[..|ops| - 1], absolute);
      OpKeeps(Assembled(ops[..|ops| - 1], absolute).value, absolute, ops[|ops| - 1]);
    }
  }
}
