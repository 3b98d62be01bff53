/**
 Which relocation each event writes where: every field left to the linker is found once, by the event that stored it.
 */
module Relocated {
  import opened Expressions
  import opened Output
  import opened Histories
  import opened Emission

  predicate LeftAt(log: Log, i: nat, key: Key) {
    && i < |log.fixes| && log.fixes[i].outcome.Left? && log.fixes[i].sect == key.sect && log.fixes[i].at == key.offset
    && FixEvent(log, i) == key.event
  }

  /** Which of the first n fixups, left to the linker, has its field there and was stored by that event; or -1. */
  function IndexFrom(log: Log, n: nat, key: Key): (i: int)
    ensures -1 <= i < n && (i >= 0 ==> LeftAt(log, i, key))
    ensures forall k: nat :: i < k < n ==> !LeftAt(log, k, key)
  {
    if n == 0 then -1 else if LeftAt(log, n - 1, key) then n - 1 else IndexFrom(log, n - 1, key)
  }

  function IndexOf(log: Log, key: Key): int {
    IndexFrom(log, |log.fixes|, key)
  }

  function RelocationOf(log: Log, i: int): Relocation {
    if 0 <= i < |log.fixes| && log.fixes[i].outcome.Left? then
      Relocation(log.fixes[i].kind, log.fixes[i].prefix, log.fixes[i].outcome.expr)
    else Relocation(AddrB, 0, Tree.Const(0))
  }

  /** relocs holds at key what the record left there, i being the fixup that left it, or -1. */
  predicate Matches(log: Log, relocs: Relocations, key: Key, i: int) {
    (key in relocs <==> i >= 0) && (key in relocs ==> relocs[key] == RelocationOf(log, i))
  }

  lemma {:induction false} LastByIs(stores: seq<Source>, p: Cell, stmt: nat, h: nat)
    requires h < |stores| && stores[h].isData && Covers(stores[h], p) && stores[h].stmt == stmt
    requires forall k :: 0 <= k < |stores| && k != h && stores[k].isData && Covers(stores[k], p) ==>
               stores[k].stmt != stmt
    ensures LastBy(DataHistory(stores, p), stmt) == stores[h].event
  {
    var n := |stores| - 1;
    var x := stores[n];
    if n != h {
      assert forall k :: 0 <= k < n ==> stores[..n][k] == stores[k];
      LastByIs(stores[..n], p, stmt, h);
      if x.isData && Covers(x, p) {
        var before := DataHistory(stores[..n], p);
        assert DataHistory(stores, p)[..|before|] == before;
      }
    }
  }

  /** storedBy finds the event that stored a fixup's field. */
  lemma KeyIsEvent(log: Log, absolute: set<nat>, i: nat)
    requires Inv(log, absolute) && i < |log.fixes|
    ensures KeyOf(log, log.fixes[i]) == Key(log.fixes[i].sect, log.fixes[i].at, FixEvent(log, i))
  {
    hide FieldsApart, Alive, EventIs, ImageHolds, EventOk, StoreOk, DataHistory, LastBy;
    var f := log.fixes[i];
    assert FixOk(log, i);
    var p, h := Cell(f.sect, f.at), f.home;
    assert History(log.owners, p) == DataHistory(log.stores, p);
    forall k | 0 <= k < |log.stores| && k != h && log.stores[k].isData && Covers(log.stores[k], p)
      ensures log.stores[k].stmt != f.stmt
    {
      assert Ordered(log.stores, k, h) && Ordered(log.stores, h, k);
    }
    LastByIs(log.stores, p, f.stmt, h);
  }

  lemma {:induction false} FirstMatch(log: Log, absolute: set<nat>, n: nat, key: Key)
    requires Inv(log, absolute) && n <= |log.fixes|
    ensures Matches(log, RelocationsOf(log, n), key, IndexFrom(log, n, key))
  {
    hide Inv, KeyOf;
    if n > 0 {
      FirstMatch(log, absolute, n - 1, key);
      KeyIsEvent(log, absolute, n - 1);
    }
  }

  /** No two relocations have the same key, so that none replaces another. */
  lemma KeysDiffer(log: Log, absolute: set<nat>, i: nat, j: nat)
    requires Inv(log, absolute) && i < j < |log.fixes|
    ensures KeyOf(log, log.fixes[i]) != KeyOf(log, log.fixes[j])
  {
    hide KeyOf, Ordered, Alive, EventIs, ImageHolds, EventOk, StoreOk, DataHistory, History, FixOk;
    KeyIsEvent(log, absolute, i);
    KeyIsEvent(log, absolute, j);
  }

  // ---- The bytes of fields ----

  predicate FieldCovers(log: Log, i: nat, event: int, p: Cell) {
    && i < |log.fixes| && log.fixes[i].outcome.Left? && FixEvent(log, i) == event
    && log.fixes[i].sect == p.sect && log.fixes[i].at <= p.off < log.fixes[i].at + KindSize(log.fixes[i].kind)
  }

  /** Which of the first n fixups, left to the linker, has the byte in its field, stored by that event; or -1. */
  function FieldFrom(log: Log, n: nat, event: int, p: Cell): (i: int)
    ensures -1 <= i < n && (i >= 0 ==> FieldCovers(log, i, event, p))
    ensures forall k: nat :: i < k < n ==> !FieldCovers(log, k, event, p)
  {
    if n == 0 then -1 else if FieldCovers(log, n - 1, event, p) then n - 1 else FieldFrom(log, n - 1, event, p)
  }

  function FieldOf(log: Log, event: int, p: Cell): int {
    FieldFrom(log, |log.fixes|, event, p)
  }

  /** The event's fields, with what comes before them, are each wholly before p or not before it. */
  ghost predicate Clear(log: Log, event: int, p: int) {
    forall i: nat :: i < |log.fixes| && log.fixes[i].outcome.Left? && FixEvent(log, i) == event ==>
      log.fixes[i].at + KindSize(log.fixes[i].kind) <= p || p <= log.fixes[i].at - log.fixes[i].prefix
  }

  /** Two fields of one event, with what comes before them, share no byte. */
  lemma OperandsApart(log: Log, absolute: set<nat>, i: nat, j: nat)
    requires Inv(log, absolute) && i < |log.fixes| && j < |log.fixes| && i != j
    requires log.fixes[i].sect == log.fixes[j].sect && FixEvent(log, i) == FixEvent(log, j)
    ensures FieldsApart(log.fixes[i], log.fixes[j]) || FieldsApart(log.fixes[j], log.fixes[i])
  {
    hide Ordered, Alive, EventIs, ImageHolds, EventOk, StoreOk, FixOk, DataHistory, History, FieldsApart;
  }

  /** A field of a data event lies in it, in its psect. */
  lemma FieldInside(log: Log, absolute: set<nat>, i: nat, event: nat)
    requires Inv(log, absolute) && i < |log.fixes| && FixEvent(log, i) == event
    ensures event < |log.events| && log.events[event].DataAt? && log.events[event].sect == log.fixes[i].sect
    ensures log.events[event].offset + log.fixes[i].prefix <= log.fixes[i].at && log.fixes[i].prefix <= 2
    ensures log.fixes[i].at + KindSize(log.fixes[i].kind) <= log.events[event].offset + log.events[event].size
  {
    hide Ordered, Alive, EventIs, ImageHolds, EventOk, FieldsApart, DataHistory, History;
    assert FixOk(log, i) && StoreOk(log, absolute, log.fixes[i].home);
  }

  /** relocs holds, of the event's fields from p on, what the record left. */
  ghost predicate Ahead(log: Log, relocs: Relocations, s: nat, p: int, event: int) {
    forall q :: q >= p ==> Matches(log, relocs, Key(s, q, event), IndexOf(log, Key(s, q, event)))
  }

  ghost predicate InData(log: Log, absolute: set<nat>, event: nat, s: nat, p: int, end: int) {
    && Inv(log, absolute) && event < |log.events| && log.events[event].DataAt? && log.events[event].sect == s
    && log.events[event].offset <= p <= end == log.events[event].offset + log.events[event].size
  }

  /** The operand specifier that starts at p: the field is of fixup i, n bytes on. */
  ghost predicate Operand(log: Log, s: nat, p: int, n: nat, i: nat, event: int) {
    i < |log.fixes| && LeftAt(log, i, Key(s, p + n, event)) && log.fixes[i].prefix == n
  }

  /**
   * Where a relocation is found, its operand specifier starts at p, and ends inside the event, where the next may
   * start.
   */
  lemma Found(log: Log, absolute: set<nat>, event: nat, s: nat, p: int, end: int, relocs: Relocations) returns (i: nat)
    requires InData(log, absolute, event, s, p, end) && p < end && Clear(log, event, p)
    requires Ahead(log, relocs, s, p, event)
    requires Key(s, p + PrefixAt(relocs, s, p, end, event), event) in relocs
    ensures var n := PrefixAt(relocs, s, p, end, event);
            && Operand(log, s, p, n, i, event) && relocs[Key(s, p + n, event)] == RelocationOf(log, i)
            && p + n + KindSize(log.fixes[i].kind) <= end && Clear(log, event, p + n + KindSize(log.fixes[i].kind))
  {
    hide Inv, FieldsApart;
    var n := PrefixAt(relocs, s, p, end, event);
    var key := Key(s, p + n, event);
    assert Matches(log, relocs, key, IndexOf(log, key));
    i := IndexOf(log, key);
    FieldInside(log, absolute, i, event);
    ClearAfter(log, absolute, event, p, i);
  }

  lemma ClearAfter(log: Log, absolute: set<nat>, event: nat, p: int, i: nat)
    requires Inv(log, absolute) && Clear(log, event, p) && i < |log.fixes| && log.fixes[i].outcome.Left?
    requires FixEvent(log, i) == event
    requires p <= log.fixes[i].at - log.fixes[i].prefix
    ensures Clear(log, event, log.fixes[i].at + KindSize(log.fixes[i].kind))
  {
    hide Inv;
    var p' := log.fixes[i].at + KindSize(log.fixes[i].kind);
    forall j: nat | j < |log.fixes| && log.fixes[j].outcome.Left? && FixEvent(log, j) == event
      ensures log.fixes[j].at + KindSize(log.fixes[j].kind) <= p' || p' <= log.fixes[j].at - log.fixes[j].prefix
    {
      if i != j {
        FieldInside(log, absolute, i, event);
        FieldInside(log, absolute, j, event);
        OperandsApart(log, absolute, i, j);
      }
    }
  }

  /** Of an operand specifier's bytes, those before the field are in no field, and the field's are in only its. */
  lemma OperandBytes(log: Log, absolute: set<nat>, event: nat, s: nat, p: int, n: nat, i: nat, q: int)
    requires Inv(log, absolute) && Operand(log, s, p, n, i, event) && p <= q < p + n + KindSize(log.fixes[i].kind)
    ensures FieldOf(log, event, Cell(s, q)) == if q < p + n then -1 else i
    ensures q != p + n ==> IndexOf(log, Key(s, q, event)) == -1
    ensures q == p + n ==> IndexOf(log, Key(s, q, event)) == i
  {
    hide Inv;
    var c, key := Cell(s, q), Key(s, q, event);
    var j, k := FieldOf(log, event, c), IndexOf(log, key);
    if j >= 0 && j != i {
      OperandsApart(log, absolute, i, j);
    }
    if k >= 0 && k != i {
      OperandsApart(log, absolute, i, k);
    }
    assert q >= p + n ==> FieldCovers(log, i, event, c);
    assert q == p + n ==> LeftAt(log, i, key);
  }

  /** Where none is found, the byte at p is in no field, and the next may start an operand specifier. */
  lemma NoneFound(log: Log, absolute: set<nat>, event: nat, s: nat, p: int, end: int, relocs: Relocations)
    requires InData(log, absolute, event, s, p, end) && p < end && Clear(log, event, p)
    requires Ahead(log, relocs, s, p, event)
    requires Key(s, p + PrefixAt(relocs, s, p, end, event), event) !in relocs
    ensures FieldOf(log, event, Cell(s, p)) == -1 && IndexOf(log, Key(s, p, event)) == -1 && Clear(log, event, p + 1)
  {
    hide Inv;
    assert PrefixAt(relocs, s, p, end, event) == 0;
    assert Matches(log, relocs, Key(s, p, event), IndexOf(log, Key(s, p, event)));
    forall j: nat | j < |log.fixes| && log.fixes[j].outcome.Left? && FixEvent(log, j) == event
      ensures log.fixes[j].at + KindSize(log.fixes[j].kind) <= p || p < log.fixes[j].at - log.fixes[j].prefix
    {
      FieldInside(log, absolute, j, event);
      var key := Key(s, log.fixes[j].at, event);
      if p == log.fixes[j].at - log.fixes[j].prefix {
        assert LeftAt(log, j, key);
        assert Matches(log, relocs, key, IndexOf(log, key));
        SameIndex(log, absolute, j, key);
      }
    }
  }

  lemma SameIndex(log: Log, absolute: set<nat>, j: nat, key: Key)
    requires Inv(log, absolute) && LeftAt(log, j, key)
    ensures IndexOf(log, key) == j
  {
    hide Inv;
    var i := IndexOf(log, key);
    if i != j {
      OperandsApart(log, absolute, i, j);
      assert key.event >= 0 by { NonNegative(log, absolute, j); }
      FieldInside(log, absolute, i, key.event);
      FieldInside(log, absolute, j, key.event);
    }
  }

  lemma NonNegative(log: Log, absolute: set<nat>, j: nat)
    requires Inv(log, absolute) && j < |log.fixes|
    ensures 0 <= FixEvent(log, j) < |log.events|
  {
    hide Ordered, Alive, EventIs, ImageHolds, EventOk, FieldsApart, DataHistory, History, StoreOk;
    assert FixOk(log, j);
  }
}
