/**
 Replay is faithful: the object's commands keep the linker's location the emitter's, write each relocation once, and
 leave each byte of a psect as the last store of it in source order has it.
 */
module Faithful {
  import opened Expressions
  import opened Output
  import opened Histories
  import opened Positions
  import opened Emission
  import opened Relocated
  import opened Replay

  // ---- The relocations written ----

  /** The fields written are what after is short of before, each once. */
  ghost predicate WrittenOnce(before: Relocations, after: Relocations, fields: seq<Key>) {
    && (forall a, b :: 0 <= a < b < |fields| ==> fields[a] != fields[b])
    && (forall key :: key in fields <==> key in before && key !in after)
    && (forall key :: key in after ==> key in before && after[key] == before[key])
  }

  lemma OnceJoin(r0: Relocations, r1: Relocations, r2: Relocations, f: seq<Key>, g: seq<Key>)
    requires WrittenOnce(r0, r1, f) && WrittenOnce(r1, r2, g)
    ensures WrittenOnce(r0, r2, f + g)
  {
    forall a, b | 0 <= a < b < |f + g|
      ensures (f + g)[a] != (f + g)[b]
    {
      if a < |f| <= b {
        assert f[a] in f && g[b - |f|] in g;
      }
    }
  }

  lemma OnceOne(relocs: Relocations, key: Key)
    requires key in relocs
    ensures WrittenOnce(relocs, relocs - {key}, [key])
  {
  }

  /** Of the event's fields, those from p on are gone; the rest are as they were. */
  ghost predicate Gone(before: Relocations, after: Relocations, s: nat, p: int, event: int) {
    forall key: Key ::
      (key in after <==> key in before && !(key.sect == s && key.event == event && key.offset >= p))
      && (key in after ==> after[key] == before[key])
  }

  lemma GoneWith(before: Relocations, after: Relocations, s: nat, p: int, p': int, event: int, key: Key)
    requires key.sect == s && key.event == event && p <= key.offset < p' && Gone(before - {key}, after, s, p', event)
    requires forall q :: p <= q < p' && q != key.offset ==> Key(s, q, event) !in before
    ensures Gone(before, after, s, p, event)
  {
  }

  lemma GonePast(before: Relocations, after: Relocations, s: nat, p: int, event: int)
    requires Gone(before, after, s, p + 1, event) && Key(s, p, event) !in before
    ensures Gone(before, after, s, p, event)
  {
  }

  lemma {:induction false} DataWrites(log: Log, absolute: set<nat>, k: nat, s: nat, p: int, end: int,
                                      relocs: Relocations)
    requires InData(log, absolute, k, s, p, end) && Clear(log, k, p) && Ahead(log, relocs, s, p, k)
    ensures var part := Data(log, k, s, p, end, relocs);
            WrittenOnce(relocs, part.relocs, part.fields) && Gone(relocs, part.relocs, s, p, k)
    decreases end - p
  {
    hide Inv, Clear, Ahead, FieldCommands, Stored, FieldOf, IndexOf, PrefixAt, RelocationOf, WrittenOnce, Gone;
    if p >= end {
      PastEnd(log, absolute, k, s, p, relocs);
    } else {
      var n := PrefixAt(relocs, s, p, end, k);
      var key := Key(s, p + n, k);
      if key in relocs {
        var i := Found(log, absolute, k, s, p, end, relocs);
        var p' := p + n + KindSize(log.fixes[i].kind);
        KindOf(log, i);
        AheadAfter(log, relocs, s, p, k, key, p');
        DataWrites(log, absolute, k, s, p', end, relocs - {key});
        var rest := Data(log, k, s, p', end, relocs - {key});
        OnceOne(relocs, key);
        OnceJoin(relocs, relocs - {key}, rest.relocs, [key], rest.fields);
        forall q | p <= q < p' && q != p + n
          ensures Key(s, q, k) !in relocs
        {
          OperandBytes(log, absolute, k, s, p, n, i, q);
          NotThere(log, relocs, s, p, k, q);
        }
        GoneWith(relocs, rest.relocs, s, p, p', k, key);
      } else {
        NoneFound(log, absolute, k, s, p, end, relocs);
        NotThere(log, relocs, s, p, k, p);
        AheadNext(log, relocs, s, p, k);
        DataWrites(log, absolute, k, s, p + 1, end, relocs);
        GonePast(relocs, Data(log, k, s, p + 1, end, relocs).relocs, s, p, k);
      }
    }
  }

  lemma NotThere(log: Log, relocs: Relocations, s: nat, p: int, event: int, q: int)
    requires Ahead(log, relocs, s, p, event) && q >= p && IndexOf(log, Key(s, q, event)) == -1
    ensures Key(s, q, event) !in relocs
  {
    hide IndexOf;
    assert Matches(log, relocs, Key(s, q, event), IndexOf(log, Key(s, q, event)));
  }

  lemma PastEnd(log: Log, absolute: set<nat>, k: nat, s: nat, p: int, relocs: Relocations)
    requires InData(log, absolute, k, s, p, p) && Ahead(log, relocs, s, p, k)
    ensures WrittenOnce(relocs, relocs, []) && Gone(relocs, relocs, s, p, k)
  {
    hide Inv, IndexFrom, Ahead;
    forall q | q >= p
      ensures Key(s, q, k) !in relocs
    {
      var i := IndexOf(log, Key(s, q, k));
      if i >= 0 {
        FieldInside(log, absolute, i, k);
      }
      NotThere(log, relocs, s, p, k, q);
    }
  }

  /** The relocations still to be written are those of the events from n on. */
  ghost predicate Remaining(log: Log, relocs: Relocations, n: nat) {
    forall key: Key :: if key.event >= n then Matches(log, relocs, key, IndexOf(log, key)) else key !in relocs
  }

  lemma RemainingStart(log: Log, absolute: set<nat>)
    requires Inv(log, absolute)
    ensures Remaining(log, RelocationsOf(log, |log.fixes|), 0)
  {
    hide Inv, RelocationsOf, Matches, IndexFrom;
    forall key: Key
      ensures Matches(log, RelocationsOf(log, |log.fixes|), key, IndexOf(log, key))
      ensures key.event < 0 ==> key !in RelocationsOf(log, |log.fixes|)
    {
      FirstMatch(log, absolute, |log.fixes|, key);
      BeforeAll(log, absolute, RelocationsOf(log, |log.fixes|), key);
    }
  }

  lemma BeforeAll(log: Log, absolute: set<nat>, relocs: Relocations, key: Key)
    requires Inv(log, absolute) && Matches(log, relocs, key, IndexOf(log, key))
    ensures key.event < 0 ==> key !in relocs
  {
    hide Inv;
    var i := IndexOf(log, key);
    if i >= 0 {
      NonNegative(log, absolute, i);
    }
  }

  /** A data event writes its relocations and no others; any other event has none. */
  lemma RemainingData(log: Log, absolute: set<nat>, n: nat, relocs: Relocations)
    requires Inv(log, absolute) && n < |log.events| && log.events[n].DataAt? && Remaining(log, relocs, n)
    ensures var e := log.events[n];
            var part := Data(log, n, e.sect, e.offset, e.offset + e.size, relocs);
            Clear(log, n, e.offset) && Ahead(log, relocs, e.sect, e.offset, n)
            && Remaining(log, part.relocs, n + 1) && WrittenOnce(relocs, part.relocs, part.fields)
  {
    hide Inv, IndexFrom, Data, RelocationOf;
    var e := log.events[n];
    forall i: nat | i < |log.fixes| && log.fixes[i].outcome.Left? && FixEvent(log, i) == n
      ensures e.offset <= log.fixes[i].at - log.fixes[i].prefix
    {
      FieldInside(log, absolute, i, n);
    }
    DataWrites(log, absolute, n, e.sect, e.offset, e.offset + e.size, relocs);
    var after := Data(log, n, e.sect, e.offset, e.offset + e.size, relocs).relocs;
    hide WrittenOnce, Clear, Ahead;
    forall key: Key
      ensures if key.event >= n + 1 then Matches(log, after, key, IndexOf(log, key)) else key !in after
    {
      assert if key.event >= n then Matches(log, relocs, key, IndexOf(log, key)) else key !in relocs;
      var i := IndexOf(log, key);
      if key.event == n && i >= 0 {
        FieldInside(log, absolute, i, n);
      }
    }
  }

  lemma RemainingOther(log: Log, absolute: set<nat>, n: nat, relocs: Relocations)
    requires Inv(log, absolute) && n < |log.events| && !log.events[n].DataAt? && Remaining(log, relocs, n)
    ensures Remaining(log, relocs, n + 1)
  {
    hide Inv, IndexFrom, RelocationOf;
    forall key: Key
      ensures if key.event >= n + 1 then Matches(log, relocs, key, IndexOf(log, key)) else key !in relocs
    {
      assert if key.event >= n then Matches(log, relocs, key, IndexOf(log, key)) else key !in relocs;
      var i := IndexOf(log, key);
      if key.event == n && i >= 0 {
        FieldInside(log, absolute, i, n);
      }
    }
  }

  // ---- The emitter, event by event ----

  /** The emitter's location is where the first n events leave it. */
  predicate Follows(log: Log, em: Emitter, n: nat) {
    && n <= |log.events|
    && var at := Where(log.events[..n]);
       em.loc == at.loc && at.sect == (if em.sect.Some? then em.sect.value else 0)
       && (em.absStart ==> em.sect == Some(0))
  }

  ghost predicate EmitterOk(log: Log, em: Emitter, n: nat) {
    Follows(log, em, n) && Remaining(log, em.relocs, n)
    && WrittenOnce(RelocationsOf(log, |log.fixes|), em.relocs, em.fields)
  }

  lemma TellFollows(log: Log, absolute: set<nat>, n: nat, em: Emitter)
    requires Tracked(log) && n < |log.events| && Follows(log, em, n)
    ensures Follows(log, Tell(log, absolute, n, em), n + 1)
  {
    hide Data, SetLocation, ConstantCommands, PatchCommands, Tracked;
    WhereAppend(log.events[..n], log.events[n]);
    assert log.events[..n + 1] == log.events[..n] + [log.events[n]];
    TakenUp(log, n);
  }

  lemma TakenUp(log: Log, n: nat)
    requires Tracked(log) && n < |log.events|
    ensures TakesUp(Where(log.events[..n]), log.events[n])
  {
  }

  lemma TellOk(log: Log, absolute: set<nat>, n: nat, em: Emitter)
    requires Inv(log, absolute) && Tracked(log) && n < |log.events| && EmitterOk(log, em, n)
    ensures EmitterOk(log, Tell(log, absolute, n, em), n + 1)
  {
    hide Inv, Tracked, Data, SetLocation, ConstantCommands, PatchCommands, Remaining, WrittenOnce, Follows,
      RelocationsOf, Clear, Ahead;
    TellFollows(log, absolute, n, em);
    if log.events[n].DataAt? {
      RemainingData(log, absolute, n, em.relocs);
      var e := log.events[n];
      var part := Data(log, n, e.sect, e.offset, e.offset + e.size, em.relocs);
      OnceJoin(RelocationsOf(log, |log.fixes|), em.relocs, part.relocs, em.fields, part.fields);
    } else {
      RemainingOther(log, absolute, n, em.relocs);
    }
  }

  lemma {:induction false} ReplayedOk(log: Log, absolute: set<nat>, n: nat)
    requires Inv(log, absolute) && Tracked(log) && n <= |log.events|
    ensures EmitterOk(log, Replayed(log, absolute, n), n)
  {
    hide Inv, Tracked, Remaining, RelocationsOf, Tell;
    if n == 0 {
      RemainingStart(log, absolute);
    } else {
      hide EmitterOk;
      ReplayedOk(log, absolute, n - 1);
      TellOk(log, absolute, n - 1, Replayed(log, absolute, n - 1));
    }
  }

  /** Every relocation is written once: none is left over, and no field is written twice. */
  lemma EachWrittenOnce(log: Log, absolute: set<nat>)
    requires Inv(log, absolute) && Tracked(log)
    ensures var em := Object(log, absolute);
            && em.relocs == map[]
            && (forall a, b :: 0 <= a < b < |em.fields| ==> em.fields[a] != em.fields[b])
            && forall key :: key in em.fields <==> key in RelocationsOf(log, |log.fixes|)
  {
    hide Inv, Tracked, RelocationsOf, Replayed, SetLocation, Follows;
    var n := |log.events|;
    ReplayedOk(log, absolute, n);
    var em := Replayed(log, absolute, n);
    forall key: Key
      ensures key !in em.relocs
    {
      var i := IndexOf(log, key);
      assert if key.event >= n then Matches(log, em.relocs, key, i) else key !in em.relocs;
      if i >= 0 {
        NonNegative(log, absolute, i);
      }
    }
  }
}
