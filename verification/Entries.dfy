/** The entry points an object defines: one for each .ENTRY, in source order, at the place of its mask. */
module Entries {
  import opened Words
  import opened Expressions
  import opened Linker
  import opened Output
  import opened Histories
  import opened Positions
  import opened Emission
  import opened Replay
  import opened Linking
  import opened Allocation
  import opened FinalImage

  predicate IsEntry(e: Event) {
    e.ConstAt? && e.form.EntryMask?
  }

  function EntryAt(e: Event): Entry
    requires IsEntry(e)
  {
    Entry(e.form.name, e.sect, e.offset, e.value % 0x1_0000)
  }

  function EntriesOf(events: seq<Event>): seq<Entry> {
    if events == [] then []
    else
      var e := events[|events| - 1];
      EntriesOf(events[..|events| - 1]) + if IsEntry(e) then [EntryAt(e)] else []
  }

  lemma {:induction false} EntriesTold(log: Log, absolute: set<nat>, n: nat)
    requires n <= |log.events|
    ensures Replayed(log, absolute, n).entries == EntriesOf(log.events[..n])
  {
    hide Data, SetLocation, ConstantCommands, PatchCommands, RelocationsOf;
    if n > 0 {
      EntriesTold(log, absolute, n - 1);
      assert log.events[..n][..n - 1] == log.events[..n - 1];
    }
  }

  /** The object defines just the source's entry points, in order. */
  lemma EntriesAreTheSource(ops: seq<Op>, absolute: set<nat>, log: Log)
    requires Output.Assembled(ops, absolute) == Some(log)
    ensures Object(log, absolute).entries == EntriesOf(log.events)
  {
    hide Output.Assembled, Replayed, SetLocation;
    EntriesTold(log, absolute, |log.events|);
    assert log.events[..|log.events|] == log.events;
  }

  lemma {:induction false} EntryAmong(events: seq<Event>, k: nat)
    requires k < |events| && IsEntry(events[k])
    ensures EntryAt(events[k]) in EntriesOf(events)
  {
    if k < |events| - 1 {
      EntryAmong(events[..|events| - 1], k);
    }
  }

  lemma MaskStored(log: Log, absolute: set<nat>, env: Env, k: nat, p: Cell)
    requires Inv(log, absolute) && k < |log.events| && IsEntry(log.events[k]) && LastStore(log.stores, p) >= 0
    requires log.stores[LastStore(log.stores, p)].event == k
    ensures var e := log.events[k];
            && p.sect == e.sect && e.offset <= p.off < e.offset + 2
            && LastStored(log, env, p) == LittleEndian(e.value, 2)[p.off - e.offset]
  {
    hide FieldsApart, Alive, EventIs, ImageHolds, History, DataHistory, Ordered, FixOk, LittleEndian, ValueByte;
    var j := LastStore(log.stores, p);
    assert StoreOk(log, absolute, j) && EventOk(log.events[k], absolute);
  }

  /** And where nothing is stored over it since, an entry point's mask is in the linked image where its record says. */
  lemma EntryLinked(ops: seq<Op>, S: Setting, st: State, k: nat, p: Cell)
    requires Output.Assembled(ops, S.absolute) == Some(S.log) && 0 in S.absolute && Placed(S) && AllocatesReached(S)
    requires st.stack == [] && Run(Object(S.log, S.absolute).commands, S.env, st).Some?
    requires k < |S.log.events| && IsEntry(S.log.events[k]) && LastStore(S.log.stores, p) >= 0
    requires S.log.stores[LastStore(S.log.stores, p)].event == k
    ensures var e := EntryAt(S.log.events[k]);
            && e in Object(S.log, S.absolute).entries && p.sect == e.sect && e.offset <= p.off < e.offset + 2
            && 0 <= Address(S.env, p) < TWO32
            && At(Run(Object(S.log, S.absolute).commands, S.env, st).value.mem, Address(S.env, p))
               == LittleEndian(S.log.events[k].value, 2)[p.off - e.offset]
  {
    hide Inv, Placed, AllocatesReached, Output.Assembled, Run, Object, LastStored, InStepAfter, At, LittleEndian,
      LastStore;
    AssembledKeeps(ops, S.absolute);
    ReplayIsFaithful(ops, S, st);
    EntriesAreTheSource(ops, S.absolute, S.log);
    EntryAmong(S.log.events, k);
    MaskStored(S.log, S.absolute, S.env, k, p);
  }
}
