/** What the object allocates to a psect, the highest location reached in it, covers every byte its events store. */
module Allocation {
  import opened Words
  import opened Expressions
  import opened Output
  import opened Histories
  import opened Replay
  import opened Linking

  predicate Reached(e: Event, log: Log) {
    SpanOf(e).hi <= Hi(log, SpanOf(e).sect)
  }

  /** Every event's bytes end at or before the highest location of their section. */
  ghost predicate Marked(log: Log) {
    forall k :: 0 <= k < |log.events| ==> Reached(log.events[k], log)
  }

  /** Nothing is reached less than before. */
  ghost predicate Higher(log: Log, n: Log) {
    forall s: nat :: Hi(n, s) >= Hi(log, s)
  }

  lemma MarkedHigher(log: Log, n: Log, s: nat, loc: word)
    requires n.his == Mark(log.his, s, loc)
    ensures Higher(log, n) && Hi(n, s) >= loc
  {
  }

  /** An event logged, its section marked past its bytes. */
  lemma LoggedMarked(log: Log, e: Event, n: Log)
    requires Marked(log) && n.events == LogEvent(log.events, e) && Higher(log, n) && Reached(e, n)
    ensures Marked(n)
  {
    hide Hi;
    var last := |log.events| - 1;
    forall k | 0 <= k < |n.events|
      ensures Reached(n.events[k], n)
    {
      if k <= last {
        assert Reached(log.events[k], log);
      }
    }
  }

  lemma EmitMarked(log: Log, data: seq<octet>, fill: Option<Filling>)
    requires Marked(log) && Loc(log, log.cur) + |data| < TWO32
    ensures var n := Emit(log, data, fill);
            Marked(n) && n.cur == log.cur && Loc(n, n.cur) == Loc(log, log.cur) + |data|
  {
    hide Claim, StoreImage, Overwrites, Supersede, LogEvent, Marked, Mark;
    var n, lo := Emit(log, data, fill), Loc(log, log.cur);
    MarkedHigher(log, n, log.cur, lo + |data|);
    LoggedMarked(log, DataAt(log.cur, lo, |data|), n);
  }

  lemma {:induction false} EmitBytesMarked(log: Log, data: seq<octet>)
    requires Marked(log) && Loc(log, log.cur) + |data| < TWO32
    ensures var n := EmitBytes(log, data);
            Marked(n) && n.cur == log.cur && Loc(n, n.cur) == Loc(log, log.cur) + |data|
  {
    hide Marked, Emit, Loc;
    if data != [] {
      var k := |data| - 1;
      EmitBytesMarked(log, data[..k]);
      EmitMarked(EmitBytes(log, data[..k]), [data[k]], None);
    }
  }

  lemma OpMarked(log: Log, absolute: set<nat>, op: Op)
    requires Marked(log) && Proper(log, absolute, op)
    ensures Marked(Output.Apply(log, absolute, op))
  {
    hide LogEvent, StoreImage, Emit, EmitBytes, LittleEndian, Untouched, Mark, Marked;
    var n := Output.Apply(log, absolute, op);
    match op
    case Statement => SameMarked(log, n);
    case Enter(s, implicit) => LoggedMarked(log, Switch(s, Loc(log, s), implicit), n);
    case MoveTo(offset) =>
      MarkedHigher(log, n, log.cur, offset);
      LoggedMarked(log, SetTo(log.cur, offset), n);
    case Skip(k, always) =>
      MarkedHigher(log, n, log.cur, Wrap(Loc(log, log.cur) + k));
      if k > 0 || always {
        LoggedMarked(log, Gap(log.cur, k), n);
      } else {
        SameMarked(log, n);
      }
    case Bytes(data) => EmitMarked(log, data, None);
    case Field(pre, data, kind) =>
      EmitBytesMarked(log, pre);
      EmitMarked(EmitBytes(log, pre), data, Some(Filling(kind, |pre|)));
    case Const(size, value, form) =>
      MarkedHigher(log, n, log.cur, Loc(log, log.cur) + size);
      LoggedMarked(log, ConstAt(log.cur, Loc(log, log.cur), size, value, form), n);
    case Patch(offset, size, value, immediate) =>
      LoggedMarked(log, PatchAt(log.cur, offset, size, value, immediate), n);
    case Complete(_, _) => SameMarked(log, n);
  }

  lemma SameMarked(log: Log, n: Log)
    requires Marked(log) && n.events == log.events && Higher(log, n)
    ensures Marked(n)
  {
    hide Hi;
    forall k | 0 <= k < |n.events|
      ensures Reached(n.events[k], n)
    {
      assert Reached(log.events[k], log);
    }
  }

  /** Whatever a program does, no event stores past the highest location reached. */
  lemma {:induction false} AssembledMarked(ops: seq<Op>, absolute: set<nat>)
    requires Assembled(ops, absolute).Some?
    ensures Marked(Assembled(ops, absolute).value)
  {
    hide Proper, Output.Apply;
    if ops != [] {
      AssembledMarked(ops[..|ops| - 1], absolute);
      OpMarked(Assembled(ops[..|ops| - 1], absolute).value, absolute, ops[|ops| - 1]);
    }
  }

  /** definePsect: a relocatable psect's allocation is the highest location reached in it. */
  ghost predicate AllocatesReached(S: Setting) {
    forall s: nat :: S.alloc(s) == if s in S.absolute then 0 else Hi(S.log, s)
  }

  /** So the object allocates all that its events store. */
  lemma ReachedAllocated(S: Setting)
    requires Inv(S.log, S.absolute) && Marked(S.log) && AllocatesReached(S)
    ensures Allocated(S)
  {
    hide Hi, FixOk, StoreOk, Ordered, FieldsApart, Alive, History, DataHistory, EventIs, ImageHolds;
    forall k | 0 <= k < |S.log.events|
      ensures SpanOf(S.log.events[k]).hi <= S.alloc(SpanOf(S.log.events[k]).sect)
    {
      assert Reached(S.log.events[k], S.log) && EventOk(S.log.events[k], S.absolute);
    }
  }
}
