/**
 The events follow the location: each takes up where the ones before it leave off, as the linker, replaying them, will.
 */
module Positions {
  import opened Words
  import opened Expressions
  import opened Output

  datatype Position = Position(sect: nat, loc: word)

  function Next(at: Position, e: Event): Position {
    match e
    case Switch(s, offset, _) => Position(s, offset)
    case SetTo(_, offset) => Position(at.sect, offset)
    case Gap(_, n) => Position(at.sect, Wrap(at.loc + n))
    case DataAt(_, offset, size) => Position(at.sect, Wrap(offset + size))
    case ConstAt(_, _, size, _, _) => Position(at.sect, Wrap(at.loc + size))
    case PatchAt(_, _, _, _, _) => at
  }

  /** Where the events leave the location; assembly starts in the absolute section 0. */
  function Where(events: seq<Event>): Position {
    if events == [] then Position(0, 0) else Next(Where(events[..|events| - 1]), events[|events| - 1])
  }

  /** The event is of the current section, and what it stores at the location is stored there. */
  predicate TakesUp(at: Position, e: Event) {
    match e
    case Switch(_, _, _) => true
    case SetTo(s, _) => s == at.sect
    case Gap(s, _) => s == at.sect
    case DataAt(s, offset, _) => s == at.sect && offset == at.loc
    case ConstAt(s, offset, _, _, _) => s == at.sect && offset == at.loc
    case PatchAt(s, _, _, _, _) => s == at.sect
  }

  predicate InPlace(events: seq<Event>) {
    forall k :: 0 <= k < |events| ==> TakesUp(Where(events[..k]), events[k])
  }

  predicate Tracked(log: Log) {
    InPlace(log.events) && Where(log.events) == Position(log.cur, Loc(log, log.cur))
  }

  lemma WhereAppend(events: seq<Event>, e: Event)
    ensures Where(events + [e]) == Next(Where(events), e)
  {
    assert (events + [e])[..|events|] == events;
  }

  lemma AppendInPlace(events: seq<Event>, e: Event)
    requires InPlace(events) && TakesUp(Where(events), e)
    ensures InPlace(events + [e])
  {
    var more := events + [e];
    forall k | 0 <= k < |more|
      ensures TakesUp(Where(more[..k]), more[k])
    {
      if k < |events| {
        assert more[..k] == events[..k];
      } else {
        assert more[..k] == events;
      }
    }
  }

  lemma FrontInPlace(front: seq<Event>, last: Event)
    requires InPlace(front + [last])
    ensures InPlace(front) && TakesUp(Where(front), last)
  {
    hide TakesUp, Where;
    var events := front + [last];
    forall k | 0 <= k < |front|
      ensures TakesUp(Where(front[..k]), front[k])
    {
      assert front[..k] == events[..k];
    }
    assert events[..|front|] == front && events[|front|] == last;
  }

  lemma MergedNext(at: Position, e: Event, last: Event)
    requires last.DataAt? && e.DataAt? && TakesUp(at, last) && TakesUp(Next(at, last), e)
    ensures var merged := DataAt(e.sect, last.offset, Wrap(last.size + e.size));
            TakesUp(at, merged) && Next(at, merged) == Next(Next(at, last), e)
  {
    WrapSum(last.size + e.size, last.offset);
    WrapSum(last.offset + last.size, e.size);
  }

  /** An event that extends the last one leaves the location where it would have on its own. */
  lemma LoggedInPlace(events: seq<Event>, e: Event)
    requires InPlace(events) && TakesUp(Where(events), e)
    ensures InPlace(LogEvent(events, e)) && Where(LogEvent(events, e)) == Next(Where(events), e)
  {
    hide InPlace, TakesUp, Next, Where;
    var n := |events| - 1;
    if LogEvent(events, e) == events + [e] {
      WhereAppend(events, e);
      AppendInPlace(events, e);
    } else {
      var front, last := events[..n], events[n];
      var merged := DataAt(e.sect, last.offset, Wrap(last.size + e.size));
      assert events == front + [last] && LogEvent(events, e) == front + [merged];
      FrontInPlace(front, last);
      WhereAppend(front, last);
      MergedNext(Where(front), e, last);
      WhereAppend(front, merged);
      AppendInPlace(front, merged);
    }
  }

  lemma EmitTracked(log: Log, data: seq<octet>, fill: Option<Filling>)
    requires Tracked(log) && Loc(log, log.cur) + |data| < TWO32
    ensures Tracked(Emit(log, data, fill))
  {
    hide Claim, StoreImage, Overwrites, Supersede, LogEvent, InPlace, Where;
    LoggedInPlace(log.events, DataAt(log.cur, Loc(log, log.cur), |data|));
  }

  lemma {:induction false} EmitBytesTracked(log: Log, data: seq<octet>)
    requires Tracked(log) && Loc(log, log.cur) + |data| < TWO32
    ensures var l := EmitBytes(log, data);
            Tracked(l) && l.cur == log.cur && Loc(l, l.cur) == Loc(log, log.cur) + |data|
  {
    hide Tracked, Claim, StoreImage, Overwrites, Supersede, LogEvent;
    if data != [] {
      var k := |data| - 1;
      EmitBytesTracked(log, data[..k]);
      EmitTracked(EmitBytes(log, data[..k]), [data[k]], None);
    }
  }

  /** Every operation leaves the location where its events leave it. */
  lemma OpTracked(log: Log, absolute: set<nat>, op: Op)
    requires Tracked(log) && Proper(log, absolute, op)
    ensures Tracked(Output.Apply(log, absolute, op))
  {
    hide InPlace, Where, LogEvent, StoreImage, Emit, EmitBytes, LittleEndian, Untouched;
    match op
    case Enter(s, implicit) => LoggedInPlace(log.events, Switch(s, Loc(log, s), implicit));
    case MoveTo(offset) => LoggedInPlace(log.events, SetTo(log.cur, offset));
    case Skip(n, always) =>
      if n > 0 || always {
        LoggedInPlace(log.events, Gap(log.cur, n));
      }
    case Bytes(data) => EmitTracked(log, data, None);
    case Field(pre, data, kind) =>
      EmitBytesTracked(log, pre);
      EmitTracked(EmitBytes(log, pre), data, Some(Filling(kind, |pre|)));
    case Const(size, value, form) => LoggedInPlace(log.events, ConstAt(log.cur, Loc(log, log.cur), size, value, form));
    case Patch(offset, size, value, immediate) =>
      LoggedInPlace(log.events, PatchAt(log.cur, offset, size, value, immediate));
    case _ =>
  }

  /** Whatever a program does, its events take up where the ones before them leave off. */
  lemma {:induction false} AssembledTracked(ops: seq<Op>, absolute: set<nat>)
    requires Assembled(ops, absolute).Some?
    ensures Tracked(Assembled(ops, absolute).value)
  {
    hide Proper, Output.Apply;
    if ops == [] {
      WhereAppend([], Switch(0, 0, false));
      assert Output.Start.events == [] + [Switch(0, 0, false)];
    } else {
      hide Tracked;
      AssembledTracked(ops[..|ops| - 1], absolute);
      OpTracked(Assembled(ops[..|ops| - 1], absolute).value, absolute, ops[|ops| - 1]);
    }
  }
}
