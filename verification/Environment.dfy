/**
 A process's ASTs and change-mode calls, its processor and memory changed in place as ast.go and cmode.go change them.
 */
module ProcessEnvironment {
  import opened Words
  import opened Processor
  import opened Asts
  import opened Interrupts

  class Environment {
    var r0: word
    var r1: word
    var fp: word
    var sp: word
    var pc: word
    var pr: array<word>
    var psl: word
    var mem: Memory

    var queue: seq<Request>
    var enabled: array<bool>
    var active: array<bool>
    var frame: array<word>
    var calls: seq<ModeCall>

    ghost predicate Valid()
      reads this
    {
      && pr.Length == 4 && enabled.Length == 4 && active.Length == 4 && frame.Length == 4 && pr != frame
      && enabled != active
    }

    ghost function CpuState(): (c: Cpu)
      reads this, pr
      requires Valid()
      ensures CpuValid(c)
    {
      Cpu(r0, r1, fp, sp, pc, pr[..], psl, mem)
    }

    ghost function AstsState(): (a: AstState)
      reads this, enabled, active, frame
      requires Valid()
      ensures AstValid(a)
    {
      AstState(queue, enabled[..], active[..], frame[..])
    }

    ghost function State(): (m: Machine)
      reads this, pr, enabled, active, frame
      requires Valid()
      ensures MachineValid(m)
    {
      Machine(CpuState(), AstsState(), calls)
    }

    /** newASTState: nothing queued or running, and ASTs enabled in every mode. */
    constructor (c: Cpu)
      requires CpuValid(c)
      ensures Valid() && fresh(pr) && fresh(enabled) && fresh(active) && fresh(frame)
      ensures State() == Machine(c, AstState([], [true, true, true, true], [false, false, false, false], [0, 0, 0, 0]),
                [])
    {
      r0, r1, fp, sp, pc, psl, mem := c.r0, c.r1, c.fp, c.sp, c.pc, c.psl, c.mem;
      pr := new word[4](i requires 0 <= i < 4 => c.pr[i]);
      enabled := new bool[4](i => true);
      active := new bool[4](i => false);
      frame := new word[4](i => 0);
      queue, calls := [], [];
      new;
      assert pr[..] == c.pr;
    }

    /** switchMode. */
    method SwitchTo(from: mode, to: mode)
      requires Valid()
      modifies this`sp, this`psl, pr
      ensures Valid() && CpuState() == SwitchMode(old(CpuState()), from, to)
    {
      hide SetCurMod;
      pr[from] := sp;
      sp := pr[to];
      psl := SetCurMod(psl, to);
    }

    /** enterASTMode; fault is the store of the frame that faults, if one does. */
    method EnterAstMode(m: mode, param: word, fault: nat) returns (ok: bool)
      requires Valid()
      modifies this`sp, this`psl, this`mem, pr
      ensures Valid() && Entry(ok, CpuState()) == EnterAst(old(CpuState()), m, param, fault)
    {
      hide CurMod, PrvMod, SetCurMod, SetPrvMod, StoreLongword;
      var was, wasSp := psl, sp;
      ghost var c := CpuState();
      var words := [ArgCount, param, r0, r1, pc, was];
      if m != CurMod(was) {
        SwitchTo(CurMod(was), m);
        psl := SetPrvMod(psl, CurMod(was));
      }
      assert CpuState() == Entered(c, m);
      ghost var e := CpuState();
      var at := Wrap(sp - FrameSize);
      for i := 0 to 6
        invariant i <= fault && CpuState() == e.(mem := Push(e.mem, at, words, i))
      {
        if i == fault {
          if m != CurMod(was) {
            SwitchTo(m, CurMod(was));
          }
          psl, sp := was, wasSp;
          return false;
        }
        mem := StoreLongword(mem, Wrap(at + 4 * i), words[i]);
      }
      sp := at;
      ok := true;
    }

    /** deliverableAST. */
    method FindAst() returns (c: Choice)
      requires Valid()
      ensures c == Deliverable(AstsState(), psl)
    {
      hide CurMod, IPL, IS;
      if IPL(psl) >= DeliveryIPL || IS(psl) {
        return NoneDue;
      }
      for m := 0 to CurMod(psl) + 1
        invariant Scan(AstsState(), 0, CurMod(psl)) == Scan(AstsState(), m, CurMod(psl))
      {
        if !enabled[m] {
          return NoneDue;
        }
        if !active[m] {
          var n := 0;
          while n < |queue| && queue[n].amode != m
            invariant n <= |queue| && FirstOf(queue, m, 0) == FirstOf(queue, m, n)
          {
            n := n + 1;
          }
          if n < |queue| {
            return Due(m, n);
          }
        }
      }
      c := NoneDue;
    }

    /** NextAST, past its timers. */
    method NextDue(stub: bool, fault: nat) returns (a: Answer)
      requires Valid()
      modifies this, pr, active, frame
      ensures Valid() && pr == old(pr) && enabled == old(enabled) && active == old(active) && frame == old(frame)
      ensures (a, State()) == NextAst(old(State()), stub, fault)
    {
      hide Deliverable, EnterAst;
      if queue == [] {
        return Nothing;
      }
      var c := FindAst();
      if c.NoneDue? {
        return Nothing;
      }
      if !stub {
        return NoStub;
      }
      DeliverableIs(AstsState(), psl);
      var r := queue[c.index];
      var ok := EnterAstMode(c.amode, r.param, fault);
      if !ok {
        return CannotPush;
      }
      queue := queue[..c.index] + queue[c.index + 1..];
      active[c.amode] := true;
      frame[c.amode] := sp;
      a := Deliver(r.routine, sp);
    }

    /** The delivery's half of the engine's deliverAST. */
    method DeliverDue(stub: bool, fault: nat) returns (a: Answer)
      requires Valid()
      modifies this, pr, active, frame
      ensures Valid() && pr == old(pr) && enabled == old(enabled) && active == old(active) && frame == old(frame)
      ensures (a, State()) == DeliverAst(old(State()), stub, fault)
    {
      hide NextAst, Untraced;
      a := NextDue(stub, fault);
      if a.Deliver? {
        psl := Untraced(psl);
      }
    }

    /** The six longwords of a frame. */
    method LoadFrame(at: word) returns (f: seq<word>)
      ensures f == FrameAt(mem, at)
    {
      hide LoadLongword, FrameAt;
      f := [];
      for i := 0 to 6
        invariant |f| == i && forall k :: 0 <= k < i ==> f[k] == LoadLongword(mem, Wrap(at + 4 * k))
      {
        f := f + [LoadLongword(mem, Wrap(at + 4 * i))];
      }
      LoadedFrame(mem, at, f);
    }

    /** R0, R1, PC and PSL put back from a frame, the frame removed, and the interrupted mode switched back to. */
    method RestoreFrom(f: seq<word>, cur: mode)
      requires Valid() && |f| == 6 && cur == CurMod(psl)
      modifies this`r0, this`r1, this`pc, this`sp, this`psl, pr
      ensures Valid()
      ensures var c := old(CpuState());
              var back := if CurMod(f[5]) > cur then CurMod(f[5]) else cur;
              var popped := c.(r1 := f[3], pc := f[4], sp := Wrap(c.sp + FrameSize));
              var switched := if back != cur then SwitchMode(popped, cur, back) else popped;
              CpuState() == switched.(r0 := f[2], psl := SetIS(SetCurMod(f[5], back), IS(c.psl)))
    {
      hide CurMod, IS, SetCurMod, SetIS;
      var stacked := IS(psl);
      var back := if CurMod(f[5]) > cur then CurMod(f[5]) else cur;
      r1, pc, sp := f[3], f[4], Wrap(sp + FrameSize);
      if back != cur {
        SwitchTo(cur, back);
      }
      psl := SetIS(SetCurMod(f[5], back), stacked);
      r0 := f[2];
    }

    /** serviceSysClrast, and R0 as its caller leaves it. */
    method ClearAst(readable: bool)
      requires Valid()
      modifies this`r0, this`r1, this`pc, this`sp, this`psl, pr, active
      ensures Valid() && State() == Clrast(old(State()), readable)
    {
      hide CurMod, IS, SetCurMod, SetIS, FrameAt, SwitchMode;
      var cur := CurMod(psl);
      ghost var was := active[..];
      if !active[cur] || sp != frame[cur] || !readable {
        r0 := Normal;
        return;
      }
      var f := LoadFrame(sp);
      if f[0] != ArgCount {
        r0 := Normal;
        return;
      }
      RestoreFrom(f, cur);
      active[cur] := false;
      assert active[..] == was[cur := false];
    }

    /** changeMode. */
    method Change(asked: mode, privileged: bool) returns (a: ModeAnswer)
      requires Valid()
      modifies this`sp, this`psl, this`calls, pr
      ensures Valid() && (a, State()) == ChangeMode(old(State()), asked, privileged)
    {
      hide CurMod, PrvMod, SetCurMod, SetPrvMod;
      if |calls| > 0 {
        var call := calls[|calls| - 1];
        if call.fp == fp && call.sp == sp && call.target == CurMod(psl) {
          calls := calls[..|calls| - 1];
          if call.caller != call.target {
            SwitchTo(call.target, call.caller);
          }
          psl := SetPrvMod(psl, call.callerPrv);
          return Returned(r0);
        }
      }
      var cur, prv := CurMod(psl), PrvMod(psl);
      if cur > Executive && !privileged {
        return NoPrivilege;
      }
      var target := if asked < cur then asked else cur;
      if target != cur {
        SwitchTo(cur, target);
        psl := SetPrvMod(psl, cur);
      }
      calls := calls + [ModeCall(fp, sp, cur, prv, target)];
      a := Calls;
    }

    /** queueAST. */
    method Enqueue(r: Request)
      requires Valid()
      modifies this`queue
      ensures Valid() && State() == Queued(old(State()), r)
    {
      queue := queue + [r];
    }

    /** serviceSysSetast; whether ASTs were enabled before. */
    method Enable(on: bool) returns (was: bool)
      requires Valid()
      modifies enabled
      ensures Valid() && was == old(enabled[CurMod(psl)]) && State() == SetAst(old(State()), on)
    {
      hide CurMod;
      was := enabled[CurMod(psl)];
      enabled[CurMod(psl)] := on;
    }

    /** Anything else the running routine does: the state it leaves. */
    method Become(after: Machine)
      requires Valid() && MachineValid(after)
      modifies this, pr, enabled, active, frame
      ensures Kept(old(pr), old(enabled), old(active), old(frame)) && State() == after
    {
      SetCpu(after.cpu);
      SetAsts(after.ast);
      calls := after.calls;
    }

    /** The arrays are still those. */
    ghost predicate Kept(p: array<word>, e: array<bool>, a: array<bool>, f: array<word>)
      reads this
    {
      Valid() && pr == p && enabled == e && active == a && frame == f
    }

    method SetCpu(c: Cpu)
      requires Valid() && CpuValid(c)
      modifies this`r0, this`r1, this`fp, this`sp, this`pc, this`psl, this`mem, pr
      ensures Valid() && CpuState() == c
    {
      r0, r1, fp, sp, pc, psl, mem := c.r0, c.r1, c.fp, c.sp, c.pc, c.psl, c.mem;
      Fill(pr, c.pr);
    }

    method SetAsts(a: AstState)
      requires Valid() && AstValid(a)
      modifies this`queue, enabled, active, frame
      ensures Valid() && AstsState() == a
    {
      queue := a.queue;
      Fill(enabled, a.enabled);
      Fill(active, a.active);
      Fill(frame, a.frame);
    }

    /** One event of a run; the stack of contexts is the run's, not the process's. */
    method Happen(e: Event, ghost stack: seq<Context>)
      requires Valid() && EventsValid([e])
      modifies this, pr, enabled, active, frame
      ensures Kept(old(pr), old(enabled), old(active), old(frame))
      ensures e.Step? ==> MachineValid(e.after)
      ensures State() == Next(World(old(State()), stack), e).m
    {
      hide DeliverAst, Clrast, ChangeMode, Returns, SavedOf;
      assert e == [e][0];
      match e
      case Delivery(stub, fault) => var a := DeliverDue(stub, fault);
      case Exit(readable) => ClearAst(readable);
      case ModeCalled(asked, privileged) => var a := Change(asked, privileged);
      case ModeReturned(asked) => var a := Change(asked, true);
      case Step(after) => Become(after);
    }

    /** A run, event after event. */
    method RunEvents(es: seq<Event>, ghost stack: seq<Context>)
      requires Valid() && EventsValid(es)
      modifies this, pr, enabled, active, frame
      ensures Kept(old(pr), old(enabled), old(active), old(frame))
      ensures State() == Run(World(old(State()), stack), es).m
    {
      hide Next;
      ghost var w := World(State(), stack);
      assert es[..0] == [];
      for i := 0 to |es|
        invariant Kept(old(pr), old(enabled), old(active), old(frame)) && State() == Run(w, es[..i]).m
      {
        assert es[..i + 1][..i] == es[..i];
        Happen(es[i], Run(w, es[..i]).stack);
      }
      assert es[..|es|] == es;
    }

    /**
     * An AST delivered, whatever its routine's run interrupts it with, and its exit: what it interrupted goes on as it
     * was.
     */
    method Interrupt(stub: bool, fault: nat, es: seq<Event>, readable: bool, ghost w: World)
      requires Valid() && w.m == State() && Inv(w) && RoomFor(w) && DeliverAst(w.m, stub, fault).0.Deliver?
      requires var v := Next(w, Delivery(stub, fault));
               EventsValid(es) && Interrupts.Nested(v, es, |w.stack| + 1) && |Run(v, es).stack| == |w.stack| + 1
               && Returns(Run(v, es).m, readable)
      modifies this, pr, enabled, active, frame
      ensures Valid() && SavedOf(CpuState()) == old(SavedOf(CpuState()))
    {
      hide DeliverAst, Clrast, Returns, SavedOf, Interrupts.Nested, Run, Inv, RoomFor;
      Transparent(w, stub, fault, es, readable);
      var a := DeliverDue(stub, fault);
      RunEvents(es, Next(w, Delivery(stub, fault)).stack);
      ClearAst(readable);
    }
  }

  method Fill<T>(a: array<T>, from: seq<T>)
    requires a.Length == |from|
    modifies a
    ensures a[..] == from
  {
    for i := 0 to |from|
      invariant a[..i] == from[..i]
    {
      a[i] := from[i];
    }
  }

  lemma LoadedFrame(mem: Memory, sp: word, f: seq<word>)
    requires |f| == 6 && forall k :: 0 <= k < 6 ==> f[k] == LoadLongword(mem, Wrap(sp + 4 * k))
    ensures f == FrameAt(mem, sp)
  {
    hide LoadLongword;
    assert Wrap(sp + 4 * 0) == sp;
    assert f[1] == LoadLongword(mem, Wrap(sp + 4 * 1)) && f[2] == LoadLongword(mem, Wrap(sp + 4 * 2));
    assert f[3] == LoadLongword(mem, Wrap(sp + 4 * 3)) && f[4] == LoadLongword(mem, Wrap(sp + 4 * 4));
    assert f[5] == LoadLongword(mem, Wrap(sp + 4 * 5));
  }
}
