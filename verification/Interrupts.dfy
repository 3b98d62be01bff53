/** Runs of AST deliveries and exits, and of change-mode calls and returns, nested in one another. */
module Interrupts {
  import opened Words
  import opened Processor
  import opened Asts

  // ---- What is interrupted ----

  /** What an interrupt must put back: R0, R1, PC, the status longword, and every mode's stack pointer. */
  datatype Saved = Saved(r0: word, r1: word, pc: word, psl: word, sps: seq<word>)

  function SavedOf(c: Cpu): Saved
    requires CpuValid(c)
  {
    Saved(c.r0, c.r1, c.pc, c.psl, StackPointers(c))
  }

  /** A routine begun and not yet returned from: an AST's, or a change-mode call's. */
  datatype Context = InAst(amode: mode, at: word, saved: Saved) | InCall(call: ModeCall, saved: Saved)

  /** The mode its routine runs in. */
  function RunMode(c: Context): mode {
    if c.InAst? then c.amode else c.call.target
  }

  /** Every mode's stack pointer when its routine began. */
  function EntryStacks(c: Context): seq<word>
    requires |c.saved.sps| == 4
  {
    if c.InAst? then c.saved.sps[c.amode := c.at] else c.saved.sps
  }

  datatype World = World(m: Machine, stack: seq<Context>)

  function Top(w: World): Context
    requires w.stack != []
  {
    w.stack[|w.stack| - 1]
  }

  // ---- Runs ----

  /** A delivery, an exit, a change-mode call or return, or anything else the running routine does. */
  datatype Event =
    | Delivery(stub: bool, fault: nat)
    | Exit(readable: bool)
    | ModeCalled(asked: mode, privileged: bool)
    | ModeReturned(asked: mode)
    | Step(after: Machine)

  function Next(w: World, e: Event): (r: World)
    requires MachineValid(w.m) && (e.Step? ==> MachineValid(e.after))
    ensures MachineValid(r.m)
  {
    match e
    case Delivery(stub, fault) =>
      var r := DeliverAst(w.m, stub, fault);
      World(r.1,
            if r.0.Deliver? then w.stack + [InAst(CurMod(r.1.cpu.psl), r.0.argList, SavedOf(w.m.cpu))] else w.stack)
    case Exit(readable) =>
      World(Clrast(w.m, readable),
            if Returns(w.m, readable) && w.stack != [] then w.stack[..|w.stack| - 1] else w.stack)
    case ModeCalled(asked, privileged) =>
      var r := ChangeMode(w.m, asked, privileged);
      World(r.1, if r.0.Calls? then w.stack + [InCall(r.1.calls[|r.1.calls| - 1], SavedOf(w.m.cpu))] else w.stack)
    case ModeReturned(asked) =>
      World(ChangeMode(w.m, asked, true).1, if w.stack != [] then w.stack[..|w.stack| - 1] else w.stack)
    case Step(after) => World(after, w.stack)
  }

  predicate Apart(a: word, b: word) {
    Past(a, b) >= FrameSize && Past(b, a) >= FrameSize
  }

  /** The frame of the AST due would be clear of every frame on the stacks. */
  predicate RoomFor(w: World)
    requires MachineValid(w.m)
  {
    var d := Deliverable(w.m.ast, w.m.cpu.psl);
    d.Due? ==> forall i :: 0 <= i < |w.stack| && w.stack[i].InAst? ==>
                 Apart(w.stack[i].at, Wrap(StackPointer(w.m.cpu, d.amode) - FrameSize))
  }

  /** A routine leaves alone its mode, the other modes' stack pointers, the frames on the stacks, and what runs. */
  ghost predicate LeavesAlone(w: World, after: Machine)
    requires MachineValid(w.m) && MachineValid(after)
  {
    && CurMod(after.cpu.psl) == CurMod(w.m.cpu.psl) && IS(after.cpu.psl) == IS(w.m.cpu.psl)
    && after.cpu.pr == w.m.cpu.pr
    && after.ast.active == w.m.ast.active && after.ast.frame == w.m.ast.frame && after.calls == w.m.calls
    && forall i :: 0 <= i < |w.stack| && w.stack[i].InAst? ==>
         SameAt(w.m.cpu.mem, after.cpu.mem, w.stack[i].at, FrameSize)
  }

  /**
   * The conditions on a run: routines nest properly, stub frames are distinct, and routines leave frames and other
   * stacks alone.
   */
  ghost predicate Allowed(w: World, e: Event)
    requires MachineValid(w.m)
  {
    match e
    case Delivery(stub, fault) => RoomFor(w)
    case Exit(readable) => Returns(w.m, readable) ==> w.stack != [] && Top(w).InAst?
    case ModeCalled(asked, privileged) => !Matches(w.m)
    case ModeReturned(asked) => Matches(w.m) && w.stack != [] && Top(w).InCall?
    case Step(after) => MachineValid(after) && LeavesAlone(w, after)
  }

  // ---- The invariant ----

  /**
   * s could be interrupted from while c's routine runs: its mode, and the other modes' stack pointers where they were.
   */
  predicate Under(c: Context, s: Saved) {
    && |c.saved.sps| == 4 && |s.sps| == 4
    && CurMod(s.psl) == RunMode(c) && IS(s.psl) == IS(c.saved.psl)
    && forall x: mode :: x != RunMode(c) ==> s.sps[x] == EntryStacks(c)[x]
  }

  predicate ContextValid(c: Context) {
    && |c.saved.sps| == 4
    && match c
       case InAst(m, at, s) => at == Wrap(s.sps[m] - FrameSize) && m <= CurMod(s.psl) && !IS(s.psl)
       case InCall(call, s) =>
         call.caller == CurMod(s.psl) && call.callerPrv == PrvMod(s.psl) && call.target <= call.caller
         && call.sp == s.sps[call.target]
  }

  predicate Linked(stack: seq<Context>) {
    && (forall i :: 0 <= i < |stack| ==> ContextValid(stack[i]))
    && forall i :: 0 < i < |stack| ==> Under(stack[i - 1], stack[i].saved)
  }

  /** The frame in memory still holds what was saved. */
  predicate Holds(mem: Memory, c: Context) {
    c.InAst? ==>
      var f := FrameAt(mem, c.at);
      f[0] == ArgCount && f[2] == c.saved.r0 && f[3] == c.saved.r1 && f[4] == c.saved.pc && f[5] == c.saved.psl
  }

  /** An AST of mode x is on the stack. */
  predicate HasAst(stack: seq<Context>, x: mode) {
    exists i :: 0 <= i < |stack| && stack[i].InAst? && stack[i].amode == x
  }

  /** Exactly the modes with an AST on the stack are active, each in a more privileged mode than the one before. */
  predicate ActiveIs(a: AstState, stack: seq<Context>)
    requires AstValid(a)
  {
    && (forall i :: 0 <= i < |stack| && stack[i].InAst? ==>
         a.active[stack[i].amode] && a.frame[stack[i].amode] == stack[i].at)
    && (forall x: mode :: a.active[x] ==> HasAst(stack, x))
    && forall i, j :: 0 <= i < j < |stack| && stack[i].InAst? && stack[j].InAst? ==> stack[j].amode < stack[i].amode
  }

  function CallsOf(stack: seq<Context>): seq<ModeCall> {
    if stack == [] then []
    else
      var c := stack[|stack| - 1];
      if c.InCall? then CallsOf(stack[..|stack| - 1]) + [c.call] else CallsOf(stack[..|stack| - 1])
  }

  ghost predicate Inv(w: World) {
    && MachineValid(w.m) && Linked(w.stack) && (w.stack != [] ==> Under(Top(w), SavedOf(w.m.cpu)))
    && (forall i :: 0 <= i < |w.stack| ==> Holds(w.m.cpu.mem, w.stack[i]))
    && ActiveIs(w.m.ast, w.stack) && w.m.calls == CallsOf(w.stack)
  }

  // ---- Pushing and popping contexts ----

  lemma {:induction false} ModesFall(stack: seq<Context>, i: nat, j: nat)
    requires Linked(stack) && i <= j < |stack|
    ensures RunMode(stack[j]) <= RunMode(stack[i])
    decreases j
  {
    if i < j {
      ModesFall(stack, i, j - 1);
      assert Under(stack[j - 1], stack[j].saved) && ContextValid(stack[j]);
    }
  }

  lemma LinkedPush(stack: seq<Context>, c: Context)
    requires Linked(stack) && ContextValid(c) && (stack != [] ==> Under(stack[|stack| - 1], c.saved))
    ensures Linked(stack + [c])
  {
    hide Under, ContextValid;
  }

  lemma LinkedPop(stack: seq<Context>)
    requires Linked(stack) && stack != []
    ensures Linked(stack[..|stack| - 1])
  {
    hide Under, ContextValid;
  }

  lemma CallsPush(stack: seq<Context>, c: Context)
    ensures CallsOf(stack + [c]) == if c.InCall? then CallsOf(stack) + [c.call] else CallsOf(stack)
  {
    assert (stack + [c])[..|stack|] == stack;
  }

  // ---- Each event keeps the invariant ----

  /** What a delivery does. */
  lemma DeliveryIs(w: World, stub: bool, fault: nat)
    requires MachineValid(w.m) && DeliverAst(w.m, stub, fault).0.Deliver?
    ensures var d, r := Deliverable(w.m.ast, w.m.cpu.psl), DeliverAst(w.m, stub, fault);
            && d.Due? && MayRun(w.m.ast, w.m.cpu.psl, d.amode)
            && r.0.argList == Wrap(StackPointer(w.m.cpu, d.amode) - FrameSize) == r.1.cpu.sp
            && CurMod(r.1.cpu.psl) == d.amode && IS(r.1.cpu.psl) == IS(w.m.cpu.psl)
            && StackPointers(r.1.cpu) == StackPointers(w.m.cpu)[d.amode := r.0.argList]
            && FrameAt(r.1.cpu.mem, r.0.argList)[2..] == [w.m.cpu.r0, w.m.cpu.r1, w.m.cpu.pc, w.m.cpu.psl]
            && FrameAt(r.1.cpu.mem, r.0.argList)[0] == ArgCount
            && r.1.ast.active == w.m.ast.active[d.amode := true]
            && r.1.ast.frame == w.m.ast.frame[d.amode := r.0.argList]
            && r.1.calls == w.m.calls
            && forall p: word :: Past(p, r.0.argList) >= FrameSize ==> At(r.1.cpu.mem, p) == At(w.m.cpu.mem, p)
  {
    hide CurMod, IS, IPL, PrvMod, Push, FrameAt, Entered, Untraced, Past, Deliverable;
    var c, d := w.m.cpu, Deliverable(w.m.ast, w.m.cpu.psl);
    DeliverableIs(w.m.ast, c.psl);
    var param := w.m.ast.queue[d.index].param;
    EnteredIs(c, d.amode);
    var e := EnterAst(c, d.amode, param, fault).cpu;
    UntracedFields(e.psl);
    FramePushed(c.mem, e.sp, Frame(c, param));
    forall p: word | Past(p, e.sp) >= FrameSize
      ensures At(Push(c.mem, e.sp, Frame(c, param), 6), p) == At(c.mem, p)
    {
      PushElsewhere(c.mem, e.sp, Frame(c, param), 6, p);
    }
  }

  lemma HoldsElsewhere(x: Memory, y: Memory, c: Context, sp: word)
    requires Holds(x, c) && (c.InAst? ==> Apart(c.at, sp))
    requires forall p: word :: Past(p, sp) >= FrameSize ==> At(y, p) == At(x, p)
    ensures Holds(y, c)
  {
    hide FrameAt, At;
    if c.InAst? {
      forall p: word | Past(p, c.at) < FrameSize
        ensures Past(p, sp) >= FrameSize
      {
        ApartBytes(c.at, sp, p);
      }
      FrameSame(x, y, c.at);
    }
  }

  lemma ApartBytes(a: word, b: word, p: word)
    requires Apart(a, b) && Past(p, a) < FrameSize
    ensures Past(p, b) >= FrameSize
  {
    PastChain(p, a, b);
    hide Past;
  }

  /** The AST delivered is in a more privileged mode than every AST running. */
  lemma Outranks(w: World, m: mode)
    requires Inv(w) && MayRun(w.m.ast, w.m.cpu.psl, m)
    ensures forall i :: 0 <= i < |w.stack| && w.stack[i].InAst? ==> m < w.stack[i].amode
  {
    hide CurMod, IS, IPL, Holds, ContextValid;
    forall i | 0 <= i < |w.stack| && w.stack[i].InAst?
      ensures m < w.stack[i].amode
    {
      ModesFall(w.stack, i, |w.stack| - 1);
    }
  }

  lemma ActivePush(a: AstState, stack: seq<Context>, m: mode, at: word, s: Saved, b: AstState)
    requires AstValid(a) && AstValid(b) && ActiveIs(a, stack)
    requires forall i :: 0 <= i < |stack| && stack[i].InAst? ==> m < stack[i].amode
    requires b.active == a.active[m := true] && b.frame == a.frame[m := at]
    ensures ActiveIs(b, stack + [InAst(m, at, s)])
  {
    var r := stack + [InAst(m, at, s)];
    forall x: mode | b.active[x]
      ensures HasAst(r, x)
    {
      if x == m {
        assert r[|stack|].amode == x;
      } else {
        var i :| 0 <= i < |stack| && stack[i].InAst? && stack[i].amode == x;
        assert r[i] == stack[i];
      }
    }
  }

  lemma DeliveryKeeps(w: World, stub: bool, fault: nat)
    requires Inv(w) && RoomFor(w) && DeliverAst(w.m, stub, fault).0.Deliver?
    ensures Inv(Next(w, Delivery(stub, fault)))
  {
    hide CurMod, IS, IPL, FrameAt, Past, Deliverable, DeliverAst, StackPointers, CallsOf, ActiveIs, Apart, PrvMod;
    DeliveryIs(w, stub, fault);
    var d, r := Deliverable(w.m.ast, w.m.cpu.psl), DeliverAst(w.m, stub, fault);
    var c := InAst(d.amode, r.0.argList, SavedOf(w.m.cpu));
    StackPointerOf(w.m.cpu, d.amode);
    Outranks(w, d.amode);
    ActivePush(w.m.ast, w.stack, d.amode, r.0.argList, SavedOf(w.m.cpu), r.1.ast);
    LinkedPush(w.stack, c);
    CallsPush(w.stack, c);
    hide Linked, Under;
    forall i | 0 <= i < |w.stack|
      ensures Holds(r.1.cpu.mem, w.stack[i])
    {
      HoldsElsewhere(w.m.cpu.mem, r.1.cpu.mem, w.stack[i], r.0.argList);
    }
    EntryUnder(c, r.1.cpu, d.amode);
  }

  lemma StackPointerOf(c: Cpu, m: mode)
    requires CpuValid(c)
    ensures StackPointers(c)[m] == StackPointer(c, m)
  {
    hide CurMod;
  }

  lemma EntryUnder(c: Context, cpu: Cpu, m: mode)
    requires CpuValid(cpu) && c.InAst? && c.amode == m && |c.saved.sps| == 4 && CurMod(cpu.psl) == m
    requires IS(cpu.psl) == IS(c.saved.psl)
    requires StackPointers(cpu) == c.saved.sps[m := c.at]
    ensures Under(c, SavedOf(cpu))
  {
    hide CurMod, IS, StackPointers;
  }

  /** A delivery that fails leaves the registers, modes and stacks as they were. */
  lemma NoDelivery(w: World, stub: bool, fault: nat)
    requires MachineValid(w.m) && !DeliverAst(w.m, stub, fault).0.Deliver?
    ensures var r := DeliverAst(w.m, stub, fault).1;
            && SavedOf(r.cpu) == SavedOf(w.m.cpu) && r.cpu.fp == w.m.cpu.fp && r.ast == w.m.ast && r.calls == w.m.calls
            && (r.cpu.mem == w.m.cpu.mem
                || (Deliverable(w.m.ast, w.m.cpu.psl).Due?
                    && forall p: word ::
                         Past(p, Wrap(StackPointer(w.m.cpu, Deliverable(w.m.ast, w.m.cpu.psl).amode) - FrameSize)) >=
                           FrameSize ==>
                           At(r.cpu.mem, p) == At(w.m.cpu.mem, p)))
  {
    hide CurMod, IS, IPL, PrvMod, Push, Entered, Past, Deliverable, EnterAst, StackPointers, StackPointer;
    var d := Deliverable(w.m.ast, w.m.cpu.psl);
    if w.m.ast.queue != [] && d.Due? && stub {
      DeliverableIs(w.m.ast, w.m.cpu.psl);
      var param := w.m.ast.queue[d.index].param;
      FaultOf(w.m.cpu, d.amode, param, fault);
      if fault < 6 {
        FailureRestores(w.m.cpu, d.amode, param, fault);
      }
    }
  }

  lemma FaultOf(c: Cpu, m: mode, param: word, fault: nat)
    requires CpuValid(c)
    ensures EnterAst(c, m, param, fault).ok <==> fault >= 6
  {
    hide Push, Entered, SwitchMode;
  }

  lemma NoDeliveryKeeps(w: World, stub: bool, fault: nat)
    requires Inv(w) && RoomFor(w) && !DeliverAst(w.m, stub, fault).0.Deliver?
    ensures Inv(Next(w, Delivery(stub, fault)))
  {
    hide CurMod, IS, IPL, PrvMod, FrameAt, Past, Deliverable, DeliverAst, StackPointers, StackPointer, CallsOf,
      ActiveIs, Apart, Linked, Under;
    NoDelivery(w, stub, fault);
    var r := DeliverAst(w.m, stub, fault).1;
    var d := Deliverable(w.m.ast, w.m.cpu.psl);
    forall i | 0 <= i < |w.stack|
      ensures Holds(r.cpu.mem, w.stack[i])
    {
      if r.cpu.mem != w.m.cpu.mem {
        HoldsElsewhere(w.m.cpu.mem, r.cpu.mem, w.stack[i], Wrap(StackPointer(w.m.cpu, d.amode) - FrameSize));
      }
    }
  }

  // ---- Exits ----

  /** A nested exit restores everything the delivery saved. */
  lemma ExitRestores(w: World, readable: bool)
    requires Inv(w) && w.stack != [] && Top(w).InAst? && Returns(w.m, readable)
    ensures SavedOf(Clrast(w.m, readable).cpu) == Top(w).saved
  {
    hide CurMod, IS, IPL, PrvMod, SetCurMod, SetIS, FrameAt, CallsOf, ActiveIs, Under;
    var c, cpu := Top(w), w.m.cpu;
    TopRuns(w);
    assert Holds(cpu.mem, c) && ContextValid(c);
    ActiveTop(w);
    assert cpu.sp == c.at;
    SetCurModFields(c.saved.psl, CurMod(c.saved.psl));
    SetISFields(c.saved.psl, IS(c.saved.psl));
    hide Linked, Holds, ContextValid;
    ExitStacks(c, cpu);
  }

  lemma TopRuns(w: World)
    requires Inv(w) && w.stack != []
    ensures CurMod(w.m.cpu.psl) == RunMode(Top(w)) && IS(w.m.cpu.psl) == IS(Top(w).saved.psl) && |Top(w).saved.sps| == 4
    ensures forall x: mode :: x != RunMode(Top(w)) ==> StackPointers(w.m.cpu)[x] == EntryStacks(Top(w))[x]
  {
    hide CurMod, IS, Linked, ActiveIs, Holds, StackPointers, CallsOf;
  }

  lemma ActiveTop(w: World)
    requires Inv(w) && w.stack != [] && Top(w).InAst?
    ensures w.m.ast.active[Top(w).amode] && w.m.ast.frame[Top(w).amode] == Top(w).at
  {
    hide CurMod, IS, Linked, Under, Holds, CallsOf;
  }

  /** Popping the frame and going back to the interrupted mode puts every stack pointer back. */
  lemma ExitStacks(c: Context, cpu: Cpu)
    requires CpuValid(cpu) && c.InAst? && |c.saved.sps| == 4 && CurMod(cpu.psl) == c.amode && cpu.sp == c.at
    requires c.at == Wrap(c.saved.sps[c.amode] - FrameSize) && c.amode <= CurMod(c.saved.psl)
    requires forall x: mode :: x != c.amode ==> StackPointers(cpu)[x] == c.saved.sps[x]
    ensures var back := CurMod(c.saved.psl);
            var popped := cpu.(sp := Wrap(cpu.sp + FrameSize));
            var switched := if back != c.amode then SwitchMode(popped, c.amode, back) else popped;
            StackPointers(switched.(psl := c.saved.psl)) == c.saved.sps
  {
    hide CurMod, SetCurMod;
    WrapSum(c.saved.sps[c.amode] - FrameSize, FrameSize);
    var back := CurMod(c.saved.psl);
    var popped := cpu.(sp := Wrap(cpu.sp + FrameSize));
    var switched := if back != c.amode then SwitchMode(popped, c.amode, back) else popped;
    var r := switched.(psl := c.saved.psl);
    assert popped.sp == c.saved.sps[c.amode];
    forall x: mode
      ensures StackPointer(r, x) == c.saved.sps[x]
    {
      StackPointerOf(cpu, x);
    }
  }

  lemma ActivePop(a: AstState, stack: seq<Context>, b: AstState)
    requires AstValid(a) && AstValid(b) && ActiveIs(a, stack) && stack != [] && stack[|stack| - 1].InAst?
    requires b.active == a.active[stack[|stack| - 1].amode := false] && b.frame == a.frame
    ensures ActiveIs(b, stack[..|stack| - 1])
  {
    var n := |stack| - 1;
    var r := stack[..n];
    forall x: mode | b.active[x]
      ensures HasAst(r, x)
    {
      var i :| 0 <= i < |stack| && stack[i].InAst? && stack[i].amode == x;
      assert r[i] == stack[i];
    }
  }

  lemma ExitKeeps(w: World, readable: bool)
    requires Inv(w) && Allowed(w, Exit(readable))
    ensures Inv(Next(w, Exit(readable)))
  {
    hide CurMod, IS, IPL, PrvMod, SetCurMod, SetIS, FrameAt, CallsOf, ActiveIs, StackPointers, ContextValid, Returns;
    if Returns(w.m, readable) {
      var r := Clrast(w.m, readable);
      ExitRestores(w, readable);
      ExitAst(w.m, readable);
      TopRuns(w);
      ActivePop(w.m.ast, w.stack, r.ast);
      LinkedPop(w.stack);
      CallsPush(w.stack[..|w.stack| - 1], Top(w));
      assert w.stack[..|w.stack| - 1] + [Top(w)] == w.stack;
      hide Under, Holds, Clrast;
      assert |w.stack| > 1 ==> Under(w.stack[|w.stack| - 2], Top(w).saved);
    } else {
      NoExit(w.m, readable);
      hide Linked;
    }
  }

  lemma ExitAst(m: Machine, readable: bool)
    requires MachineValid(m) && Returns(m, readable)
    ensures var r := Clrast(m, readable);
            && r.ast.active == m.ast.active[CurMod(m.cpu.psl) := false] && r.ast.frame == m.ast.frame
            && r.calls == m.calls
            && r.cpu.mem == m.cpu.mem
  {
    hide CurMod, IS, SetCurMod, SetIS, FrameAt;
  }

  lemma NoExit(m: Machine, readable: bool)
    requires MachineValid(m) && !Returns(m, readable)
    ensures Clrast(m, readable) == m.(cpu := m.cpu.(r0 := Normal))
    ensures StackPointers(Clrast(m, readable).cpu) == StackPointers(m.cpu)
  {
    hide CurMod, IS, FrameAt, Returns;
  }

  // ---- Change-mode calls ----

  lemma CallKeeps(w: World, asked: mode, privileged: bool)
    requires Inv(w) && Allowed(w, ModeCalled(asked, privileged))
    ensures Inv(Next(w, ModeCalled(asked, privileged)))
  {
    hide CurMod, IS, IPL, PrvMod, Entered, FrameAt, CallsOf, ActiveIs, StackPointers, StackPointer;
    var r := ChangeMode(w.m, asked, privileged);
    if r.0.Calls? {
      var cur := CurMod(w.m.cpu.psl);
      var target := if asked < cur then asked else cur;
      EnteredIs(w.m.cpu, target);
      StackPointerOf(w.m.cpu, target);
      var c := InCall(r.1.calls[|r.1.calls| - 1], SavedOf(w.m.cpu));
      LinkedPush(w.stack, c);
      CallsPush(w.stack, c);
      ActiveCall(w.m.ast, w.stack, c);
      hide Linked;
      assert Under(c, SavedOf(r.1.cpu));
    }
  }

  lemma ActiveCall(a: AstState, stack: seq<Context>, c: Context)
    requires AstValid(a) && c.InCall?
    ensures ActiveIs(a, stack + [c]) <==> ActiveIs(a, stack)
  {
    var r := stack + [c];
    assert forall i :: 0 <= i < |stack| ==> r[i] == stack[i];
    forall x: mode
      ensures HasAst(r, x) <==> HasAst(stack, x)
    {
      if HasAst(stack, x) {
        var i :| 0 <= i < |stack| && stack[i].InAst? && stack[i].amode == x;
        assert r[i] == stack[i];
      }
    }
    hide HasAst;
    if ActiveIs(a, r) {
      forall i | 0 <= i < |stack| && stack[i].InAst?
        ensures a.active[stack[i].amode] && a.frame[stack[i].amode] == stack[i].at
      {
        assert r[i] == stack[i];
      }
      forall i, j | 0 <= i < j < |stack| && stack[i].InAst? && stack[j].InAst?
        ensures stack[j].amode < stack[i].amode
      {
        assert r[i] == stack[i] && r[j] == stack[j];
      }
    }
  }

  /**
   * A change-mode return puts back the mode, the previous mode, and every stack pointer, and gives the routine's R0.
   */
  lemma ReturnRestores(w: World, asked: mode)
    requires Inv(w) && Allowed(w, ModeReturned(asked))
    ensures var r, s := ChangeMode(w.m, asked, true), Top(w).saved;
            && Top(w).call == w.m.calls[|w.m.calls| - 1] && r.0 == Returned(w.m.cpu.r0)
            && CurMod(r.1.cpu.psl) == CurMod(s.psl) && PrvMod(r.1.cpu.psl) == PrvMod(s.psl)
            && IS(r.1.cpu.psl) == IS(s.psl) && StackPointers(r.1.cpu) == s.sps && |s.sps| == 4
            && r.1.calls == w.m.calls[..|w.m.calls| - 1] && r.1.ast == w.m.ast && r.1.cpu.mem == w.m.cpu.mem
  {
    hide CurMod, IS, IPL, PrvMod, SetCurMod, SetPrvMod, Holds, ActiveIs, Under;
    var c := Top(w);
    TopRuns(w);
    assert ContextValid(c);
    CallsPush(w.stack[..|w.stack| - 1], c);
    assert w.stack[..|w.stack| - 1] + [c] == w.stack;
    hide CallsOf, Linked;
    ReturnStacks(c, w.m.cpu);
    var s := if c.call.caller != c.call.target then SwitchMode(w.m.cpu, c.call.target, c.call.caller) else w.m.cpu;
    SetCurModFields(w.m.cpu.psl, c.call.caller);
    SetPrvModFields(s.psl, c.call.callerPrv);
    SamePointers(s, SetPrvMod(s.psl, c.call.callerPrv));
  }

  lemma SamePointers(c: Cpu, psl: word)
    requires CpuValid(c) && CurMod(psl) == CurMod(c.psl)
    ensures StackPointers(c.(psl := psl)) == StackPointers(c)
  {
    hide CurMod;
  }

  lemma ReturnStacks(c: Context, cpu: Cpu)
    requires CpuValid(cpu) && c.InCall? && ContextValid(c) && CurMod(cpu.psl) == c.call.target && cpu.sp == c.call.sp
    requires forall x: mode :: x != c.call.target ==> StackPointers(cpu)[x] == c.saved.sps[x]
    ensures var s := if c.call.caller != c.call.target then SwitchMode(cpu, c.call.target, c.call.caller) else cpu;
            StackPointers(s) == c.saved.sps && CurMod(s.psl) == c.call.caller
  {
    hide IS, PrvMod, IPL, CurMod, StackPointers;
    StackPointerOf(cpu, c.call.target);
    assert StackPointers(cpu)[c.call.target] == c.saved.sps[c.call.target] by {
      hide SwitchMode;
    }
    assert StackPointers(cpu) == c.saved.sps by {
      assert forall x: mode :: StackPointers(cpu)[x] == c.saved.sps[x];
    }
    if c.call.caller != c.call.target {
      SwitchKeepsStacks(cpu, c.call.caller);
    }
  }

  lemma ReturnKeeps(w: World, asked: mode)
    requires Inv(w) && Allowed(w, ModeReturned(asked))
    ensures Inv(Next(w, ModeReturned(asked)))
  {
    hide CurMod, IS, IPL, PrvMod, CallsOf, ActiveIs, StackPointers, ContextValid, ChangeMode, Holds;
    ReturnRestores(w, asked);
    var front := w.stack[..|w.stack| - 1];
    LinkedPop(w.stack);
    CallsPush(front, Top(w));
    assert front + [Top(w)] == w.stack;
    ActiveCall(w.m.ast, front, Top(w));
    if |w.stack| > 1 {
      assert Under(w.stack[|w.stack| - 2], Top(w).saved);
    }
  }

  // ---- Everything else a routine does ----

  lemma StepKeeps(w: World, after: Machine)
    requires Inv(w) && Allowed(w, Step(after))
    ensures Inv(Next(w, Step(after)))
  {
    hide CurMod, IS, IPL, PrvMod, CallsOf, ContextValid, FrameAt, SameAt, Linked;
    StepActive(w.m.ast, after.ast, w.stack);
    hide ActiveIs;
    forall i | 0 <= i < |w.stack|
      ensures Holds(after.cpu.mem, w.stack[i])
    {
      if w.stack[i].InAst? {
        FrameSame(w.m.cpu.mem, after.cpu.mem, w.stack[i].at);
      }
    }
    if w.stack != [] {
      hide Holds, EntryStacks;
      forall x: mode | x != RunMode(Top(w))
        ensures StackPointers(after.cpu)[x] == EntryStacks(Top(w))[x]
      {
        StackPointerOf(after.cpu, x);
        StackPointerOf(w.m.cpu, x);
      }
      hide StackPointers;
    }
  }

  lemma StepActive(a: AstState, b: AstState, stack: seq<Context>)
    requires AstValid(a) && AstValid(b) && a.active == b.active && a.frame == b.frame && ActiveIs(a, stack)
    ensures ActiveIs(b, stack)
  {
  }

  // ---- The main theorems ----

  /** Every event of a run keeps the invariant. */
  lemma EventKeeps(w: World, e: Event)
    requires Inv(w) && Allowed(w, e)
    ensures Inv(Next(w, e))
  {
    hide Inv, Next, RoomFor, Matches, LeavesAlone, DeliverAst, Returns;
    match e
    case Delivery(stub, fault) =>
      InvValid(w);
      if DeliverAst(w.m, stub, fault).0.Deliver? {
        DeliveryKeeps(w, stub, fault);
      } else {
        NoDeliveryKeeps(w, stub, fault);
      }
    case Exit(readable) => ExitKeeps(w, readable);
    case ModeCalled(asked, privileged) => CallKeeps(w, asked, privileged);
    case ModeReturned(asked) => ReturnKeeps(w, asked);
    case Step(after) => StepKeeps(w, after);
  }

  lemma InvValid(w: World)
    requires Inv(w)
    ensures MachineValid(w.m)
  {
  }

  predicate EventsValid(es: seq<Event>) {
    forall i :: 0 <= i < |es| && es[i].Step? ==> MachineValid(es[i].after)
  }

  function Run(w: World, es: seq<Event>): (r: World)
    requires MachineValid(w.m) && EventsValid(es)
    ensures MachineValid(r.m)
  {
    hide Next;
    if es == [] then w else Next(Run(w, es[..|es| - 1]), es[|es| - 1])
  }

  /** A run meeting the conditions at every event, the stack never below depth. */
  ghost predicate Nested(w: World, es: seq<Event>, depth: nat)
    requires MachineValid(w.m) && EventsValid(es)
  {
    hide Allowed, Run;
    && |Run(w, es).stack| >= depth
    && (es != [] ==>
          var front := es[..|es| - 1];
          Nested(w, front, depth) && Allowed(Run(w, front), es[|es| - 1]))
  }

  /** The invariant holds after every run. */
  lemma {:induction false} RunKeeps(w: World, es: seq<Event>, depth: nat)
    requires Inv(w) && EventsValid(es) && Nested(w, es, depth)
    ensures Inv(Run(w, es))
  {
    hide Inv, Allowed, Next;
    InvValid(w);
    if es != [] {
      RunKeeps(w, es[..|es| - 1], depth);
      EventKeeps(Run(w, es[..|es| - 1]), es[|es| - 1]);
    }
  }

  /** A run that stays above a depth leaves what is below it alone. */
  lemma {:induction false} BelowKept(w: World, es: seq<Event>, depth: nat)
    requires Inv(w) && EventsValid(es) && Nested(w, es, depth) && depth <= |w.stack|
    ensures |Run(w, es).stack| >= depth && Run(w, es).stack[..depth] == w.stack[..depth]
  {
    hide Inv, Allowed, Next;
    InvValid(w);
    if es != [] {
      var front := es[..|es| - 1];
      RunKeeps(w, front, depth);
      BelowKept(w, front, depth);
      StackMoves(Run(w, front), es[|es| - 1], depth);
    }
  }

  /** An event pushes a context, pops one, or leaves the stack alone. */
  lemma StackMoves(w: World, e: Event, depth: nat)
    requires Inv(w) && Allowed(w, e) && MachineValid(w.m) && (e.Step? ==> MachineValid(e.after))
    requires depth <= |w.stack| && depth <= |Next(w, e).stack|
    ensures Next(w, e).stack[..depth] == w.stack[..depth]
  {
    hide Inv, DeliverAst, Clrast, ChangeMode, Returns, SavedOf, RoomFor, Matches, LeavesAlone;
  }

  function AstModes(stack: seq<Context>): seq<mode> {
    if stack == [] then []
    else
      var c := stack[|stack| - 1];
      if c.InAst? then AstModes(stack[..|stack| - 1]) + [c.amode] else AstModes(stack[..|stack| - 1])
  }

  lemma {:induction false} AstModesFall(stack: seq<Context>, ms: seq<mode>)
    requires forall i, j :: 0 <= i < j < |stack| && stack[i].InAst? && stack[j].InAst? ==>
               stack[j].amode < stack[i].amode
    requires ms == AstModes(stack)
    ensures forall i :: 0 <= i < |ms| ==> HasAst(stack, ms[i])
    ensures |ms| <= 4 && forall i :: 0 <= i < |ms| ==> (ms[i] as int) + i <= 3
    ensures forall i, j :: 0 <= i < j < |ms| ==> ms[j] < ms[i]
    decreases |stack|
  {
    if stack != [] {
      var n := |stack| - 1;
      var front, c := stack[..n], stack[n];
      var below := AstModes(front);
      AstModesFall(front, below);
      forall i | 0 <= i < |below|
        ensures HasAst(stack, below[i]) && (c.InAst? ==> c.amode < below[i])
      {
        assert HasAst(front, below[i]);
        var k :| 0 <= k < |front| && front[k].InAst? && front[k].amode == below[i];
        assert stack[k] == front[k];
      }
      assert c.InAst? ==> HasAst(stack, c.amode);
      if below != [] {
        assert (below[|below| - 1] as int) + |below| - 1 <= 3;
      }
      hide HasAst;
    }
  }

  /** The ASTs running at any moment are each in a more privileged mode than the one it interrupted: at most four. */
  lemma AtMostFour(w: World)
    requires Inv(w)
    ensures var ms := AstModes(w.stack);
            |ms| <= 4 && (forall i, j :: 0 <= i < j < |ms| ==> ms[j] < ms[i])
            && forall i :: 0 <= i < |ms| ==> w.m.ast.active[ms[i]]
  {
    hide Linked, Under, Holds, CallsOf, StackPointers, CurMod, IS, AstModes;
    var ms := AstModes(w.stack);
    AstModesFall(w.stack, ms);
    forall i | 0 <= i < |ms|
      ensures w.m.ast.active[ms[i]]
    {
      assert HasAst(w.stack, ms[i]);
    }
  }

  /**
   * An AST is transparent: however deliveries, exits and change-mode calls nest inside it, when it returns R0, R1, PC,
   * the whole status longword and all four stack pointers are what they were when it was delivered, and the same
   * routines run.
   */
  lemma Transparent(w: World, stub: bool, fault: nat, es: seq<Event>, readable: bool)
    requires Inv(w) && MachineValid(w.m) && RoomFor(w) && DeliverAst(w.m, stub, fault).0.Deliver?
    requires var v := Next(w, Delivery(stub, fault));
             EventsValid(es) && Nested(v, es, |w.stack| + 1) && |Run(v, es).stack| == |w.stack| + 1
             && Returns(Run(v, es).m, readable)
    ensures var u := Next(Run(Next(w, Delivery(stub, fault)), es), Exit(readable));
            SavedOf(u.m.cpu) == SavedOf(w.m.cpu) && u.stack == w.stack && Inv(u)
  {
    hide Inv, DeliverAst, Clrast, Returns, RoomFor, Run, Nested, ChangeMode, StackPointers;
    var v := Next(w, Delivery(stub, fault));
    DeliveryKeeps(w, stub, fault);
    RunKeeps(v, es, |w.stack| + 1);
    BelowKept(v, es, |w.stack| + 1);
    var t := Run(v, es);
    assert t.stack == v.stack;
    ExitRestores(t, readable);
    ExitKeeps(t, readable);
  }

  /**
   * And so is a change-mode call: its return puts back the caller's mode, its previous mode and every stack pointer.
   */
  lemma Balanced(w: World, asked: mode, privileged: bool, es: seq<Event>, again: mode)
    requires Inv(w) && MachineValid(w.m) && !Matches(w.m) && ChangeMode(w.m, asked, privileged).0.Calls?
    requires var v := Next(w, ModeCalled(asked, privileged));
             EventsValid(es) && Nested(v, es, |w.stack| + 1) && |Run(v, es).stack| == |w.stack| + 1
             && Allowed(Run(v, es), ModeReturned(again))
    ensures var t := Run(Next(w, ModeCalled(asked, privileged)), es);
            var u := Next(t, ModeReturned(again));
            && CurMod(t.m.cpu.psl) <= CurMod(w.m.cpu.psl)
            && CurMod(u.m.cpu.psl) == CurMod(w.m.cpu.psl) && PrvMod(u.m.cpu.psl) == PrvMod(w.m.cpu.psl)
            && StackPointers(u.m.cpu) == StackPointers(w.m.cpu) && u.m.cpu.r0 == t.m.cpu.r0
            && u.m.calls == w.m.calls && u.stack == w.stack && Inv(u)
  {
    hide Inv, Allowed, Next, Run, Nested, StackPointers, CurMod, PrvMod, ChangeMode, Matches;
    var v := Next(w, ModeCalled(asked, privileged));
    CallAllowed(w, asked, privileged);
    CallKeeps(w, asked, privileged);
    CallPushes(w, asked, privileged);
    RunKeeps(v, es, |w.stack| + 1);
    BelowKept(v, es, |w.stack| + 1);
    var t := Run(v, es);
    assert t.stack == v.stack;
    Unwound(w, t, again);
  }

  lemma CallAllowed(w: World, asked: mode, privileged: bool)
    requires MachineValid(w.m) && !Matches(w.m)
    ensures Allowed(w, ModeCalled(asked, privileged))
  {
  }

  lemma CallPushes(w: World, asked: mode, privileged: bool)
    requires MachineValid(w.m) && !Matches(w.m) && ChangeMode(w.m, asked, privileged).0.Calls?
    ensures var v := Next(w, ModeCalled(asked, privileged));
            |v.stack| == |w.stack| + 1 && v.stack[..|w.stack|] == w.stack && Top(v).InCall?
            && Top(v).saved == SavedOf(w.m.cpu)
  {
    hide SavedOf, Entered, CurMod, PrvMod;
  }

  /** Returning from the call on top of w's stack. */
  lemma Unwound(w: World, t: World, again: mode)
    requires Inv(w) && Inv(t) && MachineValid(w.m) && MachineValid(t.m) && Allowed(t, ModeReturned(again))
    requires t.stack != [] && t.stack[..|t.stack| - 1] == w.stack && Top(t).saved == SavedOf(w.m.cpu)
    ensures var u := Next(t, ModeReturned(again));
            && CurMod(t.m.cpu.psl) <= CurMod(w.m.cpu.psl)
            && CurMod(u.m.cpu.psl) == CurMod(w.m.cpu.psl) && PrvMod(u.m.cpu.psl) == PrvMod(w.m.cpu.psl)
            && StackPointers(u.m.cpu) == StackPointers(w.m.cpu) && u.m.cpu.r0 == t.m.cpu.r0
            && u.m.calls == w.m.calls && u.stack == w.stack && Inv(u)
  {
    hide Inv, StackPointers, CurMod, PrvMod, IS, CallsOf;
    TopRuns(t);
    InvCalls(w);
    InvCalls(t);
    InvContext(t);
    CallsPush(w.stack, Top(t));
    assert w.stack + [Top(t)] == t.stack;
    ReturnRestores(t, again);
    ReturnKeeps(t, again);
    ReturnedR0(t, again);
    hide ChangeMode;
  }

  lemma ReturnedR0(t: World, again: mode)
    requires MachineValid(t.m) && Matches(t.m)
    ensures ChangeMode(t.m, again, true).1.cpu.r0 == t.m.cpu.r0
  {
    hide CurMod, PrvMod, SetCurMod, SetPrvMod;
  }

  lemma InvCalls(w: World)
    requires Inv(w)
    ensures w.m.calls == CallsOf(w.stack)
  {
  }

  lemma InvContext(w: World)
    requires Inv(w) && w.stack != []
    ensures ContextValid(Top(w))
  {
  }

  // ---- Where runs start, and that they can nest ----

  /** With no AST running and no change-mode call open, nothing is interrupted. */
  lemma Idle(m: Machine)
    requires MachineValid(m) && m.calls == [] && forall x: mode :: !m.ast.active[x]
    ensures Inv(World(m, []))
  {
  }

  /** An AST whose routine returns at once finds its frame, so every delivery can be exited from. */
  lemma ExitsAtOnce(w: World, stub: bool, fault: nat)
    requires MachineValid(w.m) && DeliverAst(w.m, stub, fault).0.Deliver?
    ensures Returns(Next(w, Delivery(stub, fault)).m, true)
  {
    hide CurMod, IS, IPL, FrameAt, Past, Deliverable, DeliverAst, StackPointers;
    DeliveryIs(w, stub, fault);
  }

  /** And a change-mode call whose routine returns at once is the one that returns. */
  lemma CallReturnsAtOnce(w: World, asked: mode, privileged: bool)
    requires MachineValid(w.m) && !Matches(w.m) && ChangeMode(w.m, asked, privileged).0.Calls?
    ensures Matches(Next(w, ModeCalled(asked, privileged)).m)
  {
    hide PrvMod, SetPrvMod, SetCurMod, CurMod;
    CallTarget(w.m, asked, privileged);
  }

  lemma CallTarget(m: Machine, asked: mode, privileged: bool)
    requires MachineValid(m) && !Matches(m) && ChangeMode(m, asked, privileged).0.Calls?
    ensures var r := ChangeMode(m, asked, privileged).1;
            r.calls != [] && CurMod(r.cpu.psl) == r.calls[|r.calls| - 1].target
  {
    hide CurMod, PrvMod, Entered, Matches;
    var cur := CurMod(m.cpu.psl);
    EnteredIs(m.cpu, if asked < cur then asked else cur);
  }
}
