/** Asynchronous system traps: which is delivered, how it is entered, and how it returns (corevms/ast.go). */
module Asts {
  import opened Words
  import opened Processor

  /** A queued AST. */
  datatype Request = Request(routine: word, param: word, amode: mode)

  /** A process's ASTs: those queued, oldest first, and by mode whether enabled, whether one runs, and its frame. */
  datatype AstState = AstState(queue: seq<Request>, enabled: seq<bool>, active: seq<bool>, frame: seq<word>)

  predicate AstValid(a: AstState) {
    |a.enabled| == 4 && |a.active| == 4 && |a.frame| == 4
  }

  const DeliveryIPL: nat := 2
  const ArgCount: word := 5
  const FrameSize: nat := 24
  const Normal: word := 1

  // ---- Which AST (deliverableAST) ----

  datatype Choice = NoneDue | Due(amode: mode, index: nat)

  /** The oldest queued AST of a mode, from the i-th on; the queue's length if there is none. */
  function FirstOf(queue: seq<Request>, m: mode, i: nat): (n: nat)
    requires i <= |queue|
    ensures i <= n <= |queue| && (n < |queue| ==> queue[n].amode == m)
    ensures forall k :: i <= k < n ==> queue[k].amode != m
    decreases |queue| - i
  {
    if i == |queue| || queue[i].amode == m then i else FirstOf(queue, m, i + 1)
  }

  function Scan(a: AstState, m: nat, cur: mode): Choice
    requires AstValid(a) && m <= 4
    decreases 4 - m
  {
    if m > cur || !a.enabled[m] then NoneDue
    else if !a.active[m] && FirstOf(a.queue, m, 0) < |a.queue| then Due(m, FirstOf(a.queue, m, 0))
    else Scan(a, m + 1, cur)
  }

  function Deliverable(a: AstState, psl: word): Choice
    requires AstValid(a)
  {
    if IPL(psl) >= DeliveryIPL || IS(psl) then NoneDue else Scan(a, 0, CurMod(psl))
  }

  /**
   * An AST of mode m may run: the processor is not protected, nor in a more privileged mode; none of m's runs, and ASTs
   * are enabled.
   */
  predicate MayRun(a: AstState, psl: word, m: mode)
    requires AstValid(a)
  {
    IPL(psl) < DeliveryIPL && !IS(psl) && m <= CurMod(psl) && !a.active[m] && forall k :: 0 <= k <= m ==> a.enabled[k]
  }

  lemma {:induction false} ScanIs(a: AstState, m: nat, cur: mode)
    requires AstValid(a) && m <= 4 && forall k :: 0 <= k < m && k <= cur ==> a.enabled[k]
    ensures var d := Scan(a, m, cur);
            && (d.Due? ==>
                 m <= d.amode <= cur && !a.active[d.amode] && d.index == FirstOf(a.queue, d.amode, 0) < |a.queue|
                           && forall k :: 0 <= k <= d.amode ==> a.enabled[k])
            && forall n :: 0 <= n < |a.queue| && m <= a.queue[n].amode <= cur && !a.active[a.queue[n].amode]
                           && (forall k :: 0 <= k <= a.queue[n].amode ==> a.enabled[k]) ==>
                 d.Due? && d.amode <= a.queue[n].amode
    decreases 4 - m
  {
    if m <= cur && a.enabled[m] {
      ScanIs(a, m + 1, cur);
    }
  }

  /**
   * The AST due is one that may run, the most privileged mode's first and the oldest of its mode; none is due only when
   * none may run.
   */
  lemma DeliverableIs(a: AstState, psl: word)
    requires AstValid(a)
    ensures var d := Deliverable(a, psl);
            && (d.Due? ==>
                  && d.index < |a.queue| && a.queue[d.index].amode == d.amode && MayRun(a, psl, d.amode)
                  && (forall n :: 0 <= n < d.index ==> a.queue[n].amode != d.amode)
                  && forall n :: 0 <= n < |a.queue| && MayRun(a, psl, a.queue[n].amode) ==> d.amode <= a.queue[n].amode)
            && (d.NoneDue? ==> forall n :: 0 <= n < |a.queue| ==> !MayRun(a, psl, a.queue[n].amode))
  {
    hide CurMod, IPL, IS;
    ScanIs(a, 0, CurMod(psl));
    hide Scan;
  }

  /** While ASTs are disabled in a mode, none of it or of a less privileged mode is due. */
  lemma DisabledHoldsBack(a: AstState, psl: word, m: mode)
    requires AstValid(a) && !a.enabled[m]
    ensures Deliverable(a, psl).Due? ==> Deliverable(a, psl).amode < m
  {
    hide Deliverable, CurMod, IPL, IS;
    DeliverableIs(a, psl);
  }

  // ---- Entering (enterASTMode) ----

  /** The six longwords pushed: the argument count and parameter, and what was interrupted. */
  function Frame(c: Cpu, param: word): (f: seq<word>)
    ensures |f| == 6
  {
    [ArgCount, param, c.r0, c.r1, c.pc, c.psl]
  }

  /** The first n longwords of ws stored from sp up. */
  function Push(mem: Memory, sp: word, ws: seq<word>, n: nat): Memory
    requires n <= |ws|
  {
    if n == 0 then mem else StoreLongword(Push(mem, sp, ws, n - 1), Wrap(sp + 4 * (n - 1)), ws[n - 1])
  }

  /** The processor in the AST's mode, the interrupted one its previous mode. */
  function Entered(c: Cpu, m: mode): (r: Cpu)
    requires CpuValid(c)
    ensures CpuValid(r)
  {
    if m == CurMod(c.psl) then c
    else
      var s := SwitchMode(c, CurMod(c.psl), m);
      s.(psl := SetPrvMod(s.psl, CurMod(c.psl)))
  }

  datatype Entry = Entry(ok: bool, cpu: Cpu)

  /** The fault-th store of the frame faults, if there is one; then everything but memory is put back. */
  function EnterAst(c: Cpu, m: mode, param: word, fault: nat): (r: Entry)
    requires CpuValid(c)
    ensures CpuValid(r.cpu)
  {
    var e := Entered(c, m);
    var sp := Wrap(e.sp - FrameSize);
    if fault < 6 then
      var f := e.(mem := Push(e.mem, sp, Frame(c, param), fault));
      var back := if m == CurMod(c.psl) then f else SwitchMode(f, m, CurMod(c.psl));
      Entry(false, back.(psl := c.psl, sp := c.sp))
    else Entry(true, e.(mem := Push(e.mem, sp, Frame(c, param), 6), sp := sp))
  }

  lemma EnteredIs(c: Cpu, m: mode)
    requires CpuValid(c)
    ensures var e := Entered(c, m);
            && CurMod(e.psl) == m && IS(e.psl) == IS(c.psl) && StackPointers(e) == StackPointers(c)
            && e.r0 == c.r0 && e.r1 == c.r1 && e.pc == c.pc && e.fp == c.fp && e.mem == c.mem
            && e.sp == StackPointer(c, m)
  {
    hide CurMod, PrvMod, IPL, IS, SetCurMod, SetPrvMod;
    if m != CurMod(c.psl) {
      var s := SwitchMode(c, CurMod(c.psl), m);
      SwitchKeepsStacks(c, m);
      SetCurModFields(c.psl, m);
      SetPrvModFields(s.psl, CurMod(c.psl));
    }
  }

  /**
   * A frame that cannot be pushed changes only memory below the AST mode's stack: every register, mode and stack is as
   * it was.
   */
  lemma FailureRestores(c: Cpu, m: mode, param: word, fault: nat)
    requires CpuValid(c) && fault < 6
    ensures var r := EnterAst(c, m, param, fault);
            && !r.ok && StackPointers(r.cpu) == StackPointers(c)
            && r.cpu == c.(pr := r.cpu.pr, mem := r.cpu.mem)
            && forall p: word :: Past(p, Wrap(StackPointer(c, m) - FrameSize)) >= FrameSize ==>
                 At(r.cpu.mem, p) == At(c.mem, p)
  {
    hide CurMod, PrvMod, IPL, IS, SetCurMod, SetPrvMod, Push;
    EnteredIs(c, m);
    var e := Entered(c, m);
    var sp := Wrap(e.sp - FrameSize);
    forall p: word | Past(p, sp) >= FrameSize
      ensures At(Push(e.mem, sp, Frame(c, param), fault), p) == At(c.mem, p)
    {
      PushElsewhere(c.mem, sp, Frame(c, param), fault, p);
    }
    hide Frame, StoreLongword;
    if m != CurMod(c.psl) {
      var s := SwitchMode(c, CurMod(c.psl), m);
      assert e.pr == c.pr[CurMod(c.psl) := c.sp] && e.sp == c.pr[m];
    }
  }

  lemma {:induction false} PushElsewhere(mem: Memory, sp: word, ws: seq<word>, n: nat, p: word)
    requires n <= |ws| <= 6 && Past(p, sp) >= FrameSize
    ensures At(Push(mem, sp, ws, n), p) == At(mem, p)
  {
    hide StoreLongword, Past;
    if n > 0 {
      PushElsewhere(mem, sp, ws, n - 1, p);
      PastLongword(p, sp, n - 1);
      StoreElsewhere(Push(mem, sp, ws, n - 1), Wrap(sp + 4 * (n - 1)), ws[n - 1], p);
    }
  }

  lemma PastLongword(p: word, sp: word, i: nat)
    requires i < 6 && Past(p, sp) >= FrameSize
    ensures Past(p, Wrap(sp + 4 * i)) >= 4
  {
    PastBack(p, sp, 4 * i);
  }

  /** The distance past an address k bytes on. */
  lemma PastBack(p: word, a: word, k: nat)
    requires k < 0x1_0000_0000
    ensures Past(p, Wrap(a + k)) == if Past(p, a) >= k then Past(p, a) - k else Past(p, a) - k + 0x1_0000_0000
  {
    WrapIs(a, k);
    PastIs(p, Wrap(a + k));
    PastIs(p, a);
    hide Past, Wrap;
  }

  // ---- The frame in memory ----

  function FrameAt(mem: Memory, sp: word): (f: seq<word>)
    ensures |f| == 6
  {
    [LoadLongword(mem, sp), LoadLongword(mem, Wrap(sp + 4)), LoadLongword(mem, Wrap(sp + 8)),
      LoadLongword(mem, Wrap(sp + 12)),
     LoadLongword(mem, Wrap(sp + 16)), LoadLongword(mem, Wrap(sp + 20))]
  }

  lemma {:induction false} PushedWord(mem: Memory, sp: word, ws: seq<word>, n: nat, i: nat)
    requires |ws| == 6 && i < n <= 6
    ensures LoadLongword(Push(mem, sp, ws, n), Wrap(sp + 4 * i)) == ws[i]
    decreases n
  {
    hide StoreLongword, LoadLongword, Past;
    var before := Push(mem, sp, ws, n - 1);
    LoadStored(before, Wrap(sp + 4 * (n - 1)), ws[n - 1], Wrap(sp + 4 * i));
    if i < n - 1 {
      PushedWord(mem, sp, ws, n - 1, i);
      ApartWords(sp, n - 1, i);
    }
  }

  lemma ApartWords(sp: word, n: nat, i: nat)
    requires i < n < 6
    ensures 4 <= Past(Wrap(sp + 4 * i), Wrap(sp + 4 * n)) <= 0xFFFF_FFFC
  {
    PastBack(Wrap(sp + 4 * i), sp, 4 * n);
    PastPlus(sp, sp, 4 * i);
  }

  lemma FramePushed(mem: Memory, sp: word, ws: seq<word>)
    requires |ws| == 6
    ensures FrameAt(Push(mem, sp, ws, 6), sp) == ws
  {
    hide StoreLongword, LoadLongword, Push;
    PushedWord(mem, sp, ws, 6, 0);
    PushedWord(mem, sp, ws, 6, 1);
    PushedWord(mem, sp, ws, 6, 2);
    PushedWord(mem, sp, ws, 6, 3);
    PushedWord(mem, sp, ws, 6, 4);
    PushedWord(mem, sp, ws, 6, 5);
    assert Wrap(sp + 0) == sp;
  }

  lemma FrameSame(x: Memory, y: Memory, sp: word)
    requires SameAt(x, y, sp, FrameSize)
    ensures FrameAt(x, sp) == FrameAt(y, sp)
  {
    hide LoadLongword, SameAt;
    LongwordSame(x, y, sp, 0);
    LongwordSame(x, y, sp, 1);
    LongwordSame(x, y, sp, 2);
    LongwordSame(x, y, sp, 3);
    LongwordSame(x, y, sp, 4);
    LongwordSame(x, y, sp, 5);
    assert Wrap(sp + 4 * 0) == sp;
  }

  lemma LongwordSame(x: Memory, y: Memory, sp: word, i: nat)
    requires SameAt(x, y, sp, FrameSize) && i < 6
    ensures LoadLongword(x, Wrap(sp + 4 * i)) == LoadLongword(y, Wrap(sp + 4 * i))
  {
    ByteSame(x, y, sp, 4 * i);
    ByteSame(x, y, sp, 4 * i + 1);
    ByteSame(x, y, sp, 4 * i + 2);
    ByteSame(x, y, sp, 4 * i + 3);
    WrapSum(sp + 4 * i, 1);
    WrapSum(sp + 4 * i, 2);
    WrapSum(sp + 4 * i, 3);
    hide At, SameAt;
  }

  lemma ByteSame(x: Memory, y: Memory, sp: word, k: nat)
    requires SameAt(x, y, sp, FrameSize) && k < FrameSize
    ensures At(x, Wrap(sp + k)) == At(y, Wrap(sp + k))
  {
    PastPlus(sp, sp, k);
    hide At;
  }

  // ---- A process's interrupts ----

  /** A change-mode call in progress (corevms/cmode.go). */
  datatype ModeCall = ModeCall(fp: word, sp: word, caller: mode, callerPrv: mode, target: mode)

  datatype Machine = Machine(cpu: Cpu, ast: AstState, calls: seq<ModeCall>)

  predicate MachineValid(m: Machine) {
    CpuValid(m.cpu) && AstValid(m.ast)
  }

  /** What NextAST answers: nothing due, an error, or the routine and its argument list. */
  datatype Answer = Nothing | NoStub | CannotPush | Deliver(routine: word, argList: word)

  function Without(queue: seq<Request>, i: nat): seq<Request>
    requires i < |queue|
  {
    queue[..i] + queue[i + 1..]
  }

  /**
   * NextAST. stub says whether the exit it would return through is there, fault which store of the frame faults, if
   * any does.
   */
  function NextAst(m: Machine, stub: bool, fault: nat): (r: (Answer, Machine))
    requires MachineValid(m)
    ensures MachineValid(r.1)
  {
    var d := Deliverable(m.ast, m.cpu.psl);
    if m.ast.queue == [] || d.NoneDue? then (Nothing, m)
    else if !stub then (NoStub, m)
    else
      hide Deliverable, EnterAst;
      DeliverableIs(m.ast, m.cpu.psl);
      var e := EnterAst(m.cpu, d.amode, m.ast.queue[d.index].param, fault);
      if !e.ok then (CannotPush, m.(cpu := e.cpu))
      else
        var a := AstState(Without(m.ast.queue, d.index), m.ast.enabled, m.ast.active[d.amode := true],
          m.ast.frame[d.amode := e.cpu.sp]);
        (Deliver(m.ast.queue[d.index].routine, e.cpu.sp), m.(cpu := e.cpu, ast := a))
  }

  /** deliverAST, up to its call of the routine: an AST starts untraced. */
  function DeliverAst(m: Machine, stub: bool, fault: nat): (r: (Answer, Machine))
    requires MachineValid(m)
    ensures MachineValid(r.1)
  {
    var n := NextAst(m, stub, fault);
    if n.0.Deliver? then (n.0, n.1.(cpu := n.1.cpu.(psl := Untraced(n.1.cpu.psl)))) else n
  }

  /**
   * The AST exit finds its frame: SP is back at the active AST's frame, which is readable and begins with the count.
   */
  predicate Returns(m: Machine, readable: bool)
    requires MachineValid(m)
  {
    var cur := CurMod(m.cpu.psl);
    m.ast.active[cur] && m.cpu.sp == m.ast.frame[cur] && readable && FrameAt(m.cpu.mem, m.cpu.sp)[0] == ArgCount
  }

  /** serviceSysClrast, and the R0 its caller then sets. */
  function Clrast(m: Machine, readable: bool): (r: Machine)
    requires MachineValid(m)
    ensures MachineValid(r)
  {
    var c := m.cpu;
    if !Returns(m, readable) then m.(cpu := c.(r0 := Normal))
    else
      var cur, f := CurMod(c.psl), FrameAt(c.mem, c.sp);
      var saved := f[5];
      var back := if CurMod(saved) > cur then CurMod(saved) else cur;
      var popped := c.(r1 := f[3], pc := f[4], sp := Wrap(c.sp + FrameSize));
      var switched := if back != cur then SwitchMode(popped, cur, back) else popped;
      Machine(switched.(r0 := f[2], psl := SetIS(SetCurMod(saved, back), IS(c.psl))),
        m.ast.(active := m.ast.active[cur := false]),
              m.calls)
  }

  /**
   * Whatever the stack holds, the exit leaves the processor no more privileged, and never puts it on the interrupt
   * stack.
   */
  lemma NeverRaises(m: Machine, readable: bool)
    requires MachineValid(m)
    ensures CurMod(Clrast(m, readable).cpu.psl) >= CurMod(m.cpu.psl) && IS(Clrast(m, readable).cpu.psl) == IS(m.cpu.psl)
  {
    hide CurMod, IS, SetCurMod, SetIS, FrameAt;
    if Returns(m, readable) {
      var saved := FrameAt(m.cpu.mem, m.cpu.sp)[5];
      var back := if CurMod(saved) > CurMod(m.cpu.psl) then CurMod(saved) else CurMod(m.cpu.psl);
      SetCurModFields(saved, back);
      SetISFields(SetCurMod(saved, back), IS(m.cpu.psl));
    }
  }

  /** The PSL that the exit finds in the frame. */
  function SavedPsl(m: Machine): word {
    FrameAt(m.cpu.mem, m.cpu.sp)[5]
  }

  /**
   * What the exit does take from the frame as it is: its PRV_MOD and its IPL; the mode is the less privileged of the
   * two.
   */
  lemma ExitTakes(m: Machine, readable: bool)
    requires MachineValid(m) && Returns(m, readable)
    ensures var psl, saved := Clrast(m, readable).cpu.psl, SavedPsl(m);
            && PrvMod(psl) == PrvMod(saved) && IPL(psl) == IPL(saved)
            && CurMod(psl) == if CurMod(saved) > CurMod(m.cpu.psl) then CurMod(saved) else CurMod(m.cpu.psl)
  {
    hide CurMod, PrvMod, IPL, IS, SetCurMod, SetIS, FrameAt;
    var saved := SavedPsl(m);
    var back := if CurMod(saved) > CurMod(m.cpu.psl) then CurMod(saved) else CurMod(m.cpu.psl);
    SetCurModFields(saved, back);
    SetISFields(SetCurMod(saved, back), IS(m.cpu.psl));
  }

  /**
   * PRV_MOD ends more privileged than the mode returned to exactly where the frame's is than both modes; and more
   * privileged than it was exactly where the frame's is.
   */
  lemma PrvModExactly(m: Machine, readable: bool)
    requires MachineValid(m) && Returns(m, readable)
    ensures var psl, saved := Clrast(m, readable).cpu.psl, SavedPsl(m);
            && (PrvMod(psl) < CurMod(psl) <==> PrvMod(saved) < CurMod(saved) || PrvMod(saved) < CurMod(m.cpu.psl))
            && (PrvMod(psl) < PrvMod(m.cpu.psl) <==> PrvMod(saved) < PrvMod(m.cpu.psl))
  {
    hide CurMod, PrvMod, IPL, FrameAt, Clrast;
    ExitTakes(m, readable);
  }

  /** A user mode AST whose frame, on its own stack, has been given a PSL of user mode with PRV_MOD kernel. */
  const Forged: Machine :=
    Machine(Cpu(0, 0, 0, 0x1000, 0, [0, 0, 0, 0], 0x3C0_0000,
      Push(map[], 0x1000, [ArgCount, 0, 0, 0, 0, 0x300_0000], 6)),
            AstState([], [true, true, true, true], [false, false, false, true], [0, 0, 0, 0x1000]), [])

  /** It returns in user mode, its previous mode then kernel where it had been user. */
  lemma ForgedFrame()
    ensures MachineValid(Forged) && Returns(Forged, true)
    ensures CurMod(Forged.cpu.psl) == User && PrvMod(Forged.cpu.psl) == User
    ensures CurMod(Clrast(Forged, true).cpu.psl) == User && PrvMod(Clrast(Forged, true).cpu.psl) == Kernel
  {
    hide FrameAt, Push, Clrast;
    FramePushed(map[], 0x1000, [ArgCount, 0, 0, 0, 0, 0x300_0000]);
    assert SavedPsl(Forged) == 0x300_0000;
    ExitTakes(Forged, true);
  }

  // ---- Change-mode calls ----

  /** The routine of the last call in progress is back where it was called. */
  predicate Matches(m: Machine) {
    m.calls != [] && var call := m.calls[|m.calls| - 1];
    call.fp == m.cpu.fp && call.sp == m.cpu.sp && call.target == CurMod(m.cpu.psl)
  }

  /** What changeMode does: a return of the routine's R0, a refusal, or a call of the routine. */
  datatype ModeAnswer = Returned(r0: word) | NoPrivilege | Calls

  /** changeMode; privileged says whether the caller holds the privilege. */
  function ChangeMode(m: Machine, asked: mode, privileged: bool): (r: (ModeAnswer, Machine))
    requires MachineValid(m)
    ensures MachineValid(r.1)
  {
    var c := m.cpu;
    var cur := CurMod(c.psl);
    if Matches(m) then
      var call := m.calls[|m.calls| - 1];
      var s := if call.caller != call.target then SwitchMode(c, call.target, call.caller) else c;
      (Returned(c.r0), m.(cpu := s.(psl := SetPrvMod(s.psl, call.callerPrv)), calls := m.calls[..|m.calls| - 1]))
    else if cur > Executive && !privileged then (NoPrivilege, m)
    else
      var target := if asked < cur then asked else cur;
      var e := Entered(c, target);
      (Calls, m.(cpu := e, calls := m.calls + [ModeCall(c.fp, e.sp, cur, PrvMod(c.psl), target)]))
  }

  // ---- $DCLAST and $SETAST ----

  function Queued(m: Machine, r: Request): (n: Machine)
    requires MachineValid(m)
    ensures MachineValid(n)
  {
    m.(ast := m.ast.(queue := m.ast.queue + [r]))
  }

  function SetAst(m: Machine, on: bool): (n: Machine)
    requires MachineValid(m)
    ensures MachineValid(n)
  {
    m.(ast := m.ast.(enabled := m.ast.enabled[CurMod(m.cpu.psl) := on]))
  }
}
