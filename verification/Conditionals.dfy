/**
 Conditional assembly, line by line, against its meaning as nested blocks: a stack of frames, only the top one looked
 at, assembles exactly the lines the blocks select (conditional.go). A test may depend on what has been assembled before
 it.
 */
module Conditionals {
  datatype Fault = TooDeep | BadTest | NoBlock

  datatype Outcome<+T> = Done(value: T) | Failed(fault: Fault)

  /** A condition's result, given the statements assembled so far; None where it cannot be evaluated. */
  datatype Verdict = Met | Unmet | Broken

  type Condition = seq<nat> -> Verdict

  datatype Kind = IfFalse | IfTrue | IfTrueFalse

  datatype Line = If(test: Condition) | Sub(kind: Kind) | Endc | Plain(id: nat)

  const MAX_DEPTH: nat := 31

  // ---- Line by line ----

  datatype Frame = Frame(outer: bool, test: bool, on: bool)

  datatype State = State(cond: seq<Frame>, assembled: seq<nat>)

  predicate On(cond: seq<Frame>) {
    cond == [] || cond[|cond| - 1].on
  }

  predicate Selects(kind: Kind, outer: bool, test: bool) {
    match kind
    case IfFalse => outer && !test
    case IfTrue => outer && test
    case IfTrueFalse => outer
  }

  function Step(st: State, line: Line): Outcome<State> {
    var n := |st.cond| - 1;
    match line
    case If(test) =>
      if |st.cond| >= MAX_DEPTH then Failed(TooDeep)
      else if !On(st.cond) then Done(st.(cond := st.cond + [Frame(false, false, false)]))
      else
        (match test(st.assembled)
         case Broken => Failed(BadTest)
         case v => Done(st.(cond := st.cond + [Frame(true, v.Met?, v.Met?)])))
    case Sub(kind) =>
      if st.cond == [] then Failed(NoBlock)
      else
        var top := st.cond[n];
        Done(st.(cond := st.cond[..n] + [top.(on := Selects(kind, top.outer, top.test))]))
    case Endc => if st.cond == [] then Failed(NoBlock) else Done(st.(cond := st.cond[..n]))
    case Plain(id) => Done(if On(st.cond) then st.(assembled := st.assembled + [id]) else st)
  }

  function Run(st: State, lines: seq<Line>): Outcome<State>
    decreases |lines|
  {
    if lines == [] then Done(st)
    else
      match Step(st, lines[0])
      case Failed(f) => Failed(f)
      case Done(st') => Run(st', lines[1..])
  }

  /** Each frame's outer is the frame below's on, and nothing is on inside what is off. */
  predicate Nested(cond: seq<Frame>) {
    && (forall i :: 0 <= i < |cond| ==> cond[i].outer == On(cond[..i]))
    && (forall i :: 0 <= i < |cond| ==> (cond[i].on ==> cond[i].outer))
    && |cond| <= MAX_DEPTH
  }

  /** On means every enclosing block is on. */
  lemma {:induction false} TopTells(cond: seq<Frame>)
    requires Nested(cond)
    ensures On(cond) <==> forall i :: 0 <= i < |cond| ==> cond[i].on
  {
    if cond != [] {
      var n := |cond| - 1;
      assert forall i :: 0 <= i < n ==> cond[..n][..i] == cond[..i];
      TopTells(cond[..n]);
      if cond[n].on {
        assert cond[n].outer;
        assert forall i :: 0 <= i < n ==> cond[..n][i].on;
      }
    }
  }

  lemma PushNested(cond: seq<Frame>, f: Frame)
    requires Nested(cond) && |cond| < MAX_DEPTH && f.outer == On(cond) && (f.on ==> f.outer)
    ensures Nested(cond + [f])
  {
    var more := cond + [f];
    forall i | 0 <= i < |more|
      ensures more[i].outer == On(more[..i])
    {
      assert more[..i] == if i < |cond| then cond[..i] else cond;
    }
  }

  lemma PopNested(cond: seq<Frame>)
    requires Nested(cond) && cond != []
    ensures Nested(cond[..|cond| - 1])
  {
    var fewer := cond[..|cond| - 1];
    assert forall i :: 0 <= i < |fewer| ==> fewer[..i] == cond[..i];
  }

  /** Whatever the lines, the frames stay nested. */
  lemma StepNested(st: State, line: Line)
    requires Nested(st.cond) && Step(st, line).Done?
    ensures Nested(Step(st, line).value.cond)
  {
    hide Nested;
    var n := |st.cond| - 1;
    match line
    case If(test) =>
      hide Selects;
      PushNested(st.cond, Step(st, line).value.cond[|st.cond|]);
    case Sub(kind) =>
      PopNested(st.cond);
      TopOuter(st.cond);
      PushNested(st.cond[..n], Step(st, line).value.cond[n]);
    case Endc => PopNested(st.cond);
    case Plain(_) =>
  }

  lemma TopOuter(cond: seq<Frame>)
    requires Nested(cond) && cond != []
    ensures cond[|cond| - 1].outer == On(cond[..|cond| - 1]) && |cond| - 1 < MAX_DEPTH
  {
  }

  /** In every run of any lines, each frame's outer is the frame below's on. */
  lemma {:induction false} RunNested(st: State, lines: seq<Line>)
    requires Nested(st.cond) && Run(st, lines).Done?
    ensures Nested(Run(st, lines).value.cond)
    decreases |lines|
  {
    hide Nested, Step;
    if lines != [] {
      StepNested(st, lines[0]);
      RunNested(Step(st, lines[0]).value, lines[1..]);
    }
  }

  lemma {:induction false} RunConcat(st: State, a: seq<Line>, b: seq<Line>)
    ensures Run(st, a + b) == match Run(st, a) { case Failed(f) => Failed(f) case Done(st') => Run(st', b) }
    decreases |a|
  {
    hide Step;
    if a == [] {
      assert a + b == b;
    } else {
      assert (a + b)[1..] == a[1..] + b;
      if Step(st, a[0]).Done? {
        RunConcat(Step(st, a[0]).value, a[1..], b);
      }
    }
  }

  lemma RunOne(st: State, line: Line)
    ensures Run(st, [line]) == Step(st, line)
  {
    hide Step;
    if Step(st, line).Done? {
      assert Run(Step(st, line).value, []) == Step(st, line);
    }
  }

  // ---- As nested blocks ----

  /** Statements, and blocks: the part before any subconditional, then a part after each. */
  datatype Blocks =
    | Nil
    | Statement(id: nat, rest: Blocks)
    | Block(test: Condition, first: Blocks, parts: Parts, rest: Blocks)

  datatype Parts = NoParts | Part(kind: Kind, body: Blocks, more: Parts)

  function Lines(b: Blocks): seq<Line> {
    match b
    case Nil => []
    case Statement(id, rest) => [Plain(id)] + Lines(rest)
    case Block(test, first, parts, rest) => [If(test)] + Lines(first) + PartLines(parts) + [Endc] + Lines(rest)
  }

  function PartLines(p: Parts): seq<Line> {
    match p
    case NoParts => []
    case Part(kind, body, more) => [Sub(kind)] + Lines(body) + PartLines(more)
  }

  /**
   * The statements a block selects, after those assembled before it: each part by its own block's test, decided once.
   */
  function Meaning(b: Blocks, active: bool, depth: nat, before: seq<nat>): Outcome<seq<nat>> {
    match b
    case Nil => Done(before)
    case Statement(id, rest) => Meaning(rest, active, depth, if active then before + [id] else before)
    case Block(test, first, parts, rest) =>
      if depth >= MAX_DEPTH then Failed(TooDeep)
      else
        var verdict := if active then test(before) else Unmet;
        if verdict.Broken? then Failed(BadTest)
        else
          match Meaning(first, active && verdict.Met?, depth + 1, before)
          case Failed(f) => Failed(f)
          case Done(s) =>
            match PartsMeaning(parts, active, verdict.Met?, depth + 1, s)
            case Failed(f) => Failed(f)
            case Done(t) => Meaning(rest, active, depth, t)
  }

  function PartsMeaning(p: Parts, active: bool, test: bool, depth: nat, before: seq<nat>): Outcome<seq<nat>> {
    match p
    case NoParts => Done(before)
    case Part(kind, body, more) =>
      match Meaning(body, Selects(kind, active, test), depth, before)
      case Failed(f) => Failed(f)
      case Done(s) => PartsMeaning(more, active, test, depth, s)
  }

  function Lift(cond: seq<Frame>, o: Outcome<seq<nat>>): Outcome<State> {
    match o
    case Failed(f) => Failed(f)
    case Done(s) => Done(State(cond, s))
  }

  /**
   * In any state, the lines of nested blocks assemble what the blocks mean where assembly is, and leave the frames as
   * they were.
   */
  lemma {:induction false} LinesMean(b: Blocks, st: State)
    requires Nested(st.cond)
    ensures Run(st, Lines(b)) == Lift(st.cond, Meaning(b, On(st.cond), |st.cond|, st.assembled))
    decreases b
  {
    hide Nested, Step, Run;
    match b
    case Nil => assert Run(st, []) == Done(st) by { RunNothing(st); }
    case Statement(id, rest) =>
      RunConcat(st, [Plain(id)], Lines(rest));
      RunOne(st, Plain(id));
      var next := PlainStep(st, id);
      LinesMean(rest, next);
    case Block(test, first, parts, rest) =>
      BlockMeans(test, first, parts, rest, st);
  }

  lemma RunNothing(st: State)
    ensures Run(st, []) == Done(st)
  {
  }

  lemma PlainStep(st: State, id: nat) returns (next: State)
    ensures Step(st, Plain(id)) == Done(next)
    ensures next == State(st.cond, if On(st.cond) then st.assembled + [id] else st.assembled)
  {
    next := if On(st.cond) then st.(assembled := st.assembled + [id]) else st;
  }

  /** The frame a block's .IF pushes. */
  function Opened(cond: seq<Frame>, verdict: Verdict): Frame {
    if On(cond) then Frame(true, verdict.Met?, verdict.Met?) else Frame(false, false, false)
  }

  lemma {:induction false} BlockMeans(test: Condition, first: Blocks, parts: Parts, rest: Blocks, st: State)
    requires Nested(st.cond)
    ensures Run(st, Lines(Block(test, first, parts, rest)))
            == Lift(st.cond, Meaning(Block(test, first, parts, rest), On(st.cond), |st.cond|, st.assembled))
    decreases Block(test, first, parts, rest), 0
  {
    hide Nested, Step, Run, Selects, Lines, PartLines, On;
    var verdict := if On(st.cond) then test(st.assembled) else Unmet;
    var l1, l2, l3 := Lines(first), PartLines(parts), Lines(rest);
    assert Lines(Block(test, first, parts, rest))
             == [If(test)] + (l1 + (l2 + ([Endc] + l3))) by { BlockLines(test, first, parts, rest); }
    RunConcat(st, [If(test)], l1 + (l2 + ([Endc] + l3)));
    RunOne(st, If(test));
    IfStep(st, test);
    if |st.cond| < MAX_DEPTH && !verdict.Broken? {
      var f := Opened(st.cond, verdict);
      var st1 := State(st.cond + [f], st.assembled);
      PushNested(st.cond, f);
      OnTop(st.cond, f);
      RunConcat(st1, l1, l2 + ([Endc] + l3));
      LinesMean(first, st1);
      var m1 := Meaning(first, f.on, |st.cond| + 1, st.assembled);
      if m1.Done? {
        var st2 := State(st1.cond, m1.value);
        RunConcat(st2, l2, [Endc] + l3);
        var last := PartsMean(parts, st.cond, f, m1.value);
        var m2 := PartsMeaning(parts, f.outer, f.test, |st.cond| + 1, m1.value);
        if m2.Done? {
          var st3 := State(st.cond + [last], m2.value);
          RunConcat(st3, [Endc], l3);
          RunOne(st3, Endc);
          EndcStep(st.cond, last, m2.value);
          LinesMean(rest, State(st.cond, m2.value));
        }
      }
    }
  }

  lemma BlockLines(test: Condition, first: Blocks, parts: Parts, rest: Blocks)
    ensures Lines(Block(test, first, parts, rest))
              == [If(test)] + (Lines(first) + (PartLines(parts) + ([Endc] + Lines(rest))))
  {
  }

  lemma IfStep(st: State, test: Condition)
    ensures var verdict := if On(st.cond) then test(st.assembled) else Unmet;
            Step(st, If(test)) ==
            if |st.cond| >= MAX_DEPTH then Failed(TooDeep)
            else if verdict.Broken? then Failed(BadTest)
            else Done(State(st.cond + [Opened(st.cond, verdict)], st.assembled))
  {
  }

  lemma EndcStep(cond: seq<Frame>, f: Frame, assembled: seq<nat>)
    ensures Step(State(cond + [f], assembled), Endc) == Done(State(cond, assembled))
  {
    assert (cond + [f])[..|cond|] == cond;
  }

  lemma OnTop(cond: seq<Frame>, f: Frame)
    ensures On(cond + [f]) == f.on
  {
  }

  lemma SubStep(cond: seq<Frame>, f: Frame, assembled: seq<nat>, kind: Kind)
    ensures Step(State(cond + [f], assembled), Sub(kind))
            == Done(State(cond + [f.(on := Selects(kind, f.outer, f.test))], assembled))
  {
    assert (cond + [f])[..|cond|] == cond;
  }

  /** The parts of an open block, whose frame is f, assemble what they mean, and leave the block open. */
  lemma {:induction false} PartsMean(p: Parts, cond: seq<Frame>, f: Frame, assembled: seq<nat>) returns (last: Frame)
    requires Nested(cond + [f])
    ensures last.outer == f.outer && last.test == f.test
    ensures Run(State(cond + [f], assembled), PartLines(p))
            == Lift(cond + [last], PartsMeaning(p, f.outer, f.test, |cond| + 1, assembled))
    decreases p
  {
    hide Nested, Step, Run, Selects, On;
    var st := State(cond + [f], assembled);
    match p
    case NoParts =>
      RunNothing(st);
      last := f;
    case Part(kind, body, more) =>
      var g := f.(on := Selects(kind, f.outer, f.test));
      var st1 := State(cond + [g], assembled);
      assert PartLines(p) == [Sub(kind)] + (Lines(body) + PartLines(more));
      RunConcat(st, [Sub(kind)], Lines(body) + PartLines(more));
      RunOne(st, Sub(kind));
      SubStep(cond, f, assembled, kind);
      Renested(cond, f, g, kind);
      RunConcat(st1, Lines(body), PartLines(more));
      LinesMean(body, st1);
      OnTop(cond, g);
      var m := Meaning(body, g.on, |cond| + 1, assembled);
      if m.Done? {
        last := PartsMean(more, cond, g, m.value);
      } else {
        last := g;
      }
  }

  lemma Renested(cond: seq<Frame>, f: Frame, g: Frame, kind: Kind)
    requires Nested(cond + [f]) && g == f.(on := Selects(kind, f.outer, f.test))
    ensures Nested(cond + [g])
  {
    var n := |cond|;
    assert (cond + [f])[..n] == cond;
    PopNested(cond + [f]);
    TopOuter(cond + [f]);
    PushNested(cond, g);
  }

  /**
   * From the start, testing only the top frame assembles exactly the lines the blocks select, or fails where they fail.
   */
  lemma StreamingIsStructured(b: Blocks)
    ensures Run(State([], []), Lines(b)) == Lift([], Meaning(b, true, 0, []))
  {
    LinesMean(b, State([], []));
  }

  // ---- Any well-nested lines are some blocks' ----

  /**
   * How many blocks are open after the lines, d being open before them; -1 where a subconditional or .ENDC has no
   * block.
   */
  function Level(lines: seq<Line>, d: nat): int
    decreases |lines|
  {
    if lines == [] then d
    else
      match lines[0]
      case If(_) => Level(lines[1..], d + 1)
      case Sub(_) => if d == 0 then -1 else Level(lines[1..], d)
      case Endc => if d == 0 then -1 else Level(lines[1..], d - 1)
      case Plain(_) => Level(lines[1..], d)
  }

  predicate WellNested(lines: seq<Line>) {
    Level(lines, 0) == 0
  }

  /** Inside a block, the lines are the rest of its current part, its other parts, its .ENDC, and what follows it. */
  lemma {:induction false} SplitBlock(lines: seq<Line>, d: nat) returns (b: Blocks, p: Parts, rest: seq<Line>)
    requires d > 0 && Level(lines, d) == 0
    ensures lines == Lines(b) + PartLines(p) + [Endc] + rest && Level(rest, d - 1) == 0 && |rest| < |lines|
    decreases |lines|
  {
    hide Lines, PartLines;
    var tail := lines[1..];
    assert lines == [lines[0]] + tail;
    match lines[0]
    case Plain(id) =>
      var b1;
      b1, p, rest := SplitBlock(tail, d);
      b := Statement(id, b1);
      SplitPlain(id, b1, p, rest);
    case Sub(kind) =>
      var b1, p1;
      b1, p1, rest := SplitBlock(tail, d);
      b, p := Nil, Part(kind, b1, p1);
      SplitSub(kind, b1, p1, rest);
    case Endc =>
      b, p, rest := Nil, NoParts, tail;
      SplitEnd(rest);
    case If(test) =>
      var b1, p1, rest1 := SplitBlock(tail, d + 1);
      var b2;
      b2, p, rest := SplitBlock(rest1, d);
      b := Block(test, b1, p1, b2);
      SplitIf(test, b1, p1, b2, p, tail, rest1, rest);
  }

  lemma SplitPlain(id: nat, b: Blocks, p: Parts, rest: seq<Line>)
    ensures [Plain(id)] + (Lines(b) + PartLines(p) + [Endc] + rest)
              == Lines(Statement(id, b)) + PartLines(p) + [Endc] + rest
  {
  }

  lemma SplitSub(kind: Kind, b: Blocks, p: Parts, rest: seq<Line>)
    ensures [Sub(kind)] + (Lines(b) + PartLines(p) + [Endc] + rest)
              == Lines(Nil) + PartLines(Part(kind, b, p)) + [Endc] + rest
  {
  }

  lemma SplitEnd(rest: seq<Line>)
    ensures [Endc] + rest == Lines(Nil) + PartLines(NoParts) + [Endc] + rest
  {
  }

  lemma SplitIf(test: Condition, b1: Blocks, p1: Parts, b2: Blocks, p: Parts, tail: seq<Line>, rest1: seq<Line>,
                rest: seq<Line>)
    requires tail == Lines(b1) + PartLines(p1) + [Endc] + rest1 && rest1 == Lines(b2) + PartLines(p) + [Endc] + rest
    ensures [If(test)] + tail == Lines(Block(test, b1, p1, b2)) + PartLines(p) + [Endc] + rest
  {
    BlockLines(test, b1, p1, b2);
    hide Lines, PartLines;
    Regroup([If(test)], Lines(b1), PartLines(p1), [Endc], Lines(b2), PartLines(p) + [Endc] + rest);
    assert rest1 == Lines(b2) + (PartLines(p) + [Endc] + rest);
    var all := Lines(Block(test, b1, p1, b2));
    assert all + (PartLines(p) + [Endc] + rest) == all + PartLines(p) + [Endc] + rest;
  }

  lemma Regroup<T>(a: seq<T>, b: seq<T>, c: seq<T>, d: seq<T>, e: seq<T>, f: seq<T>)
    ensures (a + (b + (c + (d + e)))) + f == a + (b + c + d + (e + f))
    ensures (a + (b + (c + (d + e)))) + f == a + (b + (c + (d + (e + f))))
  {
  }

  lemma {:induction false} WellNestedIsBlocks(lines: seq<Line>) returns (b: Blocks)
    requires WellNested(lines)
    ensures Lines(b) == lines
    decreases |lines|
  {
    if lines == [] {
      b := Nil;
    } else {
      var tail := lines[1..];
      assert lines == [lines[0]] + tail;
      match lines[0]
      case Plain(id) =>
        var b1 := WellNestedIsBlocks(tail);
        b := Statement(id, b1);
      case If(test) =>
        var b1, p1, rest := SplitBlock(tail, 1);
        var b2 := WellNestedIsBlocks(rest);
        b := Block(test, b1, p1, b2);
        BlockLines(test, b1, p1, b2);
      case _ =>
    }
  }

  lemma BlockFollowed(test: Condition, first: Blocks, parts: Parts, more: Blocks, rest: seq<Line>)
    ensures Lines(Block(test, first, parts, more)) + rest
            == [If(test)] + (Lines(first) + (PartLines(parts) + ([Endc] + (Lines(more) + rest))))
  {
    BlockLines(test, first, parts, more);
    hide Lines, PartLines;
    Regroup([If(test)], Lines(first), PartLines(parts), [Endc], Lines(more), rest);
  }

  lemma {:induction false} BlocksLevel(b: Blocks, d: nat, rest: seq<Line>)
    ensures Level(Lines(b) + rest, d) == Level(rest, d)
    decreases b
  {
    match b
    case Nil => assert Lines(b) + rest == rest;
    case Statement(id, more) =>
      assert (Lines(b) + rest)[1..] == Lines(more) + rest;
      BlocksLevel(more, d, rest);
    case Block(test, first, parts, more) =>
      var after := [Endc] + (Lines(more) + rest);
      BlockFollowed(test, first, parts, more, rest);
      assert (Lines(b) + rest)[1..] == Lines(first) + (PartLines(parts) + after);
      hide Lines, PartLines;
      BlocksLevel(first, d + 1, PartLines(parts) + after);
      PartsLevel(parts, d + 1, after);
      assert after[1..] == Lines(more) + rest;
      BlocksLevel(more, d, rest);
  }

  lemma {:induction false} PartsLevel(p: Parts, d: nat, rest: seq<Line>)
    requires d > 0
    ensures Level(PartLines(p) + rest, d) == Level(rest, d)
    decreases p
  {
    match p
    case NoParts => assert PartLines(p) + rest == rest;
    case Part(kind, body, more) =>
      assert (PartLines(p) + rest)[1..] == Lines(body) + (PartLines(more) + rest);
      BlocksLevel(body, d, PartLines(more) + rest);
      PartsLevel(more, d, rest);
  }

  ghost predicate Reads(b: Blocks, lines: seq<Line>) {
    Lines(b) == lines
  }

  /** Exactly the well-nested lines are blocks'. */
  lemma WellNestedExactly(lines: seq<Line>)
    ensures WellNested(lines) <==> exists b :: Reads(b, lines)
  {
    if WellNested(lines) {
      var b := WellNestedIsBlocks(lines);
      assert Reads(b, lines);
    }
    forall b | Reads(b, lines)
      ensures WellNested(lines)
    {
      BlocksLevel(b, 0, []);
      assert Lines(b) + [] == lines;
    }
  }

  /** Every well-nested source assembles as the blocks it is made of say. */
  lemma WellNestedAssembles(lines: seq<Line>) returns (b: Blocks)
    requires WellNested(lines)
    ensures Lines(b) == lines && Run(State([], []), lines) == Lift([], Meaning(b, true, 0, []))
  {
    hide Run, Meaning;
    b := WellNestedIsBlocks(lines);
    StreamingIsStructured(b);
  }

  // ---- In place ----

  /** The assembler's conditional state: the open blocks' frames, the innermost last. */
  class Assembler {
    var cond: seq<Frame>
    var assembled: seq<nat>

    function View(): State
      reads this
    {
      State(cond, assembled)
    }

    constructor ()
      ensures View() == State([], [])
    {
      cond, assembled := [], [];
    }

    function Skipping(): bool
      reads this`cond
    {
      |cond| > 0 && !cond[|cond| - 1].on
    }

    /** subconditional, of .IFF, .IFT and .IFTF */
    method Subconditional(kind: Kind) returns (fault: Outcome<()>)
      modifies this`cond
      ensures Told(old(View()), View(), Sub(kind), fault)
    {
      if |cond| == 0 {
        return Failed(NoBlock);
      }
      var n := |cond| - 1;
      var top := cond[n];
      var on := top.outer;
      match kind {
        case IfFalse => on := top.outer && !top.test;
        case IfTrue => on := top.outer && top.test;
        case IfTrueFalse =>
      }
      cond := cond[n := top.(on := on)];
      assert cond == old(cond)[..n] + [top.(on := on)];
      return Done(());
    }

    /** subconditional, of .ENDC */
    method EndBlock() returns (fault: Outcome<()>)
      modifies this`cond
      ensures Told(old(View()), View(), Endc, fault)
    {
      if |cond| == 0 {
        return Failed(NoBlock);
      }
      cond := cond[..|cond| - 1];
      return Done(());
    }

    /** pseudoIf */
    method OpenBlock(test: Condition) returns (fault: Outcome<()>)
      requires !Skipping()
      modifies this`cond
      ensures Told(old(View()), View(), If(test), fault)
    {
      if |cond| >= MAX_DEPTH {
        return Failed(TooDeep);
      }
      var verdict := test(assembled);
      if verdict.Broken? {
        return Failed(BadTest);
      }
      cond := cond + [Frame(true, verdict.Met?, verdict.Met?)];
      return Done(());
    }

    /** skippedStatement */
    method SkipStatement(line: Line) returns (fault: Outcome<()>)
      requires Skipping()
      modifies this`cond
      ensures Told(old(View()), View(), line, fault)
    {
      match line
      case If(_) =>
        if |cond| >= MAX_DEPTH {
          return Failed(TooDeep);
        }
        cond := cond + [Frame(false, false, false)];
        return Done(());
      case Sub(kind) => fault := Subconditional(kind);
      case Endc => fault := EndBlock();
      case Plain(_) => return Done(());
    }

    method TakeStatement(line: Line) returns (fault: Outcome<()>)
      modifies this
      ensures Told(old(View()), View(), line, fault)
    {
      if Skipping() {
        fault := SkipStatement(line);
        return;
      }
      match line
      case If(test) => fault := OpenBlock(test);
      case Sub(kind) => fault := Subconditional(kind);
      case Endc => fault := EndBlock();
      case Plain(id) =>
        assembled := assembled + [id];
        return Done(());
    }
  }

  /** The line was taken as Step has it: a fault changes nothing. */
  ghost predicate Told(before: State, after: State, line: Line, fault: Outcome<()>) {
    match Step(before, line)
    case Failed(f) => fault == Failed(f) && after == before
    case Done(st) => fault == Done(()) && after == st
  }

  /** Assembles the lines, up to the first that fails. */
  method Assemble(lines: seq<Line>) returns (fault: Outcome<()>, assembled: seq<nat>)
    ensures match Run(State([], []), lines)
            case Failed(f) => fault == Failed(f)
            case Done(st) => fault == Done(()) && assembled == st.assembled
  {
    hide Step;
    var a := new Assembler();
    var i := 0;
    assert lines[0..] == lines;
    while i < |lines|
      invariant 0 <= i <= |lines|
      invariant Run(a.View(), lines[i..]) == Run(State([], []), lines)
    {
      assert lines[i..][1..] == lines[i + 1..];
      fault := a.TakeStatement(lines[i]);
      if fault.Failed? {
        return fault, a.assembled;
      }
      i := i + 1;
    }
    return Done(()), a.assembled;
  }
}
