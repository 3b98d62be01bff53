/**
 What the symbol table one pass ends with is worth: exactly when its values solve the program's definitions together.
 */
module Limits {
  import opened Words
  import opened Expressions
  import opened TwoPass
  import opened Backpatch

  // ---- When the symbol table solves its own definitions ----

  /** env, but that the symbols still waiting to be defined are zero. */
  ghost function Zeroed(env: Env, lay: Layout): Env {
    Env(env.base, (key: string) => if key in lay.waiting && key !in lay.defs then 0 else env.external(key), env.mask)
  }

  /**
   * A value read now is the expression's with every symbol still waiting taken as zero (value.go:lookupSymbolValue).
   */
  lemma ReadNowMeans(lay: Layout, e: Term, env: Env)
    requires ReadNow(lay, e).Some? && Agrees(env, lay.defs) && AllAbsolute(lay.defs)
    ensures ReadNow(lay, e).value == Meaning(e, Zeroed(env, lay), Absolute(lay.pc), Assembler)
  {
    hide Evaluate, Meaning;
    EvaluateKeepsMeaning(e, Console, Usable(lay), Absolute(lay.pc), Zeroed(env, lay));
  }

  /** env gives each symbol the value its definition has under env itself. */
  ghost predicate Solved(q: Equation, env: Env) {
    env.external(q.name) == Meaning(q.e, env, Absolute(q.here), Assembler)
  }

  ghost predicate Solves(equations: seq<Equation>, env: Env) {
    forall i :: 0 <= i < |equations| ==> Solved(equations[i], env)
  }

  /**
   * If the statement is an assignment, taking the symbols still waiting as zero does not change its expression's value.
   */
  ghost predicate ZeroHarmless(lay: Layout, s: Statement, env: Env) {
    s.Assign? && ReadNow(lay, s.e).Some? ==>
      Meaning(s.e, Zeroed(env, lay), Absolute(lay.pc), Assembler) == Meaning(s.e, env, Absolute(lay.pc), Assembler)
  }

  lemma StatementSolves(lay: Layout, s: Statement, env: Env)
    requires Tabled(lay) && AllAbsolute(lay.defs) && Agrees(env, LayStatement(lay, s).defs)
    requires DefinedOnce(LayStatement(lay, s).equations)
    ensures Solves(LayStatement(lay, s).equations, env) <==> Solves(lay.equations, env) && ZeroHarmless(lay, s, env)
  {
    StatementExtends(lay, s);
    assert Agrees(env, lay.defs);
    var lay1 := lay.(stmt := lay.stmt + 1);
    var next := LayStatement(lay, s);
    hide ReadNow, LayItems, Meaning, DefinedOnce, Agrees;
    match s
    case Label(name) =>
      assert next.defs[name] == Absolute(lay.pc);
      TableValue(next.defs, name, env);
      HereMeans(env, lay.pc);
      SolvesAppend(lay.equations, Equation(name, Here, lay.pc, |lay.log|), env);
    case Assign(name, e) =>
      SameRead(lay, lay1, e);
      if ReadNow(lay1, e).Some? {
        assert next.defs[name] == Absolute(ReadNow(lay1, e).value);
        TableValue(next.defs, name, env);
        ReadNowMeans(lay, e, env);
        SolvesAppend(lay.equations, Equation(name, e, lay.pc, |lay.log|), env);
      }
    case Origin(_) =>
    case Store(isCase, items) => ItemsEquations(LayCaseBase(lay1, isCase), items);
  }

  lemma TableValue(defs: Definitions, name: string, env: Env)
    requires Agrees(env, defs) && name in defs && defs[name].Absolute?
    ensures env.external(name) == defs[name].v
  {
  }

  lemma SameRead(lay: Layout, next: Layout, e: Term)
    requires next == lay.(stmt := next.stmt)
    ensures ReadNow(next, e) == ReadNow(lay, e)
  {
    assert Usable(next) == Usable(lay);
  }

  lemma SolvesAppend(equations: seq<Equation>, q: Equation, env: Env)
    ensures Solves(equations + [q], env) <==> Solves(equations, env) && Solved(q, env)
  {
    hide Solved;
    assert (equations + [q])[|equations|] == q;
    assert forall i :: 0 <= i < |equations| ==> (equations + [q])[i] == equations[i];
  }

  lemma HereMeans(env: Env, here: word)
    ensures Meaning(Here, env, Absolute(here), Assembler) == here
  {
  }

  lemma {:induction false} TableAbsolute(program: seq<Statement>, start: word)
    ensures AllAbsolute(PassOne(program, start).defs)
  {
    if program != [] {
      var lay := PassOne(program[..|program| - 1], start);
      TableAbsolute(program[..|program| - 1], start);
      hide LayItems, ReadNow;
      match program[|program| - 1]
      case Store(isCase, items) => ItemsExtend(LayCaseBase(lay.(stmt := lay.stmt + 1), isCase), items);
      case _ =>
    }
  }

  /**
   * The values one pass gives labels and assignments solve their definitions together exactly where no assignment's
   * value is changed by taking as zero the symbols it reads before they are defined.
   */
  lemma {:induction false} TableSolvesExactly(program: seq<Statement>, start: word, env: Env)
    requires var lay := PassOne(program, start); DefinedOnce(lay.equations) && Agrees(env, lay.defs)
    ensures Solves(PassOne(program, start).equations, env)
            <==> forall n :: 0 <= n < |program| ==> ZeroHarmless(PassOne(program[..n], start), program[n], env)
  {
    hide LayStatement, DefinedOnce, Agrees, Solves, ZeroHarmless;
    if program != [] {
      var rest := program[..|program| - 1];
      var s := program[|program| - 1];
      var lay := PassOne(rest, start);
      RunTabled(rest, start);
      TableAbsolute(rest, start);
      EarlierEquations(lay, s, env);
      TableSolvesExactly(rest, start, env);
      StatementSolves(lay, s, env);
      forall n | 0 <= n < |rest|
        ensures rest[..n] == program[..n] && rest[n] == program[n]
      {
      }
      EachOf(program, start, env);
    } else {
      assert Solves(PassOne(program, start).equations, env) by {
        NoEquations(start, env);
      }
    }
  }

  lemma NoEquations(start: word, env: Env)
    ensures Solves(PassOne([], start).equations, env)
  {
  }

  /** Every statement is one of the first or the last. */
  lemma EachOf(program: seq<Statement>, start: word, env: Env)
    requires program != []
    ensures var rest := program[..|program| - 1];
            (forall n :: 0 <= n < |program| ==> ZeroHarmless(PassOne(program[..n], start), program[n], env))
            <==> (forall n :: 0 <= n < |rest| ==> ZeroHarmless(PassOne(rest[..n], start), rest[n], env))
                 && ZeroHarmless(PassOne(rest, start), program[|program| - 1], env)
  {
    hide ZeroHarmless, PassOne;
    var rest := program[..|program| - 1];
    assert forall n :: 0 <= n < |rest| ==> rest[..n] == program[..n] && rest[n] == program[n];
  }

  /** An expression's meaning depends only on the symbols it names. */
  lemma {:induction false} MeaningUses(e: Term, env1: Env, env2: Env, here: Place)
    requires env1.base == env2.base && env1.mask == env2.mask
    requires forall key :: key in Names(e) ==> env1.external(key) == env2.external(key)
    ensures Meaning(e, env1, here, Assembler) == Meaning(e, env2, here, Assembler)
  {
    match e
    case Minus(f) => MeaningUses(f, env1, env2, here);
    case Not(f) => MeaningUses(f, env1, env2, here);
    case Infix(_, l, r) =>
      MeaningUses(l, env1, env2, here);
      MeaningUses(r, env1, env2, here);
    case _ =>
  }

  /** In particular where no assignment reads a symbol still waiting. */
  lemma TableSolves(program: seq<Statement>, start: word, env: Env)
    requires var lay := PassOne(program, start); DefinedOnce(lay.equations) && Agrees(env, lay.defs)
    requires forall n :: 0 <= n < |program| && program[n].Assign? ==>
               Names(program[n].e) !! PassOne(program[..n], start).waiting
    ensures Solves(PassOne(program, start).equations, env)
  {
    hide PassOne, Solves, DefinedOnce, Agrees;
    forall n | 0 <= n < |program|
      ensures ZeroHarmless(PassOne(program[..n], start), program[n], env)
    {
      if program[n].Assign? {
        var lay := PassOne(program[..n], start);
        MeaningUses(program[n].e, Zeroed(env, lay), env, Absolute(lay.pc));
      }
    }
    TableSolvesExactly(program, start, env);
  }

  lemma EarlierEquations(lay: Layout, s: Statement, env: Env)
    requires Tabled(lay) && DefinedOnce(LayStatement(lay, s).equations) && Agrees(env, LayStatement(lay, s).defs)
    ensures DefinedOnce(lay.equations) && Agrees(env, lay.defs)
  {
    hide LayStatement;
    StatementExtends(lay, s);
    var next := LayStatement(lay, s);
    assert forall i :: 0 <= i < |lay.equations| ==> lay.equations[i] == next.equations[i];
  }
}
