/**
 Values the assembler cannot finish when it reads them: the trees it keeps for them,
 how it folds and simplifies them, and what they mean once every symbol, section base
 and entry mask has a value.
 */
module Expressions {
  import opened Words

  datatype Option<+T> = None | Some(value: T)

  datatype Result<+T> = Ok(value: T) | Err(error: Error)

  datatype Error = DivideByZero | ForwardOperator | Undefined(name: string)

  datatype Dialect = Console | Macro

  datatype Operator = Add | Sub | Mul | Div | Shift | And | Or | Xor

  /** The two machines that evaluate an operator: the assembler itself (applyOp) and the linker (pass 2). */
  datatype Machine = Assembler | Linker

  /** A VAX arithmetic shift: left for a positive count, right, keeping the sign, for a negative one. */
  function ShiftWord(a: word, count: word): word {
    var n := Signed(count);
    if n >= 32 then 0
    else if n >= 0 then Wrap(a * Pow2(n))
    else if n <= -32 then (if Signed(a) < 0 then TWO32 - 1 else 0)
    else
      Pow2Positive(-n);
      Wrap(Signed(a) / Pow2(-n))
  }

  /** Go's int32 division, which truncates toward zero. */
  function TruncatedQuotient(a: int, b: int): int
    requires b != 0
  {
    if (a < 0) == (b < 0) then Abs(a) / Abs(b) else -(Abs(a) / Abs(b))
  }

  function Abs(x: int): nat {
    if x < 0 then -x else x
  }

  /** The assembler divides unsigned, a zero divisor leaving the dividend; the linker divides signed, a zero
      divisor giving zero. */
  function Divide(m: Machine, a: word, b: word): word {
    match m
    case Assembler => if b == 0 then a else a / b
    case Linker => if b == 0 then 0 else Wrap(TruncatedQuotient(Signed(a), Signed(b)))
  }

  function Apply(m: Machine, op: Operator, a: word, b: word): word {
    match op
    case Add => Wrap(a + b)
    case Sub => Wrap(a - b)
    case Mul => Wrap(a * b)
    case Div => Divide(m, a, b)
    case Shift => ShiftWord(a, b)
    case And => AndWords(a, b)
    case Or => OrWords(a, b)
    case Xor => XorWords(a, b)
  }

  function Negate(a: word): word {
    Wrap(TWO32 - a)
  }

  function Complement(a: word): word {
    TWO32 - 1 - a
  }

  /** An unfinished value (rexpr). */
  datatype Tree =
    | Const(v: word)
    | Base(sect: nat, offset: word, dot: bool)
    | Sym(key: string)
    | Mask(entry: string)
    | Neg(l: Tree)
    | Com(l: Tree)
    | Binary(op: Operator, l: Tree, r: Tree)

  /** What only the linker, or the rest of the source, decides. */
  datatype Env = Env(base: nat -> word, external: string -> word, mask: string -> word)

  function Value(t: Tree, env: Env, m: Machine): word {
    match t
    case Const(v) => v
    case Base(s, offset, _) => Wrap(env.base(s) + offset)
    case Sym(key) => env.external(key)
    case Mask(entry) => env.mask(entry)
    case Neg(l) => Negate(Value(l, env, m))
    case Com(l) => Complement(Value(l, env, m))
    case Binary(op, l, r) => Apply(m, op, Value(l, env, m), Value(r, env, m))
  }

  /** Where a defined symbol is: an offset in a relocatable section, or an absolute value. */
  datatype Place = Absolute(v: word) | Relative(sect: nat, offset: word)

  type Definitions = map<string, Place>

  function PlaceValue(p: Place, env: Env): word {
    match p
    case Absolute(v) => v
    case Relative(s, offset) => Wrap(env.base(s) + offset)
  }

  /** env gives every symbol the assembler has defined the value it was defined with. */
  ghost predicate Agrees(env: Env, defs: Definitions) {
    forall key :: key in defs ==> env.external(key) == PlaceValue(defs[key], env)
  }

  /** The symbols a tree uses, in the order they are met. */
  function Leaves(t: Tree): seq<string> {
    match t
    case Sym(key) => [key]
    case Neg(l) => Leaves(l)
    case Com(l) => Leaves(l)
    case Binary(_, l, r) => Leaves(l) + Leaves(r)
    case _ => []
  }

  predicate HasSymbols(t: Tree) {
    match t
    case Sym(_) => true
    case Neg(l) => HasSymbols(l)
    case Com(l) => HasSymbols(l)
    case Binary(_, l, r) => HasSymbols(l) || HasSymbols(r)
    case _ => false
  }

  /** What is stored where t's value goes until it is known: undefined symbols and section bases count as zero. */
  function Placeholder(t: Tree): word {
    match t
    case Const(v) => v
    case Base(_, offset, _) => offset
    case Sym(_) => 0
    case Mask(_) => 0
    case Neg(l) => Negate(Placeholder(l))
    case Com(l) => Complement(Placeholder(l))
    case Binary(op, l, r) => Apply(Assembler, op, Placeholder(l), Placeholder(r))
  }

  predicate IsConstant(t: Tree) {
    match t
    case Const(_) => true
    case Neg(l) => IsConstant(l)
    case Com(l) => IsConstant(l)
    case Binary(_, l, r) => IsConstant(l) && IsConstant(r)
    case _ => false
  }

  predicate DividesByZero(t: Tree) {
    match t
    case Neg(l) => DividesByZero(l)
    case Com(l) => DividesByZero(l)
    case Binary(op, l, r) => (op == Div && Placeholder(r) == 0) || DividesByZero(l) || DividesByZero(r)
    case _ => false
  }

  function Substituted(t: Tree, defs: Definitions): Tree {
    match t
    case Sym(key) =>
      if key !in defs then t
      else (match defs[key]
            case Absolute(v) => Const(v)
            case Relative(s, offset) => Base(s, offset, false))
    case Neg(l) => Neg(Substituted(l, defs))
    case Com(l) => Com(Substituted(l, defs))
    case Binary(op, l, r) => Binary(op, Substituted(l, defs), Substituted(r, defs))
    case _ => t
  }

  /** t with every defined symbol replaced by its value, folded if that leaves a constant. */
  function Resolved(t: Tree, defs: Definitions): Tree {
    var s := Substituted(t, defs);
    if IsConstant(s) && !DividesByZero(s) then Const(Placeholder(s)) else s
  }

  /** A section base plus a constant, the form a symbol's own value can take: which section, and the offset. */
  function SimpleRelocatable(t: Tree): Option<(nat, word)> {
    match t
    case Base(s, offset, _) => Some((s, offset))
    case Binary(op, l, r) =>
      if op == Add && IsConstant(r) then
        (match SimpleRelocatable(l)
         case Some((s, v)) => Some((s, Wrap(v + Placeholder(r))))
         case None => None)
      else if op == Add && IsConstant(l) then
        (match SimpleRelocatable(r)
         case Some((s, v)) => Some((s, Wrap(Placeholder(l) + v)))
         case None => None)
      else if op == Sub && IsConstant(r) then
        (match SimpleRelocatable(l)
         case Some((s, v)) => Some((s, Wrap(v - Placeholder(r))))
         case None => None)
      else None
    case _ => None
  }

  // ---- Division: where the assembler and the linker agree ----

  /** The operands on which the two machines divide alike. */
  predicate DivisionAgrees(a: word, b: word) {
    if b == 0 then a == 0
    else if b < SIGN then a < SIGN || b == 1
    else (a < SIGN && a < TWO32 - b) || a == b
  }

  lemma MultiplyKeepsOrder(x: int, y: int, b: nat)
    ensures x <= y ==> x * b <= y * b
  {
  }

  lemma QuotientIs(a: nat, b: nat, q: nat)
    requires q * b <= a < (q + 1) * b
    ensures a / b == q
  {
    var d := a / b;
    assert a == d * b + a % b;
    MultiplyKeepsOrder(d + 1, q, b);
    MultiplyKeepsOrder(q + 1, d, b);
  }

  lemma QuotientAtMostHalf(a: nat, b: nat)
    requires b >= 2
    ensures 2 * (a / b) <= a
  {
    var d := a / b;
    assert a == d * b + a % b;
    MultiplyKeepsOrder(2, b, d);
  }

  lemma QuotientAtLeastOne(a: nat, b: nat)
    requires 0 < b <= a
    ensures a / b >= 1
  {
    var d := a / b;
    assert a == d * b + a % b;
    MultiplyKeepsOrder(d, 0, b);
  }

  lemma QuotientBounds(a: nat, b: nat)
    requires b > 0
    ensures 0 <= a / b <= a
    ensures a < b ==> a / b == 0
    ensures b <= a ==> a / b >= 1
    ensures b <= a < 2 * b ==> a / b == 1
    ensures b >= 2 ==> 2 * (a / b) <= a
  {
    if b == 1 {
      QuotientIs(a, b, a);
    } else {
      QuotientAtMostHalf(a, b);
    }
    if a < b {
      QuotientIs(a, b, 0);
    } else {
      QuotientAtLeastOne(a, b);
      if a < 2 * b {
        QuotientIs(a, b, 1);
      }
    }
  }

  lemma LinkerDividesByPositive(a: word, b: word)
    requires 0 < b < SIGN
    ensures a < SIGN ==> Divide(Linker, a, b) == a / b
    ensures a >= SIGN ==> Divide(Linker, a, b) == Wrap(-((TWO32 - a) / b))
  {
    QuotientBounds(a, b);
  }

  lemma LinkerDividesByNegative(a: word, b: word)
    requires b >= SIGN
    ensures a < SIGN ==> Divide(Linker, a, b) == Wrap(-(a / (TWO32 - b)))
    ensures a >= SIGN ==> Divide(Linker, a, b) == (TWO32 - a) / (TWO32 - b)
  {
    if a >= SIGN {
      QuotientBounds(TWO32 - a, TWO32 - b);
    }
  }

  lemma NegativeByPositive(a: word, b: word)
    requires 0 < b < SIGN <= a
    ensures a / b == Wrap(-((TWO32 - a) / b)) <==> b == 1
  {
    QuotientBounds(a, b);
    QuotientBounds(TWO32 - a, b);
    WrapNegative((TWO32 - a) / b);
  }

  lemma PositiveByNegative(a: word, b: word)
    requires a < SIGN <= b
    ensures a / b == Wrap(-(a / (TWO32 - b))) <==> a < TWO32 - b
  {
    QuotientBounds(a, b);
    QuotientBounds(a, TWO32 - b);
    WrapNegative(a / (TWO32 - b));
  }

  lemma NegativeByNegative(a: word, b: word)
    requires SIGN <= a && SIGN <= b
    ensures a / b == (TWO32 - a) / (TWO32 - b) <==> a == b
  {
    QuotientBounds(a, b);
    QuotientBounds(TWO32 - a, TWO32 - b);
  }

  lemma DivisionAgreesExactly(a: word, b: word)
    ensures Divide(Assembler, a, b) == Divide(Linker, a, b) <==> DivisionAgrees(a, b)
  {
    if 0 < b < SIGN {
      LinkerDividesByPositive(a, b);
      if a >= SIGN {
        NegativeByPositive(a, b);
      }
    } else if b >= SIGN {
      LinkerDividesByNegative(a, b);
      if a < SIGN {
        PositiveByNegative(a, b);
      } else {
        NegativeByNegative(a, b);
      }
    }
  }

  /** Every division in a constant tree has operands on which the two machines agree. */
  predicate DivisionsAgree(t: Tree) {
    match t
    case Neg(l) => DivisionsAgree(l)
    case Com(l) => DivisionsAgree(l)
    case Binary(op, l, r) =>
      DivisionsAgree(l) && DivisionsAgree(r) && (op == Div ==> DivisionAgrees(Placeholder(l), Placeholder(r)))
    case _ => true
  }

  // ---- Simplification keeps the value ----

  /** What the assembler folds is what machine m computes, if m is the assembler or divides t's constants alike. */
  lemma {:induction false} PlaceholderOfConstant(t: Tree, env: Env, m: Machine)
    requires IsConstant(t)
    requires m == Linker ==> DivisionsAgree(t)
    ensures Value(t, env, m) == Placeholder(t)
  {
    match t
    case Const(_) =>
    case Neg(l) => PlaceholderOfConstant(l, env, m);
    case Com(l) => PlaceholderOfConstant(l, env, m);
    case Binary(op, l, r) =>
      PlaceholderOfConstant(l, env, m);
      PlaceholderOfConstant(r, env, m);
      if op == Div {
        DivisionAgreesExactly(Placeholder(l), Placeholder(r));
      }
  }

  lemma {:induction false} SubstitutedKeepsValue(t: Tree, defs: Definitions, env: Env, m: Machine)
    requires Agrees(env, defs)
    ensures Value(Substituted(t, defs), env, m) == Value(t, env, m)
  {
    match t
    case Neg(l) => SubstitutedKeepsValue(l, defs, env, m);
    case Com(l) => SubstitutedKeepsValue(l, defs, env, m);
    case Binary(_, l, r) =>
      SubstitutedKeepsValue(l, defs, env, m);
      SubstitutedKeepsValue(r, defs, env, m);
    case _ =>
  }

  /** Resolving keeps the value the assembler computes, for every tree, and the value the linker would have
      computed, wherever what was folded divides alike on both. */
  lemma ResolvedKeepsValue(t: Tree, defs: Definitions, env: Env, m: Machine)
    requires Agrees(env, defs)
    requires m == Linker && IsConstant(Substituted(t, defs)) && !DividesByZero(Substituted(t, defs))
             ==> DivisionsAgree(Substituted(t, defs))
    ensures Value(Resolved(t, defs), env, m) == Value(t, env, m)
  {
    SubstitutedKeepsValue(t, defs, env, m);
    if IsConstant(Substituted(t, defs)) && !DividesByZero(Substituted(t, defs)) {
      PlaceholderOfConstant(Substituted(t, defs), env, m);
    }
  }

  /** Whether resolving folds the tree to a constant. */
  predicate Folds(t: Tree, defs: Definitions) {
    IsConstant(Substituted(t, defs)) && !DividesByZero(Substituted(t, defs))
  }

  /**
   * On either machine, then, a resolved tree has the value the assembler computes if it was folded, and its own if not.
   */
  lemma ResolvedExactly(t: Tree, defs: Definitions, env: Env, m: Machine)
    requires Agrees(env, defs)
    ensures Value(Resolved(t, defs), env, m) == Value(t, env, if Folds(t, defs) then Assembler else m)
  {
    SubstitutedKeepsValue(t, defs, env, m);
    SubstitutedKeepsValue(t, defs, env, Assembler);
    if Folds(t, defs) {
      PlaceholderOfConstant(Substituted(t, defs), env, Assembler);
    }
  }

  /** For one division of constants the condition is exact: folding keeps the linker's value just when the
      divisor is zero, so nothing is folded, or the two machines divide those operands alike. */
  lemma FoldedDivisionExactly(a: word, b: word, defs: Definitions, env: Env)
    ensures Value(Resolved(Binary(Div, Const(a), Const(b)), defs), env, Linker)
            == Value(Binary(Div, Const(a), Const(b)), env, Linker)
            <==> b == 0 || DivisionAgrees(a, b)
  {
    var t := Binary(Div, Const(a), Const(b));
    assert Substituted(t, defs) == t;
    if b != 0 {
      assert Placeholder(Const(a)) == a && Placeholder(Const(b)) == b;
      assert Placeholder(t) == Divide(Assembler, a, b);
      assert IsConstant(Const(a)) && IsConstant(Const(b));
      assert IsConstant(t) && !DividesByZero(t);
      assert Resolved(t, defs) == Const(Divide(Assembler, a, b));
      assert Value(t, env, Linker) == Divide(Linker, a, b);
      DivisionAgreesExactly(a, b);
    }
  }

  /** -6/2: the assembler folds it to %X7FFFFFFD; the linker, given the same operations, makes it -3. */
  lemma FoldedDivisionDiffers(defs: Definitions, env: Env)
    ensures var t := Binary(Div, Neg(Const(6)), Const(2));
            && Value(Resolved(t, defs), env, Linker) == 0x7FFF_FFFD
            && Value(t, env, Linker) == Wrap(-3)
  {
    var t := Binary(Div, Neg(Const(6)), Const(2));
    assert Substituted(Neg(Const(6)), defs) == Neg(Const(6));
    assert Substituted(t, defs) == t;
    assert Placeholder(Neg(Const(6))) == 0xFFFF_FFFA;
    assert Placeholder(t) == 0x7FFF_FFFD;
    assert Value(Neg(Const(6)), env, Linker) == 0xFFFF_FFFA;
  }

  /** A resolved tree uses no defined symbol, and is folded or keeps the shape it was written with. */
  lemma {:induction false} SubstitutedLeaves(t: Tree, defs: Definitions)
    ensures forall key :: key in Leaves(Substituted(t, defs)) <==> key in Leaves(t) && key !in defs
  {
    match t
    case Neg(l) => SubstitutedLeaves(l, defs);
    case Com(l) => SubstitutedLeaves(l, defs);
    case Binary(_, l, r) =>
      SubstitutedLeaves(l, defs);
      SubstitutedLeaves(r, defs);
    case _ =>
  }

  lemma OffsetSum(base: int, offset: int, c: int)
    ensures Wrap(Wrap(base + offset) + c) == Wrap(base + Wrap(offset + c))
  {
    WrapSum(base + offset, c);
    WrapSum(offset + c, base);
  }

  /** t's value, where one side of a sum or difference is a section base plus offset and the other a constant. */
  lemma RelocatableStep(m: Machine, base: word, offset: word, c: word)
    ensures Apply(m, Add, Wrap(base + offset), c) == Wrap(base + Wrap(offset + c))
    ensures Apply(m, Add, c, Wrap(base + offset)) == Wrap(base + Wrap(c + offset))
    ensures Apply(m, Sub, Wrap(base + offset), c) == Wrap(base + Wrap(offset - c))
  {
    OffsetSum(base, offset, c);
    OffsetSum(base, offset, 0 - c);
  }

  ghost predicate IsBasePlus(t: Tree, s: nat, offset: word, env: Env, m: Machine) {
    Value(t, env, m) == Wrap(env.base(s) + offset)
  }

  lemma RelocatablePlusConstant(t: Tree, s: nat, v: word, env: Env, m: Machine)
    requires t.Binary? && IsConstant(t.r) && (t.op == Add || t.op == Sub)
    requires m == Linker ==> DivisionsAgree(t)
    requires IsBasePlus(t.l, s, v, env, m)
    ensures IsBasePlus(t, s, Wrap(if t.op == Add then v + Placeholder(t.r) else v - Placeholder(t.r)), env, m)
  {
    PlaceholderOfConstant(t.r, env, m);
    RelocatableStep(m, env.base(s), v, Placeholder(t.r));
  }

  lemma ConstantPlusRelocatable(t: Tree, s: nat, v: word, env: Env, m: Machine)
    requires t.Binary? && IsConstant(t.l) && t.op == Add
    requires m == Linker ==> DivisionsAgree(t)
    requires IsBasePlus(t.r, s, v, env, m)
    ensures IsBasePlus(t, s, Wrap(Placeholder(t.l) + v), env, m)
  {
    PlaceholderOfConstant(t.l, env, m);
    RelocatableStep(m, env.base(s), v, Placeholder(t.l));
  }

  /** Where a tree is a section base plus a constant, it means that base plus that constant. */
  lemma {:induction false} SimpleRelocatableIsBasePlusOffset(t: Tree, env: Env, m: Machine)
    requires SimpleRelocatable(t).Some?
    requires m == Linker ==> DivisionsAgree(t)
    ensures IsBasePlus(t, SimpleRelocatable(t).value.0, SimpleRelocatable(t).value.1, env, m)
  {
    if t.Binary? {
      if t.op == Add && !IsConstant(t.r) {
        SimpleRelocatableIsBasePlusOffset(t.r, env, m);
        ConstantPlusRelocatable(t, SimpleRelocatable(t.r).value.0, SimpleRelocatable(t.r).value.1, env, m);
      } else {
        SimpleRelocatableIsBasePlusOffset(t.l, env, m);
        RelocatablePlusConstant(t, SimpleRelocatable(t.l).value.0, SimpleRelocatable(t.l).value.1, env, m);
      }
    }
  }

  // ---- Evaluation while reading (exprVal) ----

  /** A value being evaluated: a constant, with the shape of how it was computed, or an unfinished tree. */
  datatype ExprVal = Known(v: word, shape: Option<Tree>) | Unknown(x: Tree)

  function AsTree(x: ExprVal): Tree {
    match x
    case Known(v, None) => Const(v)
    case Known(_, Some(shape)) => shape
    case Unknown(t) => t
  }

  predicate Forward(x: ExprVal) {
    x.Unknown? && HasSymbols(x.x)
  }

  function Shaped(d: Dialect, v: word, shape: Tree): ExprVal {
    Known(v, if d == Macro then Some(shape) else None)
  }

  function BinaryVal(d: Dialect, op: Operator, x1: ExprVal, x2: ExprVal): Result<ExprVal> {
    if op == Div && x2.Known? && x2.v == 0 then
      if d == Console then Err(DivideByZero) else Ok(Unknown(Binary(op, AsTree(x1), AsTree(x2))))
    else if x1.Known? && x2.Known? then
      Ok(Shaped(d, Apply(Assembler, op, x1.v, x2.v), Binary(op, AsTree(x1), AsTree(x2))))
    else if op == Sub && x1.Unknown? && x2.Unknown? && x1.x.Base? && x2.x.Base? && x1.x.sect == x2.x.sect then
      Ok(Known(Wrap(x1.x.offset - x2.x.offset), None))
    else if op == Sub && x1.Unknown? && x2.Unknown? && x1.x.Sym? && x2.x.Sym? && x1.x.key == x2.x.key then
      Ok(Known(0, None))
    else if d == Console && (Forward(x1) || Forward(x2))
            && !(op == Add || op == Sub || (op == Mul && (x1.Known? || x2.Known?))) then
      Err(ForwardOperator)
    else Ok(Unknown(Binary(op, AsTree(x1), AsTree(x2))))
  }

  function NegVal(d: Dialect, x: ExprVal): ExprVal {
    match x
    case Known(v, _) => Shaped(d, Negate(v), Neg(AsTree(x)))
    case Unknown(t) => Unknown(Neg(t))
  }

  function ComVal(d: Dialect, x: ExprVal): Result<ExprVal> {
    match x
    case Known(v, _) => Ok(Shaped(d, Complement(v), Com(AsTree(x))))
    case Unknown(t) => if d == Console && Forward(x) then Err(ForwardOperator) else Ok(Unknown(Com(t)))
  }

  /** An expression as written, its operators already applied left to right. */
  datatype Term =
    | Number(v: word)
    | Name(key: string)
    | Here
    | Minus(e: Term)
    | Not(e: Term)
    | Infix(op: Operator, l: Term, r: Term)

  function ValueOfPlace(p: Place): ExprVal {
    match p
    case Absolute(v) => Known(v, None)
    case Relative(s, offset) => Unknown(Base(s, offset, false))
  }

  function ValueOfHere(here: Place): ExprVal {
    match here
    case Absolute(v) => Known(v, None)
    case Relative(s, offset) => Unknown(Base(s, offset, true))
  }

  /** Evaluates e with forward references allowed: a symbol not defined yet becomes a leaf of the tree. */
  function Evaluate(e: Term, d: Dialect, defs: Definitions, here: Place): Result<ExprVal> {
    match e
    case Number(v) => Ok(Known(v, None))
    case Name(key) => Ok(if key in defs then ValueOfPlace(defs[key]) else Unknown(Sym(key)))
    case Here => Ok(ValueOfHere(here))
    case Minus(f) =>
      (match Evaluate(f, d, defs, here)
       case Ok(x) => Ok(NegVal(d, x))
       case Err(error) => Err(error))
    case Not(f) =>
      (match Evaluate(f, d, defs, here)
       case Ok(x) => ComVal(d, x)
       case Err(error) => Err(error))
    case Infix(op, l, r) =>
      (match (Evaluate(l, d, defs, here), Evaluate(r, d, defs, here))
       case (Ok(x1), Ok(x2)) => BinaryVal(d, op, x1, x2)
       case (Err(error), _) => Err(error)
       case (_, Err(error)) => Err(error))
  }

  /** What e means once every symbol has its value: 32-bit arithmetic, the operators as the machine applies them. */
  function Meaning(e: Term, env: Env, here: Place, m: Machine): word {
    match e
    case Number(v) => v
    case Name(key) => env.external(key)
    case Here => PlaceValue(here, env)
    case Minus(f) => Negate(Meaning(f, env, here, m))
    case Not(f) => Complement(Meaning(f, env, here, m))
    case Infix(op, l, r) => Apply(m, op, Meaning(l, env, here, m), Meaning(r, env, here, m))
  }

  /** A known value is its shape's value: what the linker is handed computes, on the assembler, what was folded. */
  ghost predicate ShapeHolds(x: ExprVal, env: Env) {
    x.Known? ==> Value(AsTree(x), env, Assembler) == x.v
  }

  lemma BaseDifference(base: int, x: int, y: int)
    ensures Wrap(Wrap(base + x) - Wrap(base + y)) == Wrap(x - y)
  {
    WrapSum(base + x, 0 - Wrap(base + y));
    WrapSum(-(base + y), base + x);
    assert Wrap(base + x - Wrap(base + y)) == Wrap(x - y);
  }

  lemma BinaryShape(d: Dialect, op: Operator, x1: ExprVal, x2: ExprVal, env: Env)
    requires ShapeHolds(x1, env) && ShapeHolds(x2, env)
    requires x1.Known? && x2.Known?
    ensures var shape := Binary(op, AsTree(x1), AsTree(x2));
            Value(shape, env, Assembler) == Apply(Assembler, op, x1.v, x2.v)
  {
  }

  lemma BinaryValKeepsValue(d: Dialect, op: Operator, x1: ExprVal, x2: ExprVal, env: Env)
    requires ShapeHolds(x1, env) && ShapeHolds(x2, env)
    requires BinaryVal(d, op, x1, x2).Ok?
    ensures var x := BinaryVal(d, op, x1, x2).value;
            && ShapeHolds(x, env)
            && Value(AsTree(x), env, Assembler)
               == Apply(Assembler, op, Value(AsTree(x1), env, Assembler), Value(AsTree(x2), env, Assembler))
  {
    var x := BinaryVal(d, op, x1, x2).value;
    if x1.Known? && x2.Known? && x.Known? {
      BinaryShape(d, op, x1, x2, env);
    } else if x.Known? {
      var l, r := x1.x, x2.x;
      if l.Base? {
        BaseDifference(env.base(l.sect), l.offset, r.offset);
      }
    } else {
      assert x.x == Binary(op, AsTree(x1), AsTree(x2));
    }
  }

  /** Reading an expression in one pass, whatever mix of symbols is defined by then, gives a value or a tree that
      means what the expression means; a value already known is already right. */
  lemma {:induction false} EvaluateKeepsMeaning(e: Term, d: Dialect, defs: Definitions, here: Place, env: Env)
    requires Evaluate(e, d, defs, here).Ok?
    requires Agrees(env, defs)
    ensures var x := Evaluate(e, d, defs, here).value;
            && ShapeHolds(x, env)
            && Value(AsTree(x), env, Assembler) == Meaning(e, env, here, Assembler)
  {
    match e
    case Number(_) =>
    case Name(key) =>
    case Here =>
    case Minus(f) => EvaluateKeepsMeaning(f, d, defs, here, env);
    case Not(f) => EvaluateKeepsMeaning(f, d, defs, here, env);
    case Infix(op, l, r) =>
      EvaluateKeepsMeaning(l, d, defs, here, env);
      EvaluateKeepsMeaning(r, d, defs, here, env);
      BinaryValKeepsValue(d, op, Evaluate(l, d, defs, here).value, Evaluate(r, d, defs, here).value, env);
  }

  /** The trees it leaves wait only on symbols the expression names that are not defined yet. */
  lemma {:induction false} EvaluateLeaves(e: Term, d: Dialect, defs: Definitions, here: Place)
    requires Evaluate(e, d, defs, here).Ok?
    ensures forall key :: key in Leaves(AsTree(Evaluate(e, d, defs, here).value)) ==> key !in defs
  {
    match e
    case Minus(f) => EvaluateLeaves(f, d, defs, here);
    case Not(f) => EvaluateLeaves(f, d, defs, here);
    case Infix(_, l, r) =>
      EvaluateLeaves(l, d, defs, here);
      EvaluateLeaves(r, d, defs, here);
    case _ =>
  }

  // ---- What the linker computes for an expression ----

  lemma BinaryOnLinker(op: Operator, x1: ExprVal, x2: ExprVal, env: Env)
    requires BinaryVal(Macro, op, x1, x2).Ok?
    ensures Value(AsTree(BinaryVal(Macro, op, x1, x2).value), env, Linker)
            == Apply(Linker, op, Value(AsTree(x1), env, Linker), Value(AsTree(x2), env, Linker))
  {
    hide Wrap, ShiftWord, Divide, AndWords, OrWords, XorWords;
    if op == Sub && x1.Unknown? && x2.Unknown? && x1.x.Base? && x2.x.Base? && x1.x.sect == x2.x.sect {
      BaseDifference(env.base(x1.x.sect), x1.x.offset, x2.x.offset);
    } else if op == Sub && x1.Unknown? && x2.Unknown? && x1.x.Sym? && x2.x.Sym? && x1.x.key == x2.x.key {
      WrapZero(env.external(x1.x.key));
    }
  }

  lemma WrapZero(v: word)
    ensures Wrap(v - v) == 0
  {
  }

  /**
   * In the MACRO dialect the tree of an expression, read with whatever symbols are defined by then, computes on the
   * linker what the expression means there: a known part keeps its shape.
   */
  lemma {:induction false} EvaluateOnLinker(e: Term, defs: Definitions, here: Place, env: Env)
    requires Evaluate(e, Macro, defs, here).Ok? && Agrees(env, defs)
    ensures Value(AsTree(Evaluate(e, Macro, defs, here).value), env, Linker) == Meaning(e, env, here, Linker)
  {
    hide BinaryVal, Apply;
    match e
    case Minus(f) => EvaluateOnLinker(f, defs, here, env);
    case Not(f) => EvaluateOnLinker(f, defs, here, env);
    case Infix(op, l, r) =>
      EvaluateOnLinker(l, defs, here, env);
      EvaluateOnLinker(r, defs, here, env);
      BinaryOnLinker(op, Evaluate(l, Macro, defs, here).value, Evaluate(r, Macro, defs, here).value, env);
    case _ =>
  }

  /** The tree completeFixup finishes: resolved, but an address that used a symbol when it was read is not folded. */
  function FixupTree(t: Tree, defs: Definitions, address: bool): Tree {
    var r := Resolved(t, defs);
    if address && r.Const? && HasSymbols(t) then Substituted(t, defs) else r
  }

  /** Which machine's arithmetic the finished tree holds. */
  function Computes(t: Tree, defs: Definitions, address: bool): Machine {
    if Folds(t, defs) && !(address && HasSymbols(t)) then Assembler else Linker
  }

  /**
   * For every expression, read with some of its symbols defined and finished with more of them, what the linker
   * computes is what the expression means: by the linker's own arithmetic, or, where the assembler folded it to a
   * constant, by the assembler's.
   */
  lemma FinishedMeans(e: Term, early: Definitions, here: Place, defs: Definitions, address: bool, env: Env)
    requires Evaluate(e, Macro, early, here).Ok? && Agrees(env, early) && Agrees(env, defs)
    ensures var t := AsTree(Evaluate(e, Macro, early, here).value);
            Value(FixupTree(t, defs, address), env, Linker) == Meaning(e, env, here, Computes(t, defs, address))
  {
    hide Evaluate, Meaning, Value, Agrees;
    var t := AsTree(Evaluate(e, Macro, early, here).value);
    EvaluateKeepsMeaning(e, Macro, early, here, env);
    EvaluateOnLinker(e, early, here, env);
    ResolvedExactly(t, defs, env, Linker);
    SubstitutedKeepsValue(t, defs, env, Linker);
    SubstitutedConstant(t, defs);
  }

  lemma SubstitutedConstant(t: Tree, defs: Definitions)
    ensures Substituted(t, defs).Const? ==> Folds(t, defs)
  {
  }
}
