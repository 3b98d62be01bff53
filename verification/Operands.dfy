/**
 Displacement operands: the bytes the assembler emits for a known value, and what the processor makes of them (section
 5.2.1 of the VAX MACRO manual).
 */
module Operands {
  import opened Words
  import opened Expressions
  import opened TwoPass

  /** A displacement from a register's contents; a deferred one gives the address of the operand's address. */
  datatype Displaced = Displaced(reg: octet, deferred: bool, disp: int, size: nat)

  function FieldWidth(mode: octet): Option<Width> {
    var high := mode / 16;
    if high == 10 || high == 11 then Some(Byte)
    else if high == 12 || high == 13 then Some(Word)
    else if high == 14 || high == 15 then Some(Long)
    else None
  }

  function Unsigned(data: seq<octet>): int
    requires |data| <= 4
  {
    if data == [] then 0 else data[0] + 256 * Unsigned(data[1..])
  }

  function SignedField(data: seq<octet>, w: Width): int
    requires |data| == Bytes(w)
  {
    var v := Unsigned(data);
    match w
    case Byte => if v < 0x80 then v else v - 0x100
    case Word => if v < 0x8000 then v else v - 0x1_0000
    case Long => if v < 0x8000_0000 then v else v - 0x1_0000_0000
  }

  /** The processor's reading of an operand specifier; register deferred mode is a displacement of zero. */
  function Decode(data: seq<octet>): Option<Displaced> {
    if data == [] then None
    else
      match FieldWidth(data[0])
      case Some(w) =>
        if |data| < 1 + Bytes(w) then None
        else Some(Displaced(data[0] % 16, data[0] / 16 % 2 == 1, SignedField(data[1..1 + Bytes(w)], w), 1 + Bytes(w)))
      case None => if data[0] / 16 == 6 then Some(Displaced(data[0] % 16, false, 0, 1)) else None
  }

  function Specifier(w: Width, deferred: bool, reg: octet, field: word): seq<octet> {
    [ModeByte(w, deferred, reg)] + LittleEndian(field, Bytes(w))
  }

  /** relativeOperand, of a known target, at pc; None is its range error. */
  function RelativeOperand(target: word, pc: word, deferred: bool, size: Option<Width>): Option<seq<octet>> {
    var loc := Wrap(pc + 1);
    var w := if size.Some? then size.value else RelativeWidth(target, loc);
    var disp := DisplacementTo(target, loc, w);
    if size.Some? && !FitsSigned(Signed(disp), w) then None else Some(Specifier(w, deferred, 15, disp))
  }

  /** registerDisplacement, of a known value; None is its range error. */
  function RegisterDisplacement(value: word, deferred: bool, reg: octet, size: Option<Width>,
                                dialect: Dialect): Option<seq<octet>>
    requires reg < 16
  {
    if size.None? && value == 0 && !deferred && dialect.Macro? then Some([0x60 + reg])
    else
      var w := if size.Some? then size.value else ValueWidth(value);
      if size.Some? && !FitsSigned(Signed(value), w) && !FitsUnsigned(value, w) then None
      else Some(Specifier(w, deferred, reg, value))
  }

  /** A byte or word may be written as its unsigned bit pattern. */
  predicate FitsUnsigned(value: word, w: Width) {
    match w
    case Byte => value < 0x100
    case Word => value < 0x1_0000
    case Long => false
  }

  // ---- Fields ----

  function Modulus(w: Width): int {
    match w
    case Byte => 0x100
    case Word => 0x1_0000
    case Long => 0x1_0000_0000
  }

  lemma LowBytes(v: word, w: Width)
    ensures Unsigned(LittleEndian(v, Bytes(w))) == v % Modulus(w)
  {
    hide Unsigned;
    UnsignedOf(LittleEndian(v, Bytes(w)));
    match w
    case Byte =>
    case Word => DoubleDigit(v);
    case Long => LongBytes(v);
  }

  function Digit(d: seq<octet>, k: nat): int {
    if k < |d| then d[k] else 0
  }

  lemma UnsignedOf(d: seq<octet>)
    requires 1 <= |d| <= 4
    ensures Unsigned(d) == Digit(d, 0) + 256 * Digit(d, 1) + 0x1_0000 * Digit(d, 2) + 0x100_0000 * Digit(d, 3)
  {
    if |d| > 1 {
      UnsignedOf(d[1..]);
    }
  }

  lemma DoubleDigit(v: word)
    ensures v % 256 + 256 * (v / 256 % 256) == v % 0x1_0000
  {
    var q: int := v / 256;
    assert v == 0x1_0000 * (q / 256) + (256 * (q % 256) + v % 256);
  }

  lemma LongBytes(v: word)
    ensures v % 256 + 256 * (v / 256 % 256) + 0x1_0000 * (v / 0x1_0000 % 256) + 0x100_0000 * (v / 0x100_0000) == v
  {
  }

  /** A field holds a value exactly when, and only when, it fits as signed; it always holds it modulo its own size. */
  lemma FieldHolds(v: word, w: Width)
    ensures var d := SignedField(LittleEndian(v, Bytes(w)), w);
            FitsSigned(d, w) && (d - v) % Modulus(w) == 0 && (d == Signed(v) <==> FitsSigned(Signed(v), w))
            && (Wrap(d) == v <==> d == Signed(v))
  {
    hide LittleEndian, Unsigned;
    LowBytes(v, w);
    assert SignedField(LittleEndian(v, Bytes(w)), w) == SignedLow(v, w);
    HoldsLow(v, w);
  }

  function SignedLow(v: word, w: Width): int {
    var u := v % Modulus(w);
    if u < Modulus(w) / 2 then u else u - Modulus(w)
  }

  lemma HoldsLow(v: word, w: Width)
    ensures var d := SignedLow(v, w);
            FitsSigned(d, w) && (d - v) % Modulus(w) == 0 && (d == Signed(v) <==> FitsSigned(Signed(v), w))
            && (Wrap(d) == v <==> d == Signed(v))
  {
    HoldsModulo(v, w);
    HoldsSigned(v, w);
    var d := SignedLow(v, w);
    assert -0x8000_0000 <= d <= 0x7FFF_FFFF;
    SignedWraps(d);
    SignedReturns(v);
  }

  lemma HoldsModulo(v: word, w: Width)
    ensures (SignedLow(v, w) - v) % Modulus(w) == 0
  {
    match w
    case Byte =>
      var q: int := v / 0x100;
      assert v == 0x100 * q + v % 0x100;
      ByteMultiple(if v % 0x100 < 0x80 then 0 - q else 0 - q - 1);
    case Word =>
      var q: int := v / 0x1_0000;
      assert v == 0x1_0000 * q + v % 0x1_0000;
      WordMultiple(if v % 0x1_0000 < 0x8000 then 0 - q else 0 - q - 1);
    case Long =>
  }

  lemma ByteMultiple(k: int)
    ensures 0x100 * k % 0x100 == 0
  {
  }

  lemma WordMultiple(k: int)
    ensures 0x1_0000 * k % 0x1_0000 == 0
  {
  }

  lemma HoldsSigned(v: word, w: Width)
    ensures FitsSigned(SignedLow(v, w), w) && (SignedLow(v, w) == Signed(v) <==> FitsSigned(Signed(v), w))
  {
    match w
    case Byte => LowByte(v);
    case Word => LowWord(v);
    case Long =>
  }

  lemma LowByte(v: word)
    ensures v < 0x100 ==> v % 0x100 == v
    ensures v >= 0xFFFF_FF00 ==> v % 0x100 == v - 0xFFFF_FF00
  {
  }

  lemma LowWord(v: word)
    ensures v < 0x1_0000 ==> v % 0x1_0000 == v
    ensures v >= 0xFFFF_0000 ==> v % 0x1_0000 == v - 0xFFFF_0000
  {
  }

  lemma SignedWraps(d: int)
    requires -0x8000_0000 <= d <= 0x7FFF_FFFF
    ensures Signed(Wrap(d)) == d
  {
    if d < 0 {
      WrapNegative(0 - d);
    }
  }

  lemma SignedReturns(v: word)
    ensures Wrap(Signed(v)) == v
  {
    if v >= SIGN {
      WrapNegative(TWO32 - v);
    }
  }

  lemma SpecifierDecodes(w: Width, deferred: bool, reg: octet, field: word)
    requires reg < 16
    ensures var s := Specifier(w, deferred, reg, field);
            |s| == 1 + Bytes(w)
            && Decode(s) == Some(Displaced(reg, deferred, SignedField(LittleEndian(field, Bytes(w)), w), |s|))
  {
    hide LittleEndian, SignedField;
    var s := Specifier(w, deferred, reg, field);
    assert s[1..1 + Bytes(w)] == LittleEndian(field, Bytes(w));
  }

  lemma SignedFieldFits(data: seq<octet>, w: Width)
    requires |data| == Bytes(w)
    ensures FitsSigned(SignedField(data, w), w)
  {
    UnsignedBound(data);
  }

  lemma {:induction false} UnsignedBound(data: seq<octet>)
    requires |data| <= 4
    ensures 0 <= Unsigned(data)
    ensures Unsigned(data)
            < (match |data| case 0 => 1 case 1 => 0x100 case 2 => 0x1_0000 case 3 => 0x100_0000 case _ => 0x1_0000_0000)
  {
    if data != [] {
      UnsignedBound(data[1..]);
    }
  }

  // ---- Relative operands ----

  /** What is emitted gives back the target; and where there is a range error, no field of that size reaches it. */
  lemma RelativeReaches(target: word, pc: word, deferred: bool, size: Option<Width>)
    ensures match RelativeOperand(target, pc, deferred, size)
            case Some(s) =>
              (match Decode(s)
               case Some(x) =>
                 x.reg == 15 && x.deferred == deferred && x.size == |s| && Wrap(pc + x.size + x.disp) == target
               case None => false)
            case None =>
              size.Some? && forall d :: FitsSigned(d, size.value) ==> Wrap(pc + 1 + Bytes(size.value) + d) != target
  {
    hide LittleEndian, ModeByte, SignedField, Decode, Wrap, DisplacementTo, RelativeWidth;
    var loc := Wrap(pc + 1);
    var w := if size.Some? then size.value else RelativeWidth(target, loc);
    var disp := DisplacementTo(target, loc, w);
    WidthFits(target, loc);
    FieldHolds(disp, w);
    SpecifierDecodes(w, deferred, 15, disp);
    DisplacementMeans(target, pc, w);
    if size.Some? && !FitsSigned(Signed(disp), w) {
      forall d | FitsSigned(d, w)
        ensures Wrap(pc + 1 + Bytes(w) + d) != target
      {
        if Wrap(pc + 1 + Bytes(w) + d) == target {
          OnlyDisplacement(target, pc, w, d);
        }
      }
    }
  }

  lemma WidthFits(target: word, loc: word)
    ensures var w := RelativeWidth(target, loc);
            FitsSigned(Signed(DisplacementTo(target, loc, w)), w)
  {
    hide DisplacementTo;
  }

  lemma DisplacementMeans(target: word, pc: word, w: Width)
    ensures Wrap(pc + 1 + Bytes(w) + Signed(DisplacementTo(target, Wrap(pc + 1), w))) == target
  {
    hide Wrap, Signed;
    var n := Bytes(w);
    var d := DisplacementTo(target, Wrap(pc + 1), w);
    SignedReturns(d);
    WrapSum(Signed(d), pc + 1 + n);
    WrapSum(target - (Wrap(pc + 1) + n), pc + 1 + n);
    Cancels(target, pc + 1);
  }

  lemma Cancels(x: word, y: int)
    ensures Wrap(x - Wrap(y) + y) == x
  {
  }

  lemma OnlyDisplacement(target: word, pc: word, w: Width, d: int)
    requires FitsSigned(d, w) && Wrap(pc + 1 + Bytes(w) + d) == target
    ensures d == Signed(DisplacementTo(target, Wrap(pc + 1), w))
  {
    hide Wrap, Signed;
    var n := Bytes(w);
    WrapSum(pc + 1 + n + d, 0 - Wrap(pc + 1) - n);
    Cancels(Wrap(d), pc + 1);
    WrapSum(d, pc + 1 - Wrap(pc + 1));
    SignedWraps(d);
  }

  /** With the size left to it, relativeOperand's bytes are the fewest that displacement mode could take. */
  lemma RelativeShortest(target: word, pc: word, deferred: bool, other: seq<octet>)
    requires other != [] && FieldWidth(other[0]).Some? && Decode(other).Some?
    requires var x := Decode(other).value; Wrap(pc + x.size + x.disp) == target
    ensures RelativeOperand(target, pc, deferred, None).Some?
    ensures |RelativeOperand(target, pc, deferred, None).value| <= Decode(other).value.size
  {
    hide LittleEndian, ModeByte, SignedField, Wrap, DisplacementTo;
    var n := FieldWidth(other[0]).value;
    var d := Decode(other).value.disp;
    SignedFieldFits(other[1..1 + Bytes(n)], n);
    OnlyDisplacement(target, pc, n, d);
  }

  // ---- Displacements from a register ----

  /**
   * What is emitted gives back the value, except where its size was written and the value, as signed, does not fit it.
   */
  lemma RegisterReaches(value: word, deferred: bool, reg: octet, size: Option<Width>, dialect: Dialect)
    requires reg < 16
    ensures match RegisterDisplacement(value, deferred, reg, size, dialect)
            case Some(s) =>
              (match Decode(s)
               case Some(x) =>
                 && x.reg == reg && x.deferred == deferred && x.size == |s|
                 && (Wrap(x.disp) == value <==> (size.Some? ==> FitsSigned(Signed(value), size.value)))
                 && (size.Some? ==> (x.disp - value) % Modulus(size.value) == 0)
               case None => false)
            case None => size.Some? && !FitsSigned(Signed(value), size.value) && !FitsUnsigned(value, size.value)
  {
    hide LittleEndian, ModeByte, SignedField, Wrap;
    if size.None? && value == 0 && !deferred && dialect.Macro? {
      assert Wrap(0) == 0 by { ZeroWraps(); }
    } else {
      hide Decode, Modulus;
      var w := if size.Some? then size.value else ValueWidth(value);
      FieldHolds(value, w);
      SpecifierDecodes(w, deferred, reg, value);
    }
  }

  /** B^0FF(R1): taken, and means -1(R1). */
  lemma UnsignedPatternDiffers(dialect: Dialect)
    ensures var s := RegisterDisplacement(0xFF, false, 1, Some(Byte), dialect);
            s.Some? && Decode(s.value).Some? && Wrap(Decode(s.value).value.disp) == 0xFFFF_FFFF
  {
    hide Decode;
    SpecifierDecodes(Byte, false, 1, 0xFF);
    assert LittleEndian(0xFF, 1) == [0xFF];
  }

  lemma ZeroWraps()
    ensures Wrap(0) == 0
  {
  }

  /**
   * With the size left to it, registerDisplacement's bytes are the fewest: of all of them in the MACRO dialect, of
   * those with a field in the console's.
   */
  lemma RegisterShortest(value: word, deferred: bool, reg: octet, dialect: Dialect, other: seq<octet>)
    requires reg < 16 && other != [] && Decode(other).Some? && Decode(other).value.deferred == deferred
    requires Wrap(Decode(other).value.disp) == value && (dialect.Macro? || FieldWidth(other[0]).Some?)
    ensures RegisterDisplacement(value, deferred, reg, None, dialect).Some?
    ensures |RegisterDisplacement(value, deferred, reg, None, dialect).value| <= Decode(other).value.size
  {
    hide LittleEndian, ModeByte, SignedField;
    var x := Decode(other).value;
    if FieldWidth(other[0]).Some? {
      var n := FieldWidth(other[0]).value;
      SignedFieldFits(other[1..1 + Bytes(n)], n);
      assert Signed(value) == x.disp;
    }
  }

  /** relativeOperand's loop over the sizes. */
  method ChooseSize(target: word, loc: word) returns (size: Width, disp: word)
    ensures size == RelativeWidth(target, loc) && disp == DisplacementTo(target, loc, size)
  {
    hide Wrap;
    var sizes := [Byte, Word, Long];
    var i := 0;
    size, disp := Long, 0;
    while i < 3
      invariant 0 <= i <= 3
      invariant i > 0 ==> !FitsSigned(Signed(DisplacementTo(target, loc, Byte)), Byte)
      invariant i > 1 ==> !FitsSigned(Signed(DisplacementTo(target, loc, Word)), Word)
      invariant i > 2 ==> size == Long && disp == DisplacementTo(target, loc, Long)
    {
      size := sizes[i];
      disp := Wrap(target - (loc + Bytes(size)));
      if FitsSigned(Signed(disp), size) {
        break;
      }
      i := i + 1;
    }
  }
}
