/** A block's two checks: the CRC-16 of its header, table driven, and the CRC-32 of the whole block. */
module Crc {
  import opened Bytes

  /** A CRC-16 as it is computed. */
  datatype Check = Check(v: bv16)

  const Zero: Check := Check(0)

  function Sum(a: Check, b: Check): Check {
    Check(a.v ^ b.v)
  }

  function Widen(b: byte): Check {
    Check(b as bv16)
  }

  function Low(c: Check): byte {
    (c.v & 0xFF) as byte
  }

  function High(c: Check): byte {
    (c.v >> 8) as byte
  }

  // ---- The definition: reflected division by %XA001, a bit at a time ----

  function Odd(c: Check): bool {
    c.v & 1 == 1
  }

  /** One more bit, low-order first, divided in. */
  function BitStep(c: Check, bit: bool): Check {
    if Odd(c) != bit then Check((c.v >> 1) ^ 0xA001) else Check(c.v >> 1)
  }

  function Bit(b: byte, k: nat): bool
    requires k < 8
  {
    (b >> k) & 1 == 1
  }

  /** The bits of b divided in, from the k-th on. */
  function BitsFrom(c: Check, b: byte, k: nat): Check
    requires k <= 8
    decreases 8 - k
  {
    if k == 8 then c else BitsFrom(BitStep(c, Bit(b, k)), b, k + 1)
  }

  function Remainder(data: bytes): Check {
    if data == [] then Zero else BitsFrom(Remainder(data[..|data| - 1]), data[|data| - 1], 0)
  }

  // ---- The table ----

  /** crc16Table's inner step: shift right, and take in the polynomial if a 1 was shifted out. */
  function Shift(c: Check): Check {
    Check((c.v >> 1) ^ (0xA001 & (0 - (c.v & 1))))
  }

  function Shifts(c: Check, k: nat): Check {
    if k == 0 then c else Shift(Shifts(c, k - 1))
  }

  function HighPart(c: Check): Check {
    Check(c.v >> 8)
  }

  /** crc16's step, the table's entry being eight shifts of its index. */
  function TableStep(c: Check, b: byte): Check {
    Sum(HighPart(c), Shifts(Widen(Low(c) ^ b), 8))
  }

  function Crc16(data: bytes): Check {
    if data == [] then Zero else TableStep(Crc16(data[..|data| - 1]), data[|data| - 1])
  }

  lemma ShiftCases(c: Check)
    ensures Odd(c) ==> Shift(c) == Check((c.v >> 1) ^ 0xA001)
    ensures !Odd(c) ==> Shift(c) == Check(c.v >> 1)
  {
    if Odd(c) {
    } else {
      assert c.v & 1 == 0;
    }
  }

  lemma ShiftLinear(x: Check, y: Check)
    ensures Shift(Sum(x, y)) == Sum(Shift(x), Shift(y))
  {
  }

  lemma {:induction false} ShiftsLinear(x: Check, y: Check, k: nat)
    ensures Shifts(Sum(x, y), k) == Sum(Shifts(x, k), Shifts(y, k))
  {
    if k > 0 {
      hide Shift, Sum;
      ShiftsLinear(x, y, k - 1);
      ShiftLinear(Shifts(x, k - 1), Shifts(y, k - 1));
    }
  }

  // ---- Eight shifts of a whole byte are its eight bits divided in ----

  function Unit(bit: bool): Check {
    if bit then Check(1) else Zero
  }

  lemma BitStepIsShift(c: Check, bit: bool)
    ensures BitStep(c, bit) == Shift(Sum(c, Unit(bit)))
  {
    ShiftCases(Sum(c, Unit(bit)));
    if bit {
      FlipsLow(c.v);
    } else {
      KeepsLow(c.v);
    }
  }

  lemma FlipsLow(v: bv16)
    ensures (v ^ 1) & 1 == 1 <==> v & 1 != 1
    ensures (v ^ 1) >> 1 == v >> 1
  {
  }

  lemma KeepsLow(v: bv16)
    ensures v ^ 0 == v
  {
  }

  /** What is left of b after its first k bits. */
  function Rest(b: byte, k: nat): Check
    requires k <= 8
  {
    Widen(b >> k)
  }

  lemma RestStep(b: byte, k: nat)
    requires k < 8
    ensures Rest(b, k + 1) == Shift(Sum(Rest(b, k), Unit(Bit(b, k))))
  {
    var r := b >> k;
    NextShift(b, k);
    if r & 1 == 1 {
      OddByteShifts(r);
    } else {
      EvenByteShifts(r);
    }
  }

  lemma NextShift(b: byte, k: nat)
    requires k < 8
    ensures b >> (k + 1) == (b >> k) >> 1
  {
    if k == 0 {
    } else if k == 1 {
    } else if k == 2 {
    } else if k == 3 {
    } else if k == 4 {
    } else if k == 5 {
    } else if k == 6 {
    } else {
    }
  }

  lemma OddByteShifts(r: byte)
    requires r & 1 == 1
    ensures Widen(r >> 1) == Shift(Sum(Widen(r), Check(1)))
  {
  }

  lemma EvenByteShifts(r: byte)
    requires r & 1 != 1
    ensures Widen(r >> 1) == Shift(Sum(Widen(r), Zero))
  {
    assert r & 1 == 0;
  }

  lemma SumCancels(c: Check, r: Check, u: Check)
    ensures Sum(Sum(c, u), Sum(r, u)) == Sum(c, r)
  {
  }

  lemma SumZero(c: Check)
    ensures Sum(c, Zero) == c && Sum(Zero, c) == c
  {
  }

  lemma {:induction false} ShiftsOfShift(c: Check, n: nat)
    ensures Shifts(Shift(c), n) == Shifts(c, n + 1)
  {
    hide Shift;
    if n > 0 {
      ShiftsOfShift(c, n - 1);
    } else {
      assert Shifts(c, 1) == Shift(Shifts(c, 0));
    }
  }

  /** Dividing in a byte's bits one at a time is adding the byte and shifting eight times. */
  lemma {:induction false} BitsAreShifts(c: Check, b: byte, k: nat)
    requires k <= 8
    ensures BitsFrom(c, b, k) == Shifts(Sum(c, Rest(b, k)), 8 - k)
    decreases 8 - k
  {
    if k == 8 {
      AllShifted(b);
      SumZero(c);
    } else {
      hide Shift, Sum, BitStep, Unit, Rest, Bit;
      var bit := Bit(b, k);
      var u := Unit(bit);
      BitsAreShifts(BitStep(c, bit), b, k + 1);
      BitStepIsShift(c, bit);
      RestStep(b, k);
      ShiftLinear(Sum(c, u), Sum(Rest(b, k), u));
      SumCancels(c, Rest(b, k), u);
      ShiftsOfShift(Sum(c, Rest(b, k)), 7 - k);
    }
  }

  lemma AllShifted(b: byte)
    ensures Rest(b, 8) == Zero
  {
  }

  // ---- The table's step is the same ----

  lemma LowHighBits(v: bv16, b: byte)
    ensures v ^ (b as bv16) == (v & 0xFF00) ^ ((((v & 0xFF) as byte) ^ b) as bv16)
  {
  }

  lemma LowHigh(c: Check, b: byte)
    ensures Sum(c, Widen(b)) == Sum(Check(c.v & 0xFF00), Widen(Low(c) ^ b))
  {
    LowHighBits(c.v, b);
  }

  lemma HighBits(v: bv16)
    ensures v & 0xFF00 & 0xFF == 0 && (v & 0xFF00) >> 8 == v >> 8
  {
  }

  /** u is even, and w its half. */
  predicate Halves(u: bv16, w: bv16) {
    u & 1 == 0 && u >> 1 == w
  }

  lemma HalvesDown(v: bv16)
    requires v & 0xFF == 0
    ensures Halves(v, v >> 1) && Halves(v >> 1, v >> 2) && Halves(v >> 2, v >> 3) && Halves(v >> 3, v >> 4)
    ensures Halves(v >> 4, v >> 5) && Halves(v >> 5, v >> 6) && Halves(v >> 6, v >> 7) && Halves(v >> 7, v >> 8)
  {
  }

  /** Shifting an even value only shifts it. */
  lemma EvenShift(c: Check, k: nat, u: bv16, w: bv16)
    requires Shifts(c, k) == Check(u) && Halves(u, w)
    ensures Shifts(c, k + 1) == Check(w)
  {
  }

  lemma EvenShiftsOf(c: Check, k: nat, u0: bv16, u1: bv16, u2: bv16, u3: bv16, u4: bv16)
    requires Shifts(c, k) == Check(u0) && Halves(u0, u1) && Halves(u1, u2) && Halves(u2, u3) && Halves(u3, u4)
    ensures Shifts(c, k + 4) == Check(u4)
  {
    hide Halves, Shifts;
    EvenShift(c, k, u0, u1);
    EvenShift(c, k + 1, u1, u2);
    EvenShift(c, k + 2, u2, u3);
    EvenShift(c, k + 3, u3, u4);
  }

  /** Nothing is shifted out of a value whose low byte is zero. */
  lemma EvenShifts(v: bv16)
    requires v & 0xFF == 0
    ensures Shifts(Check(v), 8) == Check(v >> 8)
  {
    HalvesDown(v);
    var c := Check(v);
    assert Shifts(c, 0) == c;
    hide Halves, Shifts;
    EvenShiftsOf(c, 0, v, v >> 1, v >> 2, v >> 3, v >> 4);
    EvenShiftsOf(c, 4, v >> 4, v >> 5, v >> 6, v >> 7, v >> 8);
  }

  lemma HighShiftsDown(c: Check)
    ensures Shifts(Check(c.v & 0xFF00), 8) == HighPart(c)
  {
    hide Shifts;
    HighBits(c.v);
    EvenShifts(c.v & 0xFF00);
  }

  lemma TableStepIsShifts(c: Check, b: byte)
    ensures TableStep(c, b) == Shifts(Sum(c, Widen(b)), 8)
  {
    LowHigh(c, b);
    HighShiftsDown(c);
    hide Shift, Sum, Low, Widen, HighPart;
    ShiftsLinear(Check(c.v & 0xFF00), Widen(Low(c) ^ b), 8);
  }

  /** The table-driven CRC is the bit-at-a-time division. */
  lemma {:induction false} Crc16IsRemainder(data: bytes)
    ensures Crc16(data) == Remainder(data)
  {
    if data != [] {
      var c, b := Crc16(data[..|data| - 1]), data[|data| - 1];
      Crc16IsRemainder(data[..|data| - 1]);
      FirstRest(b);
      hide TableStep, BitsFrom, Rest, Widen, Sum;
      TableStepIsShifts(c, b);
      BitsAreShifts(c, b, 0);
    }
  }

  lemma FirstRest(b: byte)
    ensures Rest(b, 0) == Widen(b)
  {
    assert b >> 0 == b;
  }

  // ---- Linearity and detection ----

  lemma StepSums(c: Check, a: byte, d: Check, b: byte)
    ensures Sum(Sum(c, d), Widen(a ^ b)) == Sum(Sum(c, Widen(a)), Sum(d, Widen(b)))
  {
  }

  lemma TableStepLinear(c: Check, a: byte, d: Check, b: byte)
    ensures TableStep(Sum(c, d), a ^ b) == Sum(TableStep(c, a), TableStep(d, b))
  {
    hide TableStep, Sum, Widen;
    TableStepIsShifts(Sum(c, d), a ^ b);
    TableStepIsShifts(c, a);
    TableStepIsShifts(d, b);
    StepSums(c, a, d, b);
    ShiftsLinear(Sum(c, Widen(a)), Sum(d, Widen(b)), 8);
  }

  /** The CRC of the exclusive or is the exclusive or of the CRCs. */
  lemma {:induction false} Crc16Linear(x: bytes, y: bytes)
    requires |x| == |y|
    ensures Crc16(Xor(x, y)) == Sum(Crc16(x), Crc16(y))
  {
    if x == [] {
      SumZero(Zero);
    } else {
      hide TableStep, Sum;
      var n := |x| - 1;
      assert Xor(x, y)[..n] == Xor(x[..n], y[..n]);
      Crc16Linear(x[..n], y[..n]);
      TableStepLinear(Crc16(x[..n]), x[n], Crc16(y[..n]), y[n]);
    }
  }

  lemma ShiftOfNonzero(c: Check)
    ensures Shift(c) == Zero <==> c == Zero
  {
  }

  lemma {:induction false} ShiftsOfNonzero(c: Check, k: nat)
    ensures Shifts(c, k) == Zero <==> c == Zero
  {
    if k > 0 {
      hide Shift;
      ShiftsOfNonzero(c, k - 1);
      ShiftOfNonzero(Shifts(c, k - 1));
    }
  }

  /** A zero byte keeps a nonzero remainder nonzero, and a zero one zero. */
  lemma ZeroByteKeeps(c: Check)
    ensures TableStep(c, 0) == Zero <==> c == Zero
  {
    hide TableStep, Sum, Widen;
    TableStepIsShifts(c, 0);
    WidenZero();
    SumZero(c);
    ShiftsOfNonzero(c, 8);
  }

  lemma WidenZero()
    ensures Widen(0) == Zero
  {
  }

  /** One byte, shifted in, reaches the high half of the remainder, where the next byte cannot cancel it. */
  lemma ByteReachesHigh(a: byte)
    requires a != 0
    ensures HighPart(Shifts(Widen(a), 8)) != Zero
  {
    var c0 := Widen(a);
    var c1 := Shift(c0);
    var c2 := Shift(c1);
    var c3 := Shift(c2);
    var c4 := Shift(c3);
    var c5 := Shift(c4);
    var c6 := Shift(c5);
    var c7 := Shift(c6);
    assert Shifts(c0, 1) == c1;
    assert Shifts(c0, 2) == c2;
    assert Shifts(c0, 3) == c3;
    assert Shifts(c0, 4) == c4;
    assert Shifts(c0, 5) == c5;
    assert Shifts(c0, 6) == c6;
    assert Shifts(c0, 7) == c7;
    assert Shifts(c0, 8) == Shift(c7);
  }

  lemma HighNotCancelled(c: Check, b: byte)
    ensures HighPart(c) != Zero ==> Sum(c, Widen(b)) != Zero
    ensures c == Zero && b != 0 ==> Sum(c, Widen(b)) != Zero
  {
  }

  /** Two bytes, not both zero, after zeros leave a nonzero remainder. */
  lemma TwoBytesRemain(a: byte, b: byte)
    requires a != 0 || b != 0
    ensures TableStep(TableStep(Zero, a), b) != Zero
  {
    hide TableStep, Sum, Widen, HighPart;
    var c := Shifts(Widen(a), 8);
    TableStepIsShifts(Zero, a);
    SumZero(Widen(a));
    TableStepIsShifts(c, b);
    ShiftsOfNonzero(Sum(c, Widen(b)), 8);
    HighNotCancelled(c, b);
    if a != 0 {
      ByteReachesHigh(a);
    } else {
      WidenZero();
      ShiftsOfNonzero(Widen(a), 8);
    }
  }

  lemma {:induction false} ZerosRemain(z: bytes)
    requires forall k :: 0 <= k < |z| ==> z[k] == 0
    ensures Crc16(z) == Zero
  {
    if z != [] {
      hide TableStep;
      ZerosRemain(z[..|z| - 1]);
      ZeroByteKeeps(Zero);
    }
  }

  /** A nonzero pattern confined to two adjacent bytes, so any burst within them, leaves a nonzero remainder. */
  lemma {:induction false} AdjacentBytesRemain(e: bytes, i: nat)
    requires i + 1 < |e| && (e[i] != 0 || e[i + 1] != 0)
    requires forall k :: 0 <= k < |e| && k != i && k != i + 1 ==> e[k] == 0
    ensures Crc16(e) != Zero
  {
    hide TableStep;
    var n := |e| - 1;
    if n == i + 1 {
      assert e[..n][..n - 1] == e[..i];
      ZerosRemain(e[..i]);
      TwoBytesRemain(e[i], e[n]);
    } else {
      AdjacentBytesRemain(e[..n], i);
      ZeroByteKeeps(Crc16(e[..n]));
    }
  }

  // ---- The checks of a block ----

  const HeaderSize: nat := 256
  const CrcAt: nat := 36
  const ChecksumAt: nat := 254

  /** The header with the fields neither check covers taken as zero (clearChecks). */
  function Cleared(header: bytes): (r: bytes)
    requires |header| == HeaderSize
    ensures |r| == HeaderSize
    ensures forall i :: 0 <= i < HeaderSize ==>
              r[i] == if CrcAt <= i < CrcAt + 4 || ChecksumAt <= i then 0 else header[i]
  {
    Put(Put(header, CrcAt, Zeros(4)), ChecksumAt, Zeros(2))
  }

  /** The checksum block's header should carry, as its two bytes. */
  function HeaderChecksum(block: bytes): (c: bytes)
    requires |block| >= HeaderSize
    ensures |c| == 2
  {
    var crc := Crc16(Cleared(block[..HeaderSize]));
    [Low(crc), High(crc)]
  }

  /** The CRC-32 (AUTODIN-II, reflected, from all ones, complemented) of data. */
  function Crc32(data: bytes): bv32 {
    !Crc32From(data)
  }

  function Crc32From(data: bytes): bv32 {
    if data == [] then 0xFFFF_FFFF
    else Crc32Bits(Crc32From(data[..|data| - 1]) ^ (data[|data| - 1] as bv32), 8)
  }

  function Crc32Bits(crc: bv32, n: nat): bv32
    decreases n
  {
    if n == 0 then crc else Crc32Bits((crc >> 1) ^ (0xEDB8_8320 & (0 - (crc & 1))), n - 1)
  }

  /** The data CRC block should carry, as its four bytes. */
  function DataCRC(block: bytes): (c: bytes)
    requires |block| >= HeaderSize
    ensures |c| == 4
  {
    var crc := Crc32(Cleared(block[..HeaderSize]) + block[HeaderSize..]);
    [(crc & 0xFF) as byte, ((crc >> 8) & 0xFF) as byte, ((crc >> 16) & 0xFF) as byte, (crc >> 24) as byte]
  }

  /** Headers that differ, where the checksum looks, only within two adjacent bytes have different checksums. */
  lemma ChecksumDetects(x: bytes, y: bytes, i: nat)
    requires |x| >= HeaderSize && |y| >= HeaderSize && i + 1 < HeaderSize
    requires var cx, cy := Cleared(x[..HeaderSize]), Cleared(y[..HeaderSize]);
             cx != cy && forall k :: 0 <= k < HeaderSize && k != i && k != i + 1 ==> cx[k] == cy[k]
    ensures HeaderChecksum(x) != HeaderChecksum(y)
  {
    var cx, cy := Cleared(x[..HeaderSize]), Cleared(y[..HeaderSize]);
    hide Sum, Low, High, Crc16, Cleared;
    var e := Xor(cx, cy);
    XorOfEqual(cx[i], cy[i]);
    XorOfEqual(cx[i + 1], cy[i + 1]);
    assert cx[i] == cy[i] && cx[i + 1] == cy[i + 1] ==> cx == cy;
    forall k | 0 <= k < |e| && k != i && k != i + 1
      ensures e[k] == 0
    {
      XorOfEqual(cx[k], cy[k]);
    }
    AdjacentBytesRemain(e, i);
    Crc16Linear(cx, cy);
    ChecksDiffer(Crc16(cx), Crc16(cy));
  }

  lemma XorOfEqual(a: byte, b: byte)
    ensures a ^ b == 0 <==> a == b
  {
  }

  lemma ChecksDiffer(a: Check, b: Check)
    requires Sum(a, b) != Zero
    ensures Low(a) != Low(b) || High(a) != High(b)
  {
  }

  // ---- The same, as the code computes it ----

  /** crc16Table. */
  method Table() returns (table: seq<Check>)
    ensures |table| == 256 && forall n :: 0 <= n < 256 ==> table[n] == Shifts(Widen(ByteOf(n)), 8)
  {
    hide *;
    table := [];
    for n := 0 to 256
      invariant |table| == n && forall k :: 0 <= k < n ==> table[k] == Shifts(Widen(ByteOf(k)), 8)
    {
      var entry := Entry(ByteOf(n));
      table := table + [entry];
    }
  }

  method Entry(n: byte) returns (crc: Check)
    ensures crc == Shifts(Widen(n), 8)
  {
    hide Shift;
    crc := Widen(n);
    for k := 0 to 8
      invariant crc == Shifts(Widen(n), k)
    {
      ShiftCases(crc);
      if Odd(crc) {
        crc := Check((crc.v >> 1) ^ 0xA001);
      } else {
        crc := Check(crc.v >> 1);
      }
    }
  }

  /** crc16: proved to be the remainder, a bit at a time, of data. */
  method ComputeCrc16(data: bytes) returns (crc: Check)
    ensures crc == Remainder(data)
  {
    hide Sum, HighPart, Shifts, Low;
    var table := Table();
    crc := Zero;
    for i := 0 to |data|
      invariant crc == Crc16(data[..i])
    {
      assert data[..i + 1][..i] == data[..i];
      var b := Low(crc) ^ data[i];
      ValueInjective(ByteOf(ValueOf(b)), b);
      crc := Sum(HighPart(crc), table[ValueOf(b)]);
    }
    assert data[..|data|] == data;
    Crc16IsRemainder(data);
  }
}
