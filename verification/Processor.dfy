/** The processor state that interrupts of a process touch: status longword, stack pointers and memory. */
module Processor {
  import opened Division
  import opened Words

  /** Access modes: kernel 0, executive 1, supervisor 2, user 3; kernel is the most privileged. */
  type mode = m: nat | m < 4

  const Kernel: mode := 0
  const Executive: mode := 1
  const User: mode := 3

  // ---- The processor status longword (registers/psl.go) ----

  function CurMod(psl: word): mode {
    psl / 0x100_0000 % 4
  }

  function SetCurMod(psl: word, m: mode): word {
    psl - CurMod(psl) * 0x100_0000 + m * 0x100_0000
  }

  function PrvMod(psl: word): mode {
    psl / 0x40_0000 % 4
  }

  function SetPrvMod(psl: word, m: mode): word {
    psl - PrvMod(psl) * 0x40_0000 + m * 0x40_0000
  }

  function IPL(psl: word): nat {
    psl / 0x1_0000 % 32
  }

  /** On the interrupt stack. */
  function IS(psl: word): bool {
    psl / 0x400_0000 % 2 == 1
  }

  function SetIS(psl: word, on: bool): word {
    if IS(psl) == on then psl else if on then psl + 0x400_0000 else psl - 0x400_0000
  }

  /** T and TP, the trace bits, clear. */
  function Untraced(psl: word): word {
    psl - psl / 16 % 2 * 16 - psl / 0x4000_0000 % 2 * 0x4000_0000
  }

  /** The longword of the fields: everything below PRV_MOD, PRV_MOD, CUR_MOD, IS, and everything above. */
  function Compose(low: nat, prv: nat, cur: nat, intr: nat, high: nat): nat {
    low + 0x40_0000 * prv + 0x100_0000 * cur + 0x400_0000 * intr + 0x800_0000 * high
  }

  predicate Fields(psl: word, low: nat, prv: nat, cur: nat, intr: nat, high: nat) {
    low < 0x40_0000 && prv < 4 && cur < 4 && intr < 2 && high < 32 && psl == Compose(low, prv, cur, intr, high)
  }

  lemma Split(psl: word) returns (low: nat, prv: nat, cur: nat, intr: nat, high: nat)
    ensures Fields(psl, low, prv, cur, intr, high)
  {
    var a, b, c := psl / 0x40_0000, psl / 0x100_0000, psl / 0x400_0000;
    low, prv, cur, intr, high := psl % 0x40_0000, a % 4, b % 4, c % 2, psl / 0x800_0000;
    Nested(psl);
  }

  lemma Nested(x: word)
    ensures x / 0x40_0000 / 4 == x / 0x100_0000 && x / 0x100_0000 / 4 == x / 0x400_0000
    ensures x / 0x400_0000 / 2 == x / 0x800_0000
  {
  }

  lemma FieldsAre(psl: word, low: nat, prv: nat, cur: nat, intr: nat, high: nat)
    requires Fields(psl, low, prv, cur, intr, high)
    ensures PrvMod(psl) == prv && CurMod(psl) == cur && (IS(psl) <==> intr == 1) && IPL(psl) == low / 0x1_0000 % 32
  {
    DivModUnique(psl, 0x40_0000, prv + 4 * cur + 16 * intr + 32 * high, low);
    DivModUnique(psl, 0x100_0000, cur + 4 * intr + 8 * high, low + 0x40_0000 * prv);
    DivModUnique(psl, 0x400_0000, intr + 2 * high, low + 0x40_0000 * prv + 0x100_0000 * cur);
    var above := prv + 4 * cur + 16 * intr + 32 * high;
    DivModUnique(psl, 0x1_0000, low / 0x1_0000 + 64 * above, low % 0x1_0000);
    hide Compose;
    assert (low / 0x1_0000 + 64 * above) % 32 == low / 0x1_0000 % 32;
  }

  lemma SetCurModFields(psl: word, m: mode)
    ensures var r := SetCurMod(psl, m);
            CurMod(r) == m && PrvMod(r) == PrvMod(psl) && IPL(r) == IPL(psl) && IS(r) == IS(psl)
    ensures SetCurMod(psl, CurMod(psl)) == psl
  {
    hide CurMod, PrvMod, IPL, IS;
    var low, prv, cur, intr, high := Split(psl);
    FieldsAre(psl, low, prv, cur, intr, high);
    FieldsAre(SetCurMod(psl, m), low, prv, m, intr, high);
  }

  lemma SetPrvModFields(psl: word, m: mode)
    ensures var r := SetPrvMod(psl, m);
            PrvMod(r) == m && CurMod(r) == CurMod(psl) && IPL(r) == IPL(psl) && IS(r) == IS(psl)
    ensures SetPrvMod(psl, PrvMod(psl)) == psl
  {
    hide CurMod, PrvMod, IPL, IS;
    var low, prv, cur, intr, high := Split(psl);
    FieldsAre(psl, low, prv, cur, intr, high);
    FieldsAre(SetPrvMod(psl, m), low, m, cur, intr, high);
  }

  lemma SetISFields(psl: word, on: bool)
    ensures var r := SetIS(psl, on);
            IS(r) == on && CurMod(r) == CurMod(psl) && PrvMod(r) == PrvMod(psl) && IPL(r) == IPL(psl)
    ensures SetIS(psl, IS(psl)) == psl
  {
    hide CurMod, PrvMod, IPL, IS;
    var low, prv, cur, intr, high := Split(psl);
    FieldsAre(psl, low, prv, cur, intr, high);
    FieldsAre(SetIS(psl, on), low, prv, cur, if on then 1 else 0, high);
  }

  lemma UntracedFields(psl: word)
    ensures var r := Untraced(psl);
            CurMod(r) == CurMod(psl) && PrvMod(r) == PrvMod(psl) && IPL(r) == IPL(psl) && IS(r) == IS(psl)
  {
    hide CurMod, PrvMod, IPL, IS;
    var low, prv, cur, intr, high := Split(psl);
    FieldsAre(psl, low, prv, cur, intr, high);
    TraceBits(psl, low, prv, cur, intr, high);
    TraceBit(low);
    TraceBit30(high);
    var t, tp := low / 16 % 2, high / 8 % 2;
    FieldsAre(Untraced(psl), low - t * 16, prv, cur, intr, high - tp * 8);
  }

  lemma TraceBits(psl: word, low: nat, prv: nat, cur: nat, intr: nat, high: nat)
    requires Fields(psl, low, prv, cur, intr, high)
    ensures psl / 16 % 2 == low / 16 % 2 && psl / 0x4000_0000 % 2 == high / 8 % 2
  {
    DivModUnique(psl, 16, low / 16 + 0x4_0000 * (prv + 4 * cur + 16 * intr + 32 * high), low % 16);
    DivModUnique(psl, 0x4000_0000, high / 8, psl - 0x4000_0000 * (high / 8));
  }

  lemma TraceBit30(high: nat)
    ensures high / 8 % 2 * 8 <= high
  {
  }

  lemma TraceBit(low: nat)
    ensures low / 16 % 2 * 16 <= low && (low - low / 16 % 2 * 16) / 0x1_0000 == low / 0x1_0000
  {
    var q, m := low / 0x1_0000, low % 0x1_0000;
    DivModUnique(low, 16, q * 4096 + m / 16, m % 16);
    var t := m / 16 % 2;
    assert (q * 4096 + m / 16) % 2 == t;
    DivModUnique(low - 16 * t, 0x1_0000, q, m - 16 * t);
  }

  // ---- Memory, a longword at a time ----

  /** How far address p is past a, modulo 2^32. */
  function Past(p: word, a: word): word {
    Wrap(p - a)
  }

  function StoreLongword(mem: Memory, a: word, v: word): Memory {
    Write(mem, a, LittleEndian(v, 4))
  }

  function LoadLongword(mem: Memory, a: word): word {
    var b0: int, b1: int, b2: int, b3: int := At(mem, a), At(mem, Wrap(a + 1)), At(mem, Wrap(a + 2)),
      At(mem, Wrap(a + 3));
    b0 + b1 * 0x100 + b2 * 0x1_0000 + b3 * 0x100_0000
  }

  lemma {:induction false} WriteWraps(mem: Memory, a: word, data: seq<octet>, p: word)
    requires |data| <= 4
    ensures At(Write(mem, a, data), p) == if Past(p, a) < |data| then data[Past(p, a)] else At(mem, p)
    decreases |data|
  {
    if data != [] {
      WriteWraps(mem[a := data[0]], Wrap(a + 1), data[1..], p);
      PastNext(p, a);
    }
  }

  lemma PastNext(p: word, a: word)
    ensures Past(p, a) == 0 <==> p == a
    ensures p != a ==> Past(p, Wrap(a + 1)) == Past(p, a) - 1
    ensures p == a ==> Past(p, Wrap(a + 1)) == 0xFFFF_FFFF
  {
  }

  /** What is stored is loaded back, and no other longword's bytes change. */
  lemma LoadStored(mem: Memory, a: word, v: word, b: word)
    ensures LoadLongword(StoreLongword(mem, a, v), a) == v
    ensures 4 <= Past(b, a) <= 0xFFFF_FFFC ==> LoadLongword(StoreLongword(mem, a, v), b) == LoadLongword(mem, b)
  {
    var d := LittleEndian(v, 4);
    var r := StoreLongword(mem, a, v);
    Bytes4(v);
    WriteWraps(mem, a, d, a);
    WriteWraps(mem, a, d, Wrap(a + 1));
    WriteWraps(mem, a, d, Wrap(a + 2));
    WriteWraps(mem, a, d, Wrap(a + 3));
    WriteWraps(mem, a, d, b);
    WriteWraps(mem, a, d, Wrap(b + 1));
    WriteWraps(mem, a, d, Wrap(b + 2));
    WriteWraps(mem, a, d, Wrap(b + 3));
    hide Write;
    PastSteps(a);
    PastFar(b, a);
    hide Past, LittleEndian;
  }

  lemma Bytes4(v: word)
    ensures var d := LittleEndian(v, 4);
            (d[0] as int) + (d[1] as int) * 0x100 + (d[2] as int) * 0x1_0000 + (d[3] as int) * 0x100_0000 == v
  {
    var a, b, c := v / 0x100, v / 0x1_0000, v / 0x100_0000;
    assert a / 0x100 == b && b / 0x100 == c by {
      NestedBytes(v);
    }
    assert v == a * 0x100 + v % 0x100 && a == b * 0x100 + a % 0x100 && b == c * 0x100 + b % 0x100;
  }

  lemma NestedBytes(x: word)
    ensures x / 0x100 / 0x100 == x / 0x1_0000 && x / 0x1_0000 / 0x100 == x / 0x100_0000
  {
  }

  lemma PastSteps(a: word)
    ensures Past(a, a) == 0 && Past(Wrap(a + 1), a) == 1 && Past(Wrap(a + 2), a) == 2 && Past(Wrap(a + 3), a) == 3
  {
  }

  lemma PastFar(b: word, a: word)
    ensures 4 <= Past(b, a) <= 0xFFFF_FFFC ==>
              4 <= Past(Wrap(b + 1), a) && 4 <= Past(Wrap(b + 2), a) && 4 <= Past(Wrap(b + 3), a)
  {
    PastPlus(b, a, 1);
    PastPlus(b, a, 2);
    PastPlus(b, a, 3);
  }

  lemma PastPlus(b: word, a: word, k: nat)
    requires k < 0x1_0000_0000
    ensures Past(Wrap(b + k), a) == if Past(b, a) + k < 0x1_0000_0000 then Past(b, a) + k
              else Past(b, a) + k - 0x1_0000_0000
  {
    WrapIs(b, k);
    PastIs(Wrap(b + k), a);
    PastIs(b, a);
    hide Past, Wrap;
  }

  lemma WrapIs(b: word, k: nat)
    requires k < 0x1_0000_0000
    ensures Wrap(b + k) == if (b as int) + k < 0x1_0000_0000 then b + k else (b as int) + k - 0x1_0000_0000
  {
  }

  /** Distances add up, modulo 2^32. */
  lemma PastChain(p: word, a: word, b: word)
    ensures Past(p, b) == (if Past(p, a) + Past(a, b) < 0x1_0000_0000 then Past(p, a) + Past(a, b)
                           else Past(p, a) + Past(a, b) - 0x1_0000_0000)
    ensures Past(a, b) == if Past(b, a) == 0 then 0 else 0x1_0000_0000 - Past(b, a)
  {
    PastIs(p, a);
    PastIs(a, b);
    PastIs(b, a);
    PastIs(p, b);
    hide Past;
  }

  lemma PastIs(p: word, a: word)
    ensures Past(p, a) == if p >= a then p - a else (p as int) - a + 0x1_0000_0000
  {
  }

  /** Memory is the same on the n bytes from a on. */
  ghost predicate SameAt(x: Memory, y: Memory, a: word, n: nat) {
    forall p: word :: Past(p, a) < n ==> At(x, p) == At(y, p)
  }

  lemma StoreElsewhere(mem: Memory, a: word, v: word, p: word)
    ensures Past(p, a) >= 4 ==> At(StoreLongword(mem, a, v), p) == At(mem, p)
  {
    WriteWraps(mem, a, LittleEndian(v, 4), p);
  }

  // ---- The machine ----

  /** The registers, the four stack-pointer registers, the status longword and memory. */
  datatype Cpu = Cpu(r0: word, r1: word, fp: word, sp: word, pc: word, pr: seq<word>, psl: word, mem: Memory)

  predicate CpuValid(c: Cpu) {
    |c.pr| == 4
  }

  /** The stack pointer of mode m, wherever it is held. */
  function StackPointer(c: Cpu, m: mode): word
    requires CpuValid(c)
  {
    if m == CurMod(c.psl) then c.sp else c.pr[m]
  }

  function StackPointers(c: Cpu): (s: seq<word>)
    requires CpuValid(c)
    ensures |s| == 4
  {
    [StackPointer(c, 0), StackPointer(c, 1), StackPointer(c, 2), StackPointer(c, 3)]
  }

  /** switchMode: SP saved for one mode and loaded for the other; nothing else in the PSL changes. */
  function SwitchMode(c: Cpu, from: mode, to: mode): (r: Cpu)
    requires CpuValid(c)
    ensures CpuValid(r)
  {
    var saved := c.pr[from := c.sp];
    c.(pr := saved, sp := saved[to], psl := SetCurMod(c.psl, to))
  }

  /** Changing mode moves no stack's pointer. */
  lemma SwitchKeepsStacks(c: Cpu, to: mode)
    requires CpuValid(c)
    ensures var r := SwitchMode(c, CurMod(c.psl), to);
            CurMod(r.psl) == to && StackPointers(r) == StackPointers(c)
  {
    SetCurModFields(c.psl, to);
    hide CurMod, SetCurMod;
  }
}
