/** Machine longwords: the source's uint32, whose arithmetic is modulo 2^32. */
module Words {
  const TWO32: int := 0x1_0000_0000
  const SIGN: int := 0x8000_0000

  type word = x: int | 0 <= x < 0x1_0000_0000

  type octet = x: int | 0 <= x < 0x100

  function Wrap(x: int): word {
    x % 0x1_0000_0000
  }

  /** A longword read as two's complement, the source's int32(v). */
  function Signed(w: word): int {
    if w < 0x8000_0000 then w else w - 0x1_0000_0000
  }

  lemma WrapSum(x: int, y: int)
    ensures Wrap(Wrap(x) + y) == Wrap(x + y)
  {
  }

  lemma WrapNegative(s: int)
    requires 0 <= s < TWO32
    ensures Wrap(-s) == if s == 0 then 0 else TWO32 - s
  {
  }

  function Pow2(n: nat): nat {
    if n == 0 then 1 else 2 * Pow2(n - 1)
  }

  lemma Pow2Positive(n: nat)
    ensures Pow2(n) > 0
  {
  }

  function AndWords(a: word, b: word): word {
    ((a as bv32) & (b as bv32)) as word
  }

  function OrWords(a: word, b: word): word {
    ((a as bv32) | (b as bv32)) as word
  }

  function XorWords(a: word, b: word): word {
    ((a as bv32) ^ (b as bv32)) as word
  }

  /** The n low-order bytes of w, low-order first, as stored in memory. */
  function LittleEndian(w: word, n: nat): (bytes: seq<octet>)
    requires n <= 4
    ensures |bytes| == n
  {
    [w % 256, w / 256 % 256, w / 0x1_0000 % 256, w / 0x100_0000][..n]
  }

  // ---- Sparse memory: an address never written reads back as zero ----

  type Memory = map<word, octet>

  function At(mem: Memory, p: word): octet {
    if p in mem then mem[p] else 0
  }

  /** data stored from address at on; addresses are modulo 2^32. */
  function Write(mem: Memory, at: word, data: seq<octet>): Memory
    decreases |data|
  {
    if data == [] then mem else Write(mem[at := data[0]], Wrap(at + 1), data[1..])
  }

  /** p is one of the n bytes from at on, which do not run past the top of the address space. */
  predicate Within(p: int, at: word, n: nat) {
    at <= p < at + n
  }

  lemma {:induction false} WriteAt(mem: Memory, at: word, data: seq<octet>, p: word)
    requires at + |data| < TWO32
    ensures At(Write(mem, at, data), p) == if Within(p, at, |data|) then data[p - at] else At(mem, p)
    decreases |data|
  {
    if data != [] {
      WriteAt(mem[at := data[0]], at + 1, data[1..], p);
    }
  }
}
