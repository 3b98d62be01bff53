/** Byte strings as the save set stores them: little-endian integers, fields put at offsets, and exclusive or. */
module Bytes {
  type byte = bv8
  type bytes = seq<byte>

  type uint16 = x: nat | x < 0x1_0000
  type uint32 = x: nat | x < 0x1_0000_0000
  type uint64 = x: nat | x < 0x1_0000_0000_0000_0000

  function ValueOf(b: byte): (v: int)
    ensures 0 <= v < 256
  {
    b as int
  }

  lemma NextByte(b: byte)
    requires ValueOf(b) < 255
    ensures ValueOf(b + 1) == ValueOf(b) + 1
  {
  }

  /** The byte of value v. */
  function ByteOf(v: int): (b: byte)
    requires 0 <= v < 256
    ensures ValueOf(b) == v
  {
    if v == 0 then 0
    else
      NextByte(ByteOf(v - 1));
      ByteOf(v - 1) + 1
  }

  lemma ValueInjective(a: byte, b: byte)
    requires ValueOf(a) == ValueOf(b)
    ensures a == b
  {
  }

  // ---- Little-endian integers ----

  function Pow256(n: nat): nat {
    if n == 0 then 1 else 256 * Pow256(n - 1)
  }

  function LE(v: nat, n: nat): (b: bytes)
    ensures |b| == n
  {
    if n == 0 then [] else [ByteOf(v % 256)] + LE(v / 256, n - 1)
  }

  /** The little-endian value of b (unsigned, and binary.LittleEndian's readers). */
  function Unsigned(b: bytes): nat {
    if b == [] then 0 else ValueOf(b[0]) + 256 * Unsigned(b[1..])
  }

  lemma {:induction false} UnsignedOfLE(v: nat, n: nat)
    requires v < Pow256(n)
    ensures Unsigned(LE(v, n)) == v
  {
    if n > 0 {
      UnsignedOfLE(v / 256, n - 1);
      assert LE(v, n)[1..] == LE(v / 256, n - 1);
    }
  }

  lemma {:induction false} UnsignedBound(b: bytes)
    ensures Unsigned(b) < Pow256(|b|)
  {
    if b != [] {
      UnsignedBound(b[1..]);
    }
  }

  lemma Digits(a: nat, x: nat, b: nat, y: nat)
    requires a < 256 && b < 256 && a + 256 * x == b + 256 * y
    ensures a == b && x == y
  {
  }

  lemma {:induction false} UnsignedInjective(a: bytes, b: bytes)
    requires |a| == |b| && Unsigned(a) == Unsigned(b)
    ensures a == b
  {
    if a != [] {
      hide ValueOf;
      Digits(ValueOf(a[0]), Unsigned(a[1..]), ValueOf(b[0]), Unsigned(b[1..]));
      ValueInjective(a[0], b[0]);
      UnsignedInjective(a[1..], b[1..]);
      assert a == [a[0]] + a[1..] && b == [b[0]] + b[1..];
    }
  }

  lemma Powers()
    ensures Pow256(1) == 0x100 && Pow256(2) == 0x1_0000 && Pow256(4) == 0x1_0000_0000
    ensures Pow256(8) == 0x1_0000_0000_0000_0000
  {
    assert Pow256(1) == 256 && Pow256(2) == 256 * Pow256(1) && Pow256(3) == 256 * Pow256(2)
           && Pow256(4) == 256 * Pow256(3);
    assert Pow256(5) == 256 * Pow256(4) && Pow256(6) == 256 * Pow256(5) && Pow256(7) == 256 * Pow256(6);
  }

  // ---- Fields ----

  function Zeros(n: nat): (b: bytes)
    ensures |b| == n
  {
    seq(n, i => 0 as byte)
  }

  /** block with data stored at offset at. */
  function Put(block: bytes, at: nat, data: bytes): (r: bytes)
    requires at + |data| <= |block|
    ensures |r| == |block|
    ensures forall i :: 0 <= i < |block| ==> r[i] == if at <= i < at + |data| then data[i - at] else block[i]
  {
    block[..at] + data + block[at + |data|..]
  }

  function Field(block: bytes, at: nat, n: nat): bytes
    requires at + n <= |block|
  {
    block[at..at + n]
  }

  lemma FieldOfPut(block: bytes, at: nat, data: bytes, from: nat, n: nat)
    requires at + |data| <= |block| && from + n <= |block|
    ensures from == at && n == |data| ==> Field(Put(block, at, data), from, n) == data
    ensures from + n <= at || at + |data| <= from ==> Field(Put(block, at, data), from, n) == Field(block, from, n)
  {
  }

  // ---- Exclusive or ----

  function Xor(a: bytes, b: bytes): (r: bytes)
    requires |a| == |b|
    ensures |r| == |a|
    ensures forall i :: 0 <= i < |a| ==> r[i] == a[i] ^ b[i]
  {
    seq(|a|, i requires 0 <= i < |a| => a[i] ^ b[i])
  }

  lemma XorLaws(a: bytes, b: bytes, c: bytes)
    requires |a| == |b| == |c|
    ensures Xor(a, b) == Xor(b, a)
    ensures Xor(Xor(a, b), c) == Xor(a, Xor(b, c))
    ensures Xor(Xor(a, b), b) == a
  {
  }

  ghost predicate AllSized(blocks: seq<bytes>, n: nat) {
    forall i :: 0 <= i < |blocks| ==> |blocks[i]| == n
  }

  /** The exclusive or of blocks of n bytes. */
  function XorAll(blocks: seq<bytes>, n: nat): (r: bytes)
    requires AllSized(blocks, n)
    ensures |r| == n
  {
    if blocks == [] then Zeros(n)
    else Xor(XorAll(blocks[..|blocks| - 1], n), blocks[|blocks| - 1])
  }

  lemma XorAllAppend(blocks: seq<bytes>, b: bytes, n: nat)
    requires AllSized(blocks, n) && |b| == n
    ensures AllSized(blocks + [b], n) && XorAll(blocks + [b], n) == Xor(XorAll(blocks, n), b)
  {
    assert (blocks + [b])[..|blocks|] == blocks;
  }

  /** The exclusive or of all but the i-th is the whole's exclusive or with the i-th. */
  lemma {:induction false} XorAllBut(blocks: seq<bytes>, n: nat, i: nat)
    requires AllSized(blocks, n) && i < |blocks|
    ensures var others := blocks[..i] + blocks[i + 1..];
            AllSized(others, n) && XorAll(others, n) == Xor(XorAll(blocks, n), blocks[i])
  {
    var last := |blocks| - 1;
    var front := blocks[..last];
    var others := blocks[..i] + blocks[i + 1..];
    if i == last {
      assert others == front;
      XorLaws(XorAll(front, n), blocks[last], blocks[last]);
    } else {
      XorAllBut(front, n, i);
      assert others[..|others| - 1] == front[..i] + front[i + 1..];
      assert others[|others| - 1] == blocks[last];
      XorLaws(XorAll(front, n), blocks[i], blocks[last]);
      XorLaws(XorAll(front, n), blocks[last], blocks[i]);
      XorLaws(blocks[i], blocks[last], blocks[last]);
    }
  }
}
