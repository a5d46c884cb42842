/** Bytes, little-endian words and bits in disk blocks, as kernel/fs.c reads and writes them. */
module FsCodec {
  import opened Basics

  const BSIZE: nat := 1024
  const BPB: nat := 8192         // bitmap bits in a block
  const NINDIRECT: nat := 256    // block numbers in a block
  const WORD: nat := 0x1_0000_0000

  type Block = s: seq<Byte> | |s| == BSIZE witness seq(BSIZE, _ => 0)

  function Zeros(): Block { seq(BSIZE, _ => 0) }

  // ---------------------------------------------------------------- bits of a byte

  predicate BitOf(x: nat, k: nat) {
    if k == 0 then x % 2 == 1 else BitOf(x / 2, k - 1)
  }

  /** x with bit k set or cleared. */
  function WithBit(x: nat, k: nat, on: bool): nat {
    if k == 0 then x / 2 * 2 + (if on then 1 else 0) else WithBit(x / 2, k - 1, on) * 2 + x % 2
  }

  lemma {:induction false} WithBitAt(x: nat, k: nat, on: bool, j: nat)
    ensures BitOf(WithBit(x, k, on), j) == if j == k then on else BitOf(x, j)
    decreases k
  {
    if k > 0 && j > 0 { WithBitAt(x / 2, k - 1, on, j - 1); }
  }

  function Pow2(k: nat): (r: nat)
    ensures r >= 1
  {
    if k == 0 then 1 else 2 * Pow2(k - 1)
  }

  lemma {:induction false} WithBitRange(x: nat, k: nat, on: bool, n: nat)
    requires k < n && x < Pow2(n)
    ensures WithBit(x, k, on) < Pow2(n)
    decreases k
  {
    var half := Pow2(n - 1);
    assert Pow2(n) == half + half && x / 2 < half;
    if k == 0 {
    } else {
      WithBitRange(x / 2, k - 1, on, n - 1);
    }
  }

  // ---------------------------------------------------------------- bits of a block

  predicate Bit(b: Block, i: nat)
    requires i < BPB
  {
    BitOf(b[i / 8], i % 8)
  }

  function SetBit(b: Block, i: nat, on: bool): (r: Block)
    requires i < BPB
    ensures forall j: nat :: j < BPB ==> Bit(r, j) == if j == i then on else Bit(b, j)
  {
    assert Pow2(8) == 256;
    WithBitRange(b[i / 8], i % 8, on, 8);
    assert forall j: nat :: j < BPB ==>
      Bit(b[i / 8 := WithBit(b[i / 8], i % 8, on)], j) == if j == i then on else Bit(b, j) by {
      forall j: nat | j < BPB
        ensures Bit(b[i / 8 := WithBit(b[i / 8], i % 8, on)], j) == if j == i then on else Bit(b, j) {
        WithBitAt(b[i / 8], i % 8, on, j % 8);
      }
    }
    b[i / 8 := WithBit(b[i / 8], i % 8, on)]
  }

  // ---------------------------------------------------------------- words of a block

  function Word(b: Block, i: nat): (r: nat)
    requires i < NINDIRECT
    ensures r < WORD
  {
    var b0: nat, b1: nat, b2: nat, b3: nat := b[4 * i], b[4 * i + 1], b[4 * i + 2], b[4 * i + 3];
    b0 + 0x100 * b1 + 0x1_0000 * b2 + 0x100_0000 * b3
  }

  function ByteOf(v: nat, d: nat): Byte
    requires d > 0
  {
    v / d % 256
  }

  lemma Split(v: nat)
    requires v < WORD
    ensures var b0: nat, b1: nat, b2: nat, b3: nat := ByteOf(v, 1), ByteOf(v, 0x100), ByteOf(v, 0x1_0000),
      ByteOf(v, 0x100_0000);
      b0 + 0x100 * b1 + 0x1_0000 * b2 + 0x100_0000 * b3 == v
  {
    assert v / 0x1_0000 == v / 0x100 / 0x100 && v / 0x100_0000 == v / 0x1_0000 / 0x100;
  }

  function SetWord(b: Block, i: nat, v: nat): (r: Block)
    requires i < NINDIRECT && v < WORD
    ensures forall j: nat :: j < NINDIRECT ==> Word(r, j) == if j == i then v else Word(b, j)
  {
    Split(v);
    b[4 * i := ByteOf(v, 1)][4 * i + 1 := ByteOf(v, 0x100)][4 * i + 2 := ByteOf(v, 0x1_0000)][4 * i + 3 := ByteOf(v,
      0x100_0000)]
  }

  lemma ZeroWords(i: nat)
    requires i < NINDIRECT
    ensures Word(Zeros(), i) == 0
  {
  }
}
