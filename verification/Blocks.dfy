/** Disk blocks as byte arrays, and the little-endian 32-bit word view the
    kernel takes of them when it casts `b->data` to a log header or to an
    array of block numbers. */
module Blocks {
  const BSIZE: nat := 1024
  const WORDS: nat := 256
  const UINT_MAX: nat := 0x1_0000_0000

  type byte = x: int | 0 <= x < 256
  type Block = b: seq<byte> | |b| == BSIZE witness seq(BSIZE, _ => 0)

  function ZeroBlock(): (b: Block)
    ensures forall i :: 0 <= i < BSIZE ==> b[i] == 0
  {
    seq(BSIZE, _ => 0)
  }

  function GetWord(b: Block, i: nat): (v: nat)
    requires i < WORDS
    ensures v < UINT_MAX
  {
    var b0: int, b1: int, b2: int, b3: int := b[4*i], b[4*i+1], b[4*i+2], b[4*i+3];
    b0 + 0x100 * b1 + 0x1_0000 * b2 + 0x100_0000 * b3
  }

  function PutWord(b: Block, i: nat, v: nat): (r: Block)
    requires i < WORDS && v < UINT_MAX
    ensures GetWord(r, i) == v
    ensures forall j: nat :: j < WORDS && j != i ==> GetWord(r, j) == GetWord(b, j)
  {
    var r := b[4*i := v % 0x100][4*i+1 := (v / 0x100) % 0x100]
              [4*i+2 := (v / 0x1_0000) % 0x100][4*i+3 := v / 0x100_0000];
    WordSplits(v);
    r
  }

  lemma WordSplits(v: nat)
    requires v < UINT_MAX
    ensures v / 0x100_0000 < 0x100
    ensures v == v % 0x100 + 0x100 * ((v / 0x100) % 0x100)
                 + 0x1_0000 * ((v / 0x1_0000) % 0x100) + 0x100_0000 * (v / 0x100_0000)
  {
  }

  lemma ZeroBlockWords(i: nat)
    requires i < WORDS
    ensures GetWord(ZeroBlock(), i) == 0
  {
  }
}
