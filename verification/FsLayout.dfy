/** On-disk structures of kernel/fs.h and kernel/fs.c: bitmap bits, block
    pointers of an inode, and the inode block format. */
module FsLayout {
  import opened Blocks

  const NDIRECT: nat := 12
  const NINDIRECT: nat := 256            // BSIZE / sizeof(uint)
  const MAXFILE: nat := NDIRECT + NINDIRECT
  const BPB: nat := BSIZE * 8            // bitmap bits per block
  const IPB: nat := 16                   // inodes per block

  datatype Superblock = Superblock(size: nat, ninodes: nat, inodestart: nat, bmapstart: nat, nmeta: nat) {
    function IBlock(inum: nat): nat { inum / IPB + inodestart }
    function BBlock(b: nat): nat { b / BPB + bmapstart }

    /** The metadata regions lie apart, below the data blocks, as mkfs lays them out. */
    ghost predicate WellFormed() {
      && 0 < inodestart && inodestart + ninodes / IPB < bmapstart
      && bmapstart + size / BPB < nmeta <= size < UINT_MAX
    }
  }

  // -------------------------------------------------------------------- bits

  function Pow2(k: nat): (p: nat)
    ensures p >= 1
  {
    if k == 0 then 1 else 2 * Pow2(k - 1)
  }

  /** Bit `k` of `x`, as `x & (1 << k)` tests it. */
  predicate Bit(x: nat, k: nat)
    decreases k
  {
    if k == 0 then x % 2 == 1 else Bit(x / 2, k - 1)
  }

  /** Setting a clear bit is adding it, and touches no other bit. */
  lemma {:induction false} SetBitAt(x: nat, k: nat, j: nat)
    requires !Bit(x, k)
    ensures Bit(x + Pow2(k), j) == (j == k || Bit(x, j))
    decreases k
  {
    if k == 0 {
      assert (x + 1) / 2 == x / 2;
    } else {
      assert (x + Pow2(k)) / 2 == x / 2 + Pow2(k - 1);
      assert (x + Pow2(k)) % 2 == x % 2;
      if j > 0 { SetBitAt(x / 2, k - 1, j - 1); }
    }
  }

  /** Clearing a set bit is subtracting it, and touches no other bit. */
  lemma {:induction false} ClearBitAt(x: nat, k: nat, j: nat)
    requires Bit(x, k)
    ensures x >= Pow2(k) && Bit(x - Pow2(k), j) == (j != k && Bit(x, j))
    decreases k
  {
    if k == 0 {
      assert (x - 1) / 2 == x / 2;
    } else {
      ClearBitAt(x / 2, k - 1, if j > 0 then j - 1 else 0);
      assert (x - Pow2(k)) / 2 == x / 2 - Pow2(k - 1);
      assert (x - Pow2(k)) % 2 == x % 2;
    }
  }

  lemma {:induction false} SetBitFits(x: nat, k: nat, n: nat)
    requires k < n && x < Pow2(n) && !Bit(x, k)
    ensures x + Pow2(k) < Pow2(n)
    decreases k
  {
    var h, top := x / 2, Pow2(n - 1);
    assert Pow2(n) == 2 * top;
    if k > 0 {
      assert x == 2 * h + x % 2 && h < top;
      SetBitFits(h, k - 1, n - 1);
    } else {
      assert x == 2 * h;
    }
  }

  lemma ByteIsEightBits()
    ensures Pow2(8) == 256
  {
    assert Pow2(4) == 16;
  }

  predicate TestBit(blk: Block, bi: nat)
    requires bi < BPB
  {
    Bit(blk[bi / 8], bi % 8)
  }

  /** data[bi/8] |= 1 << (bi % 8), on a clear bit. */
  function SetBit(blk: Block, bi: nat): (r: Block)
    requires bi < BPB && !TestBit(blk, bi)
    ensures forall j :: 0 <= j < BPB ==> TestBit(r, j) == (j == bi || TestBit(blk, j))
  {
    SetBitInBlock(blk, bi);
    blk[bi / 8 := blk[bi / 8] as int + Pow2(bi % 8)]
  }

  lemma SetBitInBlock(blk: Block, bi: nat)
    requires bi < BPB && !TestBit(blk, bi)
    ensures blk[bi / 8] as int + Pow2(bi % 8) < 256
    ensures forall j :: 0 <= j < BPB ==>
              TestBit(blk[bi / 8 := blk[bi / 8] as int + Pow2(bi % 8)], j) == (j == bi || TestBit(blk, j))
  {
    ByteIsEightBits();
    SetBitFits(blk[bi / 8], bi % 8, 8);
    var r := blk[bi / 8 := blk[bi / 8] as int + Pow2(bi % 8)];
    forall j | 0 <= j < BPB ensures TestBit(r, j) == (j == bi || TestBit(blk, j)) {
      SetBitAt(blk[bi / 8], bi % 8, j % 8);
    }
  }

  /** data[bi/8] &= ~(1 << (bi % 8)), on a set bit. */
  function ClearBit(blk: Block, bi: nat): (r: Block)
    requires bi < BPB && TestBit(blk, bi)
    ensures forall j :: 0 <= j < BPB ==> TestBit(r, j) == (j != bi && TestBit(blk, j))
  {
    ClearBitInBlock(blk, bi);
    blk[bi / 8 := blk[bi / 8] as int - Pow2(bi % 8)]
  }

  lemma ClearBitInBlock(blk: Block, bi: nat)
    requires bi < BPB && TestBit(blk, bi)
    ensures blk[bi / 8] as int >= Pow2(bi % 8)
    ensures forall j :: 0 <= j < BPB ==>
              TestBit(blk[bi / 8 := blk[bi / 8] as int - Pow2(bi % 8)], j) == (j != bi && TestBit(blk, j))
  {
    ClearBitAt(blk[bi / 8], bi % 8, 0);
    var r := blk[bi / 8 := blk[bi / 8] as int - Pow2(bi % 8)];
    forall j | 0 <= j < BPB ensures TestBit(r, j) == (j != bi && TestBit(blk, j)) {
      ClearBitAt(blk[bi / 8], bi % 8, j % 8);
    }
  }

  // ------------------------------------------------------------- block pointers

  /** The in-memory copy of an inode: its size and ip->addrs[NDIRECT+1]. */
  datatype Inode = Inode(size: nat, addrs: seq<nat>)

  type Store = seq<Block>

  /** Pointers of an inode: NDIRECT direct ones, the indirect block, and the
      NINDIRECT entries of the indirect block. */
  const INDIRECT: nat := NDIRECT
  const REFS: nat := NDIRECT + 1 + NINDIRECT

  predicate InodeOK(size: nat, ino: Inode) {
    && |ino.addrs| == NDIRECT + 1 && ino.size <= MAXFILE * BSIZE
    && (forall k :: 0 <= k <= NDIRECT ==> ino.addrs[k] < size)
  }

  function Ref(blocks: Store, ino: Inode, k: nat): nat
    requires InodeOK(|blocks|, ino) && k < REFS
  {
    if k <= INDIRECT then ino.addrs[k]
    else if ino.addrs[INDIRECT] == 0 then 0
    else GetWord(blocks[ino.addrs[INDIRECT]], k - NDIRECT - 1)
  }

  /** Which pointer leads to block number `bn` of the file. */
  function PtrOf(bn: nat): nat { if bn < NDIRECT then bn else bn + 1 }

  function DataBlock(blocks: Store, ino: Inode, bn: nat): nat
    requires InodeOK(|blocks|, ino) && bn < MAXFILE
  {
    Ref(blocks, ino, PtrOf(bn))
  }

  function Used(sb: Superblock, blocks: Store, b: nat): bool
    requires sb.WellFormed() && |blocks| == sb.size && b < sb.size
  {
    TestBit(blocks[sb.BBlock(b)], b % BPB)
  }

  datatype Owner = Owner(inum: nat, k: nat)

  ghost predicate Sized(sb: Superblock, blocks: Store, inodes: seq<Inode>) {
    && sb.WellFormed() && |blocks| == sb.size
    && (forall i :: 0 <= i < |inodes| ==> InodeOK(sb.size, inodes[i]))
  }

  ghost predicate OwnerPoints(sb: Superblock, blocks: Store, inodes: seq<Inode>, owner: map<nat, Owner>)
    requires Sized(sb, blocks, inodes)
  {
    forall b :: b in owner ==>
      && sb.nmeta <= b < sb.size && owner[b].inum < |inodes| && owner[b].k < REFS
      && Ref(blocks, inodes[owner[b].inum], owner[b].k) == b
  }

  ghost predicate PointerOwns(blocks: Store, inodes: seq<Inode>, owner: map<nat, Owner>)
    requires forall i :: 0 <= i < |inodes| ==> InodeOK(|blocks|, inodes[i])
  {
    forall i, k :: 0 <= i < |inodes| && 0 <= k < REFS && Ref(blocks, inodes[i], k) != 0 ==>
      Ref(blocks, inodes[i], k) in owner && owner[Ref(blocks, inodes[i], k)] == Owner(i, k)
  }

  ghost predicate UsedIsOwned(sb: Superblock, blocks: Store, owner: map<nat, Owner>)
    requires sb.WellFormed() && |blocks| == sb.size
  {
    forall b :: 0 <= b < sb.size ==> (Used(sb, blocks, b) <==> b < sb.nmeta || b in owner)
  }

  /** Every data block marked used is referenced by exactly one pointer of one
      inode, and every pointer leads to such a block. */
  ghost predicate Owned(sb: Superblock, blocks: Store, inodes: seq<Inode>, owner: map<nat, Owner>) {
    && Sized(sb, blocks, inodes) && OwnerPoints(sb, blocks, inodes, owner)
    && PointerOwns(blocks, inodes, owner) && UsedIsOwned(sb, blocks, owner)
  }

  /** Every block below byte `end` is mapped. */
  ghost predicate Covered(blocks: Store, ino: Inode, end: nat)
    requires InodeOK(|blocks|, ino)
  {
    forall bn :: 0 <= bn < MAXFILE && bn * BSIZE < end ==> DataBlock(blocks, ino, bn) != 0
  }

  /** No block index below the file's size is unmapped. */
  ghost predicate NoHoles(blocks: Store, ino: Inode)
    requires InodeOK(|blocks|, ino)
  {
    Covered(blocks, ino, ino.size)
  }

  // ------------------------------------------------- what leaves pointers alone

  /** Blocks that change are not indirect blocks in use, so no pointer changes. */
  ghost predicate IndirectsKept(blocks: Store, blocks': Store, inodes: seq<Inode>) {
    && |blocks| == |blocks'|
    && forall i :: 0 <= i < |inodes| ==>
         && InodeOK(|blocks|, inodes[i])
         && (inodes[i].addrs[INDIRECT] != 0 ==>
               blocks'[inodes[i].addrs[INDIRECT]] == blocks[inodes[i].addrs[INDIRECT]])
  }

  lemma RefsKept(sb: Superblock, blocks: Store, blocks': Store, inodes: seq<Inode>, owner: map<nat, Owner>)
    requires Sized(sb, blocks, inodes) && |blocks'| == |blocks| && IndirectsKept(blocks, blocks', inodes)
    requires OwnerPoints(sb, blocks, inodes, owner) && PointerOwns(blocks, inodes, owner)
    ensures OwnerPoints(sb, blocks', inodes, owner) && PointerOwns(blocks', inodes, owner)
    ensures forall i, k :: 0 <= i < |inodes| && 0 <= k < REFS ==>
            Ref(blocks', inodes[i], k) == Ref(blocks, inodes[i], k)
  {
    assert forall i, k :: 0 <= i < |inodes| && 0 <= k < REFS ==>
            Ref(blocks', inodes[i], k) == Ref(blocks, inodes[i], k);
  }

  lemma BitmapIsMeta(sb: Superblock, b: nat)
    requires sb.WellFormed() && b < sb.size
    ensures sb.BBlock(b) < sb.nmeta
  {
    assert b / BPB <= sb.size / BPB;
  }

  /** Writing blocks that are metadata or free or plain data leaves indirect blocks alone. */
  lemma OnlyIndirectOwns(sb: Superblock, blocks: Store, inodes: seq<Inode>, owner: map<nat, Owner>, x: nat)
    requires Owned(sb, blocks, inodes, owner) && x < sb.size
    requires x in owner ==> owner[x].k != INDIRECT
    ensures forall i :: 0 <= i < |inodes| && inodes[i].addrs[INDIRECT] != 0 ==> inodes[i].addrs[INDIRECT] != x
  {
    forall i | 0 <= i < |inodes| && inodes[i].addrs[INDIRECT] != 0 ensures inodes[i].addrs[INDIRECT] != x {
      assert Ref(blocks, inodes[i], INDIRECT) == inodes[i].addrs[INDIRECT];
    }
  }
}
