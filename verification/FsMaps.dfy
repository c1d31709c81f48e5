/** How allocating, freeing and linking one block changes the bitmap, the block
    pointers of the inodes and the ownership of blocks (kernel/fs.c). */
module FsMaps {
  import opened Blocks
  import opened FsLayout

  /** What balloc does to the store when it hands out block `b`. */
  ghost predicate Allocated(sb: Superblock, blocks: Store, blocks': Store, b: nat) {
    && sb.WellFormed() && |blocks| == |blocks'| == sb.size && sb.nmeta <= b < sb.size
    && !Used(sb, blocks, b)
    && (forall c :: 0 <= c < sb.size ==> (Used(sb, blocks', c) <==> c == b || Used(sb, blocks, c)))
    && blocks'[b] == ZeroBlock()
    && (forall x :: 0 <= x < sb.size && x != b && x != sb.BBlock(b) ==> blocks'[x] == blocks[x])
  }

  ghost predicate Freed(sb: Superblock, blocks: Store, blocks': Store, b: nat) {
    && sb.WellFormed() && |blocks| == |blocks'| == sb.size && b < sb.size
    && (forall c :: 0 <= c < sb.size ==> (Used(sb, blocks', c) <==> c != b && Used(sb, blocks, c)))
    && (forall x :: 0 <= x < sb.size && x != sb.BBlock(b) ==> blocks'[x] == blocks[x])
  }

  /** Every block that differs from `b0` has been logged. */
  ghost predicate Recorded(b0: Store, b: Store, l: set<nat>) {
    |b| == |b0| && forall x :: 0 <= x < |b| && b[x] != b0[x] ==> x in l
  }

  /** A block is changed and logged. */
  lemma RecordedPut(b0: Store, b: Store, l: set<nat>, x: nat, blk: Block)
    requires Recorded(b0, b, l) == true && x < |b|
    ensures Recorded(b0, b[x := blk], l + {x}) == true
  {
  }

  /** Every block that differs from `b0` is in one of the transactions. */
  ghost predicate RecordedIn(b0: Store, b: Store, txs: seq<set<nat>>) {
    |b| == |b0| && forall x :: 0 <= x < |b| && b[x] != b0[x] ==> exists k :: 0 <= k < |txs| && x in txs[k]
  }

  lemma RecordedInMore(b0: Store, b1: Store, b2: Store, txs: seq<set<nat>>, l: set<nat>)
    requires RecordedIn(b0, b1, txs) == true && Recorded(b1, b2, l) == true
    ensures RecordedIn(b0, b2, txs + [l]) == true
  {
    var ts := txs + [l];
    forall x | 0 <= x < |b2| && b2[x] != b0[x] ensures exists k :: 0 <= k < |ts| && x in ts[k] {
      if b2[x] != b1[x] {
        assert x in ts[|txs|];
      } else {
        var k :| 0 <= k < |txs| && x in txs[k];
        assert x in ts[k];
      }
    }
  }

  lemma WithinBlock(base: nat, bi: nat)
    requires base % BPB == 0 && bi < BPB
    ensures (base + bi) / BPB == base / BPB && (base + bi) % BPB == bi
  {
  }

  lemma SameBit(sb: Superblock, b: nat, c: nat)
    ensures sb.BBlock(b) == sb.BBlock(c) && b % BPB == c % BPB ==> b == c
  {
  }

  lemma TakeUsed(sb: Superblock, blocks: Store, blocks': Store, b: nat)
    requires sb.WellFormed() && |blocks| == |blocks'| == sb.size && b < sb.size && !Used(sb, blocks, b)
    requires forall c :: 0 <= c < sb.nmeta ==> Used(sb, blocks, c)
    requires sb.BBlock(b) < sb.nmeta
    requires blocks' == blocks[sb.BBlock(b) := SetBit(blocks[sb.BBlock(b)], b % BPB)][b := ZeroBlock()]
    ensures Allocated(sb, blocks, blocks', b)
  {
    forall c | 0 <= c < sb.size ensures Used(sb, blocks', c) <==> c == b || Used(sb, blocks, c) {
      BitmapIsMeta(sb, c);
      SameBit(sb, b, c);
    }
  }

  lemma FreeUsed(sb: Superblock, blocks: Store, blocks': Store, b: nat)
    requires sb.WellFormed() && |blocks| == |blocks'| == sb.size && b < sb.size && Used(sb, blocks, b)
    requires sb.BBlock(b) < sb.nmeta
    requires blocks' == blocks[sb.BBlock(b) := ClearBit(blocks[sb.BBlock(b)], b % BPB)]
    ensures Freed(sb, blocks, blocks', b)
  {
    forall c | 0 <= c < sb.size ensures Used(sb, blocks', c) <==> c != b && Used(sb, blocks, c) {
      BitmapIsMeta(sb, c);
      SameBit(sb, b, c);
    }
  }

  // ------------------------------------------------------------ linking new blocks

  /** After balloc and before the block is linked: everything stands but for the
      new block, which is used and not yet owned. */
  ghost predicate OwnedBut(sb: Superblock, blocks: Store, inodes: seq<Inode>, owner: map<nat, Owner>, b: nat) {
    && Sized(sb, blocks, inodes) && OwnerPoints(sb, blocks, inodes, owner) && PointerOwns(blocks, inodes, owner)
    && b !in owner && sb.nmeta <= b < sb.size
    && (forall c :: 0 <= c < sb.size ==> (Used(sb, blocks, c) <==> c < sb.nmeta || c == b || c in owner))
  }

  lemma AllocateKeeps(sb: Superblock, blocks: Store, blocks': Store, inodes: seq<Inode>, owner: map<nat, Owner>, b: nat)
    requires Owned(sb, blocks, inodes, owner) && Allocated(sb, blocks, blocks', b)
    ensures OwnedBut(sb, blocks', inodes, owner, b)
    ensures forall i, k :: 0 <= i < |inodes| && 0 <= k < REFS ==>
            Ref(blocks', inodes[i], k) == Ref(blocks, inodes[i], k)
    ensures forall x :: x in owner ==> blocks'[x] == blocks[x]
  {
    BitmapIsMeta(sb, b);
    OnlyIndirectOwns(sb, blocks, inodes, owner, b);
    OnlyIndirectOwns(sb, blocks, inodes, owner, sb.BBlock(b));
    RefsKept(sb, blocks, blocks', inodes, owner);
  }

  function WithPtr(ino: Inode, k: nat, b: nat): Inode
    requires k < |ino.addrs|
  {
    ino.(addrs := ino.addrs[k := b])
  }

  /** Pointer (i, k), null before, now leads to `b`; every other pointer is as it was. */
  ghost predicate PointerSet(blocks: Store, inodes: seq<Inode>, blocks': Store, inodes': seq<Inode>, i: nat, k: nat,
                             b: nat) {
    && |inodes| == |inodes'| && |blocks| == |blocks'| && i < |inodes| && k < REFS
    && (forall j :: 0 <= j < |inodes| ==> InodeOK(|blocks|, inodes[j]) && InodeOK(|blocks|, inodes'[j]))
    && Ref(blocks, inodes[i], k) == 0
    && (forall j, n :: 0 <= j < |inodes| && 0 <= n < REFS ==>
          Ref(blocks', inodes'[j], n) == if j == i && n == k then b else Ref(blocks, inodes[j], n))
  }

  lemma SetPointerOwned(sb: Superblock, blocks: Store, inodes: seq<Inode>, owner: map<nat, Owner>,
                        blocks': Store, inodes': seq<Inode>, i: nat, k: nat, b: nat)
    requires OwnedBut(sb, blocks, inodes, owner, b) && PointerSet(blocks, inodes, blocks', inodes', i, k, b)
    requires forall c :: 0 <= c < sb.size ==> Used(sb, blocks', c) == Used(sb, blocks, c)
    ensures Owned(sb, blocks', inodes', owner[b := Owner(i, k)])
  {
    assert UsedIsOwned(sb, blocks', owner[b := Owner(i, k)]) by { hide Ref, InodeOK; }
    hide Used;
    SetPointerPoints(sb, blocks, inodes, owner, blocks', inodes', i, k, b);
  }

  lemma SetPointerPoints(sb: Superblock, blocks: Store, inodes: seq<Inode>, owner: map<nat, Owner>,
                         blocks': Store, inodes': seq<Inode>, i: nat, k: nat, b: nat)
    requires Sized(sb, blocks, inodes) && OwnerPoints(sb, blocks, inodes, owner) && PointerOwns(blocks, inodes, owner)
    requires b !in owner && sb.nmeta <= b < sb.size && PointerSet(blocks, inodes, blocks', inodes', i, k, b)
    ensures Sized(sb, blocks', inodes') && OwnerPoints(sb, blocks', inodes', owner[b := Owner(i, k)]) == true
    ensures PointerOwns(blocks', inodes', owner[b := Owner(i, k)]) == true
  {
    SetOwnerPoints(sb, blocks, inodes, owner, blocks', inodes', i, k, b);
    SetPointerOwns(sb, blocks, inodes, owner, blocks', inodes', i, k, b);
    hide OwnerPoints, PointerOwns, Ref;
  }

  lemma SetOwnerPoints(sb: Superblock, blocks: Store, inodes: seq<Inode>, owner: map<nat, Owner>,
                       blocks': Store, inodes': seq<Inode>, i: nat, k: nat, b: nat)
    requires Sized(sb, blocks, inodes) && OwnerPoints(sb, blocks, inodes, owner)
    requires b !in owner && sb.nmeta <= b < sb.size && PointerSet(blocks, inodes, blocks', inodes', i, k, b)
    ensures Sized(sb, blocks', inodes') && OwnerPoints(sb, blocks', inodes', owner[b := Owner(i, k)]) == true
  {
    hide Ref, InodeOK;
    var owner' := owner[b := Owner(i, k)];
    forall c | c in owner' ensures Ref(blocks', inodes'[owner'[c].inum], owner'[c].k) == c {
      if c != b {
        assert Ref(blocks, inodes[owner[c].inum], owner[c].k) == c;
      }
    }
  }

  lemma SetPointerOwns(sb: Superblock, blocks: Store, inodes: seq<Inode>, owner: map<nat, Owner>,
                       blocks': Store, inodes': seq<Inode>, i: nat, k: nat, b: nat)
    requires Sized(sb, blocks, inodes) && PointerOwns(blocks, inodes, owner)
    requires b !in owner && b < sb.size && PointerSet(blocks, inodes, blocks', inodes', i, k, b)
    ensures Sized(sb, blocks', inodes') && PointerOwns(blocks', inodes', owner[b := Owner(i, k)]) == true
  {
    hide Ref, InodeOK;
  }

  /** ip->addrs[k] = b */
  lemma SetAddr(blocks: Store, inodes: seq<Inode>, i: nat, k: nat, b: nat)
    requires i < |inodes| && k <= INDIRECT && b < |blocks|
    requires InodeOK(|blocks|, inodes[i]) && forall j :: 0 <= j < |inodes| ==> InodeOK(|blocks|, inodes[j])
    requires inodes[i].addrs[k] == 0 && (k == INDIRECT ==> blocks[b] == ZeroBlock())
    ensures PointerSet(blocks, inodes, blocks, inodes[i := WithPtr(inodes[i], k, b)], i, k, b)
  {
    var inodes' := inodes[i := WithPtr(inodes[i], k, b)];
    assert InodeOK(|blocks|, inodes'[i]);
    forall j, n | 0 <= j < |inodes| && 0 <= n < REFS
      ensures Ref(blocks, inodes'[j], n) == if j == i && n == k then b else Ref(blocks, inodes[j], n)
    {
      if j == i && k == INDIRECT && n > INDIRECT { ZeroBlockWords(n - NDIRECT - 1); }
    }
  }

  /** a[e] = b in the indirect block of inode i, which no other inode shares. */
  lemma SetEntry(sb: Superblock, blocks: Store, inodes: seq<Inode>, owner: map<nat, Owner>, i: nat, e: nat, b: nat)
    requires Sized(sb, blocks, inodes) && PointerOwns(blocks, inodes, owner) && i < |inodes| && e < NINDIRECT
            && b < sb.size
    requires inodes[i].addrs[INDIRECT] != 0 && Ref(blocks, inodes[i], NDIRECT + 1 + e) == 0
    ensures var ind := inodes[i].addrs[INDIRECT];
            PointerSet(blocks, inodes, blocks[ind := PutWord(blocks[ind], e, b)], inodes, i, NDIRECT + 1 + e, b)
  {
    var ind := inodes[i].addrs[INDIRECT];
    var blocks' := blocks[ind := PutWord(blocks[ind], e, b)];
    forall j, n | 0 <= j < |inodes| && 0 <= n < REFS
      ensures Ref(blocks', inodes[j], n) == if j == i && n == NDIRECT + 1 + e then b else Ref(blocks, inodes[j], n)
    {
      assert Ref(blocks, inodes[i], INDIRECT) == ind;
      if j != i && inodes[j].addrs[INDIRECT] != 0 { assert Ref(blocks, inodes[j], INDIRECT) != ind; }
    }
  }

  /** Block `b`, free before and now zero, is what pointer (i, k) leads to. */
  ghost predicate Linked(blocks: Store, inodes: seq<Inode>, owner: map<nat, Owner>,
                         blocks': Store, inodes': seq<Inode>, owner': map<nat, Owner>, i: nat, k: nat, b: nat) {
    && PointerSet(blocks, inodes, blocks', inodes', i, k, b)
    && b !in owner && b < |blocks| && blocks'[b] == ZeroBlock()
    && owner' == owner[b := Owner(i, k)]
  }

  /** balloc gave `b` and a[e] = b was stored in the indirect block of inode i. */
  lemma EntryLinked(sb: Superblock, blocks: Store, mid: Store, blocks': Store, inodes: seq<Inode>,
                    owner: map<nat, Owner>,
                    i: nat, e: nat, b: nat, ind: nat)
    requires Owned(sb, blocks, inodes, owner) && Allocated(sb, blocks, mid, b) && i < |inodes| && e < NINDIRECT
    requires inodes[i].addrs[INDIRECT] == ind != 0 && Ref(blocks, inodes[i], NDIRECT + 1 + e) == 0
    requires blocks' == mid[ind := PutWord(mid[ind], e, b)]
    ensures Owned(sb, blocks', inodes, owner[b := Owner(i, NDIRECT + 1 + e)])
    ensures Linked(blocks, inodes, owner, blocks', inodes, owner[b := Owner(i, NDIRECT + 1 + e)], i, NDIRECT + 1 + e, b)
    ensures forall x :: x in owner && x != ind ==> blocks'[x] == blocks[x]
  {
    AllocateKeeps(sb, blocks, mid, inodes, owner, b);
    SetEntry(sb, mid, inodes, owner, i, e, b);
    assert Ref(mid, inodes[i], INDIRECT) == ind;
    OtherBlockSameBits(sb, mid, blocks', ind);
    SetPointerOwned(sb, mid, inodes, owner, blocks', inodes, i, NDIRECT + 1 + e, b);
  }

  lemma IndirectIsData(sb: Superblock, blocks: Store, inodes: seq<Inode>, owner: map<nat, Owner>, i: nat)
    requires Owned(sb, blocks, inodes, owner) && i < |inodes| && inodes[i].addrs[INDIRECT] != 0
    ensures sb.nmeta <= inodes[i].addrs[INDIRECT] < sb.size
  {
    assert Ref(blocks, inodes[i], INDIRECT) == inodes[i].addrs[INDIRECT];
  }

  lemma OtherBlockSameBits(sb: Superblock, blocks: Store, blocks': Store, x: nat)
    requires sb.WellFormed() && |blocks| == |blocks'| == sb.size && sb.nmeta <= x < sb.size
    requires forall y :: 0 <= y < sb.size && y != x ==> blocks'[y] == blocks[y]
    ensures forall c :: 0 <= c < sb.size ==> Used(sb, blocks', c) == Used(sb, blocks, c)
  {
    forall c | 0 <= c < sb.size ensures Used(sb, blocks', c) == Used(sb, blocks, c) { BitmapIsMeta(sb, c); }
  }

  // ---------------------------------------------------------------------- bmap

  ghost function NewLogs(sb: Superblock, addr: nat): set<nat> {
    if addr == 0 then {} else {addr, sb.BBlock(addr)}
  }

  ghost function IndirectLogs(sb: Superblock, bn: nat, ind: nat): set<nat> {
    if bn < NDIRECT || ind == 0 then {} else {ind, sb.BBlock(ind)}
  }

  /** A bmap of block `bn` of file `i` gave `addr`: that block is now mapped to
      `addr` (or still unmapped, if 0), every other block of every file is mapped
      as before, no data block changed, and a new one is zero. */
  ghost predicate Mapped(blocks: Store, inodes: seq<Inode>, owner: map<nat, Owner>,
                         blocks': Store, inodes': seq<Inode>, owner': map<nat, Owner>, i: nat, bn: nat, addr: nat) {
    && |inodes| == |inodes'| && |blocks| == |blocks'| && i < |inodes| && bn < MAXFILE
    && (forall j :: 0 <= j < |inodes| ==>
          InodeOK(|blocks|, inodes[j]) && InodeOK(|blocks|, inodes'[j]) && inodes'[j].size == inodes[j].size)
    && (DataBlock(blocks, inodes[i], bn) != 0 ==> addr == DataBlock(blocks, inodes[i], bn))
    && (forall j, n :: 0 <= j < |inodes| && 0 <= n < MAXFILE ==>
          DataBlock(blocks', inodes'[j], n) == if j == i && n == bn then addr else DataBlock(blocks, inodes[j], n))
    && (forall x :: x in owner ==>
          && x in owner' && owner'[x] == owner[x] && x < |blocks|
          && (owner[x].k != INDIRECT ==> blocks'[x] == blocks[x]))
    && (addr != 0 && addr !in owner ==> addr < |blocks| && blocks'[addr] == ZeroBlock())
  }

  /** Block `b`, new and zero, hangs at pointer `k` of file `i`; no size and no data
      block changed. */
  ghost predicate Attached(blocks: Store, inodes: seq<Inode>, owner: map<nat, Owner>,
                           blocks': Store, inodes': seq<Inode>, owner': map<nat, Owner>, i: nat, k: nat, b: nat) {
    && Linked(blocks, inodes, owner, blocks', inodes', owner', i, k, b)
    && (forall j :: 0 <= j < |inodes| ==> inodes'[j].size == inodes[j].size)
    && (forall x :: x in owner ==> x < |blocks| && (owner[x].k != INDIRECT ==> blocks'[x] == blocks[x]))
  }

  lemma LinkedMaps(blocks: Store, inodes: seq<Inode>, owner: map<nat, Owner>,
                   blocks': Store, inodes': seq<Inode>, owner': map<nat, Owner>, i: nat, bn: nat, b: nat)
    requires bn < MAXFILE && Attached(blocks, inodes, owner, blocks', inodes', owner', i, PtrOf(bn), b) == true
    ensures Mapped(blocks, inodes, owner, blocks', inodes', owner', i, bn, b) == true && b !in owner
  {
  }

  /** Nothing allocated: the block stays unmapped. */
  lemma NothingMapped(sb: Superblock, blocks: Store, inodes: seq<Inode>, owner: map<nat, Owner>, i: nat, bn: nat)
    requires Owned(sb, blocks, inodes, owner) && i < |inodes| && bn < MAXFILE
    ensures Mapped(blocks, inodes, owner, blocks, inodes, owner, i, bn, DataBlock(blocks, inodes[i], bn)) == true
    ensures |inodes[i].addrs| == NDIRECT + 1 && InodeOK(|blocks|, inodes[i])
  {
    forall x | x in owner ensures x < |blocks| { }
    var a := DataBlock(blocks, inodes[i], bn);
    assert a != 0 ==> a in owner;
  }

  lemma LinkedIndirectMapsNothing(blocks: Store, inodes: seq<Inode>, owner: map<nat, Owner>,
                                  blocks': Store, inodes': seq<Inode>, owner': map<nat, Owner>, i: nat, b: nat, bn: nat)
    requires Attached(blocks, inodes, owner, blocks', inodes', owner', i, INDIRECT, b) == true
    requires i < |inodes| && |inodes[i].addrs| == NDIRECT + 1 && NDIRECT <= bn < MAXFILE
            && inodes[i].addrs[INDIRECT] == 0
    ensures Mapped(blocks, inodes, owner, blocks', inodes', owner', i, bn, 0) == true && i < |inodes'|
    ensures DataBlock(blocks, inodes[i], bn) == DataBlock(blocks', inodes'[i], bn) == 0
  {
  }

  ghost predicate UsedBelow(sb: Superblock, blocks: Store, n: nat) {
    sb.WellFormed() && |blocks| == sb.size && forall c :: 0 <= c < n && c < sb.size ==> Used(sb, blocks, c)
  }

  ghost predicate Full(sb: Superblock, blocks: Store) {
    sb.WellFormed() && |blocks| == sb.size && forall c :: 0 <= c < sb.size ==> Used(sb, blocks, c)
  }

  /** The superblock, the log and the inode blocks are as they were. */
  ghost predicate InodeBlocksKept(sb: Superblock, blocks: Store, blocks': Store) {
    |blocks| == |blocks'| && forall x :: 0 <= x < sb.bmapstart && x < |blocks| ==> blocks'[x] == blocks[x]
  }

  /** What a search for a block of file `i` keeps; it fails only on a full disk. */
  ghost predicate Grew(sb: Superblock, blocks: Store, inodes: seq<Inode>, blocks': Store, inodes': seq<Inode>, i: nat,
                       addr: nat) {
    && InodeBlocksKept(sb, blocks, blocks') && (addr == 0 ==> Full(sb, blocks'))
    && i < |inodes| == |inodes'| && inodes' == inodes[i := inodes'[i]]
    && |inodes[i].addrs| == |inodes'[i].addrs| == NDIRECT + 1
    && (inodes[i].addrs[INDIRECT] != 0 ==> inodes'[i].addrs[INDIRECT] == inodes[i].addrs[INDIRECT])
  }

  lemma GrewTwice(sb: Superblock, b0: Store, i0: seq<Inode>, b1: Store, i1: seq<Inode>, b2: Store, i2: seq<Inode>,
                  i: nat, a: nat, addr: nat)
    requires Grew(sb, b0, i0, b1, i1, i, a) == true && Grew(sb, b1, i1, b2, i2, i, addr) == true
    ensures Grew(sb, b0, i0, b2, i2, i, addr) == true
  {
    assert i2 == i0[i := i2[i]];
  }

  lemma AllocatedGrew(sb: Superblock, blocks: Store, blocks': Store, inodes: seq<Inode>, i: nat, b: nat)
    requires Allocated(sb, blocks, blocks', b) && i < |inodes| && |inodes[i].addrs| == NDIRECT + 1
    ensures Grew(sb, blocks, inodes, blocks', inodes, i, b)
  {
    assert sb.bmapstart <= sb.BBlock(b) && sb.bmapstart < sb.nmeta <= b;
    hide Used, Superblock.BBlock, Superblock.WellFormed;
  }

  lemma DataWriteGrew(sb: Superblock, blocks: Store, inodes: seq<Inode>, mid: Store, inodes': seq<Inode>, i: nat,
                      addr: nat,
                      a: nat, blk: Block)
    requires sb.WellFormed() && Grew(sb, blocks, inodes, mid, inodes', i, addr) && addr != 0 && sb.nmeta <= a < |mid|
    ensures Grew(sb, blocks, inodes, mid[a := blk], inodes', i, addr)
  {
    assert sb.bmapstart < sb.nmeta;
  }

  /** balloc gave `b` and ip->addrs[k] = b was stored. */
  lemma AddrLinked(sb: Superblock, blocks: Store, blocks': Store, inodes: seq<Inode>, inodes': seq<Inode>,
                   owner: map<nat, Owner>,
                   i: nat, k: nat, b: nat)
    requires Owned(sb, blocks, inodes, owner) && Allocated(sb, blocks, blocks', b) && i < |inodes| && k <= INDIRECT
    requires inodes[i].addrs[k] == 0 && inodes' == inodes[i := WithPtr(inodes[i], k, b)]
    ensures Owned(sb, blocks', inodes', owner[b := Owner(i, k)])
    ensures Linked(blocks, inodes, owner, blocks', inodes', owner[b := Owner(i, k)], i, k, b)
    ensures forall x :: x in owner ==> blocks'[x] == blocks[x]
    ensures Grew(sb, blocks, inodes, blocks', inodes', i, b)
  {
    AllocatedGrew(sb, blocks, blocks', inodes, i, b);
    AllocateKeeps(sb, blocks, blocks', inodes, owner, b);
    SetAddr(blocks', inodes, i, k, b);
    SetPointerOwned(sb, blocks', inodes, owner, blocks', inodes', i, k, b);
  }

  lemma AddrAttached(sb: Superblock, blocks: Store, blocks': Store, inodes: seq<Inode>, inodes': seq<Inode>,
                     owner: map<nat, Owner>,
                     i: nat, k: nat, b: nat)
    requires Owned(sb, blocks, inodes, owner) == true && Allocated(sb, blocks, blocks', b) == true && i < |inodes|
            && k <= INDIRECT
    requires |inodes[i].addrs| == NDIRECT + 1 && inodes[i].addrs[k] == 0
            && inodes' == inodes[i := WithPtr(inodes[i], k, b)]
    ensures Owned(sb, blocks', inodes', owner[b := Owner(i, k)]) == true
    ensures Attached(blocks, inodes, owner, blocks', inodes', owner[b := Owner(i, k)], i, k, b) == true && b !in owner
    ensures Grew(sb, blocks, inodes, blocks', inodes', i, b) == true
  {
    AddrLinked(sb, blocks, blocks', inodes, inodes', owner, i, k, b);
    assert forall x :: x in owner ==> x < |blocks|;
    hide Linked, Used, Grew;
  }

  lemma EntryAttached(sb: Superblock, blocks: Store, mid: Store, blocks': Store, inodes: seq<Inode>,
                      owner: map<nat, Owner>,
                      i: nat, e: nat, b: nat, ind: nat)
    requires Owned(sb, blocks, inodes, owner) == true && Allocated(sb, blocks, mid, b) == true && i < |inodes|
            && e < NINDIRECT
    requires |inodes[i].addrs| == NDIRECT + 1 && inodes[i].addrs[INDIRECT] == ind != 0 && ind < |mid|
            && Ref(blocks, inodes[i], NDIRECT + 1 + e) == 0
    requires b < UINT_MAX && blocks' == mid[ind := PutWord(mid[ind], e, b)]
    ensures Owned(sb, blocks', inodes, owner[b := Owner(i, NDIRECT + 1 + e)]) == true
    ensures Attached(blocks, inodes, owner, blocks', inodes, owner[b := Owner(i, NDIRECT + 1 + e)], i, NDIRECT + 1 + e,
                     b) == true && b !in owner
    ensures Grew(sb, blocks, inodes, blocks', inodes, i, b) == true
  {
    IndirectIsData(sb, blocks, inodes, owner, i);
    AllocatedGrew(sb, blocks, mid, inodes, i, b);
    DataWriteGrew(sb, blocks, inodes, mid, inodes, i, b, ind, blocks'[ind]);
    EntryLinked(sb, blocks, mid, blocks', inodes, owner, i, e, b, ind);
    assert owner[ind] == Owner(i, INDIRECT) by { assert Ref(blocks, inodes[i], INDIRECT) != 0; }
    assert forall x :: x in owner ==> x < |blocks|;
    hide Linked, Used, Grew;
  }

  lemma MappedTwice(blocks: Store, inodes: seq<Inode>, owner: map<nat, Owner>,
                    b1: Store, i1: seq<Inode>, o1: map<nat, Owner>,
                    blocks': Store, inodes': seq<Inode>, owner': map<nat, Owner>, i: nat, bn: nat, addr: nat)
    requires Mapped(blocks, inodes, owner, b1, i1, o1, i, bn, 0) == true
    requires Mapped(b1, i1, o1, blocks', inodes', owner', i, bn, addr) == true && (addr != 0 ==> addr !in o1)
    ensures Mapped(blocks, inodes, owner, blocks', inodes', owner', i, bn, addr) == true
  {
  }
}
