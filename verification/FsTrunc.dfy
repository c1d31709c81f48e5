/** What itrunc takes apart: pointers dropped, blocks freed (kernel/fs.c). */
module FsTrunc {
  import opened Blocks
  import opened FsLayout
  import opened FsMaps
  import opened FsBytes
  import opened FsFiles
  import RedoLog

  /** As Owned, but for `loose` blocks: still marked used, no longer pointed to. */
  ghost predicate OwnedOrLoose(sb: Superblock, blocks: Store, inodes: seq<Inode>, owner: map<nat, Owner>,
                               loose: set<nat>) {
    && Sized(sb, blocks, inodes) && OwnerPoints(sb, blocks, inodes, owner) && PointerOwns(blocks, inodes, owner)
    && (forall b :: b in loose ==> b !in owner && sb.nmeta <= b < sb.size)
    && (forall c :: 0 <= c < sb.size ==> (Used(sb, blocks, c) <==> c < sb.nmeta || c in owner || c in loose))
  }

  lemma NothingLoose(sb: Superblock, blocks: Store, inodes: seq<Inode>, owner: map<nat, Owner>)
    ensures OwnedOrLoose(sb, blocks, inodes, owner, {}) <==> Owned(sb, blocks, inodes, owner)
  {
  }

  /** Only bitmap blocks differ. */
  ghost predicate BitmapOnly(sb: Superblock, blocks: Store, blocks': Store) {
    && |blocks| == |blocks'|
    && forall x :: 0 <= x < |blocks| && (x < sb.bmapstart || sb.nmeta <= x) ==> blocks'[x] == blocks[x]
  }

  lemma FreedBitmapOnly(sb: Superblock, blocks: Store, blocks': Store, b: nat)
    requires Freed(sb, blocks, blocks', b)
    ensures BitmapOnly(sb, blocks, blocks')
  {
    BitmapIsMeta(sb, b);
  }

  lemma BitmapOnlyTwice(sb: Superblock, b0: Store, b1: Store, b2: Store)
    requires BitmapOnly(sb, b0, b1) && BitmapOnly(sb, b1, b2)
    ensures BitmapOnly(sb, b0, b2)
  {
  }

  lemma FreeLoose(sb: Superblock, blocks: Store, blocks': Store, inodes: seq<Inode>, owner: map<nat, Owner>,
                  loose: set<nat>, b: nat)
    requires OwnedOrLoose(sb, blocks, inodes, owner, loose) && b in loose && Freed(sb, blocks, blocks', b)
    requires BitmapOnly(sb, blocks, blocks')
    ensures OwnedOrLoose(sb, blocks', inodes, owner, loose - {b})
  {
    forall i | 0 <= i < |inodes| && inodes[i].addrs[INDIRECT] != 0
      ensures blocks'[inodes[i].addrs[INDIRECT]] == blocks[inodes[i].addrs[INDIRECT]]
    {
      assert Ref(blocks, inodes[i], INDIRECT) in owner;
    }
    RefsKept(sb, blocks, blocks', inodes, owner);
  }

  /** ip->addrs[k] = 0 for a direct pointer. */
  lemma DropDirect(sb: Superblock, blocks: Store, inodes: seq<Inode>, owner: map<nat, Owner>, i: nat, k: nat, b: nat)
    requires Owned(sb, blocks, inodes, owner) && i < |inodes| && k < NDIRECT && b == inodes[i].addrs[k] != 0
    ensures b in owner && owner[b] == Owner(i, k)
    ensures OwnedOrLoose(sb, blocks, inodes[i := WithPtr(inodes[i], k, 0)], owner - {b}, {b})
  {
    var inodes' := inodes[i := WithPtr(inodes[i], k, 0)];
    assert Ref(blocks, inodes[i], k) == b;
    assert InodeOK(sb.size, inodes'[i]);
    assert forall j, n :: 0 <= j < |inodes| && 0 <= n < REFS ==>
        Ref(blocks, inodes'[j], n) == if j == i && n == k then 0 else Ref(blocks, inodes[j], n);
  }

  /** The blocks reached through entries e.. of indirect block `a`. */
  function Entries(a: Block, e: nat): set<nat>
    requires e <= NINDIRECT
  {
    set n | e <= n < NINDIRECT && GetWord(a, n) != 0 :: GetWord(a, n)
  }

  /** ip->addrs[NDIRECT] = 0: the indirect block and what it leads to come loose. */
  lemma DropIndirect(sb: Superblock, blocks: Store, inodes: seq<Inode>, owner: map<nat, Owner>, i: nat, ind: nat)
    requires Owned(sb, blocks, inodes, owner) && i < |inodes| && ind == inodes[i].addrs[INDIRECT] != 0
    ensures OwnedOrLoose(sb, blocks, inodes[i := WithPtr(inodes[i], INDIRECT, 0)],
                         owner - ({ind} + Entries(blocks[ind], 0)), {ind} + Entries(blocks[ind], 0))
  {
    var loose := {ind} + Entries(blocks[ind], 0);
    var inodes' := inodes[i := WithPtr(inodes[i], INDIRECT, 0)];
    LooseIsOwned(sb, blocks, inodes, owner, i, ind);
    assert InodeOK(sb.size, inodes'[i]);
    assert forall j, n :: 0 <= j < |inodes| && 0 <= n < REFS ==>
        Ref(blocks, inodes'[j], n) == if j == i && n >= INDIRECT then 0 else Ref(blocks, inodes[j], n);
  }

  lemma LooseIsOwned(sb: Superblock, blocks: Store, inodes: seq<Inode>, owner: map<nat, Owner>, i: nat, ind: nat)
    requires Owned(sb, blocks, inodes, owner) && i < |inodes| && ind == inodes[i].addrs[INDIRECT] != 0
    ensures forall b :: b in {ind} + Entries(blocks[ind], 0) <==>
              b in owner && owner[b].inum == i && owner[b].k >= INDIRECT
  {
    assert Ref(blocks, inodes[i], INDIRECT) == ind;
    forall n | 0 <= n < NINDIRECT && GetWord(blocks[ind], n) != 0
      ensures GetWord(blocks[ind], n) in owner && owner[GetWord(blocks[ind], n)] == Owner(i, NDIRECT + 1 + n)
    {
      assert Ref(blocks, inodes[i], NDIRECT + 1 + n) == GetWord(blocks[ind], n);
    }
    forall b | b in owner && owner[b].inum == i && owner[b].k > INDIRECT ensures b in Entries(blocks[ind], 0) {
      assert b == GetWord(blocks[ind], owner[b].k - NDIRECT - 1);
    }
  }

  /** What is left once the pointers of inode `i` below `lo` are gone. */
  ghost predicate Shrunk(owner: map<nat, Owner>, owner': map<nat, Owner>, i: nat, lo: nat) {
    forall b :: (b in owner' <==> b in owner && !(owner[b].inum == i && owner[b].k < lo)) &&
                (b in owner' ==> owner'[b] == owner[b])
  }

  lemma ShrunkOne(sb: Superblock, blocks: Store, inodes: seq<Inode>, owner: map<nat, Owner>, o0: map<nat, Owner>,
                  i: nat, k: nat)
    requires Owned(sb, blocks, inodes, owner) == true && i < |inodes| && k < NDIRECT && |inodes[i].addrs| == NDIRECT + 1
    requires Shrunk(o0, owner, i, k) == true
    ensures Shrunk(o0, owner - {inodes[i].addrs[k]}, i, k + 1) == true
  {
    hide Owned, Shrunk;
    PointsAlone(sb, blocks, inodes, owner, i, k);
    ShrunkWithout(o0, owner, i, k, inodes[i].addrs[k]);
  }

  /** The block a direct pointer leads to is owned by that pointer, and no other is. */
  lemma PointsAlone(sb: Superblock, blocks: Store, inodes: seq<Inode>, owner: map<nat, Owner>, i: nat, k: nat)
    requires Owned(sb, blocks, inodes, owner) == true && i < |inodes| && k < NDIRECT && |inodes[i].addrs| == NDIRECT + 1
    ensures forall b :: b in owner ==> (owner[b] == Owner(i, k) <==> b == inodes[i].addrs[k])
  {
    assert Ref(blocks, inodes[i], k) == inodes[i].addrs[k];
    hide UsedIsOwned;
  }

  lemma ShrunkWithout(o0: map<nat, Owner>, owner: map<nat, Owner>, i: nat, k: nat, a: nat)
    requires Shrunk(o0, owner, i, k) == true && forall b :: b in owner ==> (owner[b] == Owner(i, k) <==> b == a)
    ensures Shrunk(o0, owner - {a}, i, k + 1) == true
  {
  }

  lemma ShrunkAll(sb: Superblock, blocks: Store, inodes: seq<Inode>, owner: map<nat, Owner>, o0: map<nat, Owner>,
                  i: nat, loose: set<nat>)
    requires Owned(sb, blocks, inodes, owner) && i < |inodes| && Shrunk(o0, owner, i, NDIRECT)
    requires forall b :: b in o0 ==> o0[b].k < REFS
    requires forall b :: b in loose <==> b in owner && owner[b].inum == i && owner[b].k >= INDIRECT
    ensures Shrunk(o0, owner - loose, i, REFS)
  {
  }

  lemma NoIndirectOwned(sb: Superblock, blocks: Store, inodes: seq<Inode>, owner: map<nat, Owner>, i: nat)
    requires Owned(sb, blocks, inodes, owner) && i < |inodes| && inodes[i].addrs[INDIRECT] == 0
    ensures forall b :: b in owner && owner[b].inum == i ==> owner[b].k < INDIRECT
  {
  }

  lemma EntriesStep(a: Block, e: nat)
    requires e < NINDIRECT && forall m :: e < m < NINDIRECT ==> GetWord(a, e) == 0 || GetWord(a, m) != GetWord(a, e)
    ensures Entries(a, e + 1) == Entries(a, e) - if GetWord(a, e) == 0 then {} else {GetWord(a, e)}
    ensures GetWord(a, e) != 0 ==> GetWord(a, e) in Entries(a, e)
  {
    forall b | b in Entries(a, e) && b != GetWord(a, e) ensures b in Entries(a, e + 1) {
      var n :| e <= n < NINDIRECT && GetWord(a, n) != 0 && GetWord(a, n) == b;
    }
  }

  /** No block is listed twice in an indirect block, and it does not list itself. */
  ghost predicate Distinct(a: Block, ind: nat) {
    && (forall n, m :: 0 <= n < m < NINDIRECT && GetWord(a, n) != 0 ==> GetWord(a, m) != GetWord(a, n))
    && (forall n :: 0 <= n < NINDIRECT ==> GetWord(a, n) != ind)
  }

  lemma EntriesDistinct(sb: Superblock, blocks: Store, inodes: seq<Inode>, owner: map<nat, Owner>, i: nat, ind: nat)
    requires Owned(sb, blocks, inodes, owner) && i < |inodes| && ind == inodes[i].addrs[INDIRECT] != 0
    ensures Distinct(blocks[ind], ind)
  {
    assert Ref(blocks, inodes[i], INDIRECT) == ind;
    forall n | 0 <= n < NINDIRECT && GetWord(blocks[ind], n) != 0
      ensures GetWord(blocks[ind], n) in owner && owner[GetWord(blocks[ind], n)] == Owner(i, NDIRECT + 1 + n)
    {
      assert Ref(blocks, inodes[i], NDIRECT + 1 + n) == GetWord(blocks[ind], n);
    }
  }

  /** The bitmap blocks that hold the bits of `freed`. */
  ghost function Bitmaps(sb: Superblock, freed: set<nat>): set<nat> { set b | b in freed :: sb.BBlock(b) }

  lemma BitmapsJoin(sb: Superblock, f: set<nat>, g: set<nat>)
    ensures Bitmaps(sb, f + g) == Bitmaps(sb, f) + Bitmaps(sb, g)
  {
    forall x | x in Bitmaps(sb, f) + Bitmaps(sb, g) ensures x in Bitmaps(sb, f + g) {
      var b :| b in f + g && x == sb.BBlock(b);
    }
  }

  lemma BitmapsOne(sb: Superblock, b: nat)
    ensures Bitmaps(sb, {b}) == {sb.BBlock(b)} && Bitmaps(sb, {}) == {}
  {
    assert b in {b};
  }

  /** Bitmap blocks are as many as it takes to hold a bit for every block of the disk. */
  lemma BitmapsFew(sb: Superblock, freed: set<nat>)
    requires sb.WellFormed() && forall b :: b in freed ==> b < sb.size
    ensures |Bitmaps(sb, freed)| <= (sb.size - 1) / BPB + 1
    ensures forall x :: x in Bitmaps(sb, freed) ==> x >= sb.bmapstart
  {
    var n := (sb.size - 1) / BPB + 1;
    forall x | x in Bitmaps(sb, freed) ensures sb.bmapstart <= x < sb.bmapstart + n {
      var b :| b in freed && x == sb.BBlock(b);
      assert b / BPB <= (sb.size - 1) / BPB;
    }
    RangeSize(Bitmaps(sb, freed), sb.bmapstart, n);
  }

  lemma {:induction false} RangeSize(s: set<nat>, lo: nat, n: nat)
    requires forall x :: x in s ==> lo <= x < lo + n
    ensures |s| <= n
  {
    if n > 0 { RangeSize(s - {lo + n - 1}, lo, n - 1); }
  }

  /** What itrunc logs, in a transaction of its own: one block for the inode, and the
      bitmap blocks of what it frees, all of which fit on a disk of this size. */
  lemma TruncFits(sb: Superblock, o0: map<nat, Owner>, owner: map<nat, Owner>, i: nat, logged: set<nat>)
    requires sb.WellFormed() && i < sb.ninodes && (forall b :: b in o0 ==> b < sb.size)
    requires logged == Bitmaps(sb, o0.Keys - owner.Keys) + {sb.IBlock(i)}
    ensures |logged| == |Bitmaps(sb, o0.Keys - owner.Keys)| + 1
    ensures |logged| <= (sb.size - 1) / BPB + 2
    ensures sb.size <= (RedoLog.MAXOPBLOCKS - 1) * BPB ==> |logged| <= RedoLog.MAXOPBLOCKS
  {
    var f := o0.Keys - owner.Keys;
    BitmapsFew(sb, f);
    InodesBelowBitmap(sb, i);
    assert sb.IBlock(i) !in Bitmaps(sb, f);
  }

  lemma InodesBelowBitmap(sb: Superblock, i: nat)
    requires sb.WellFormed() && i < sb.ninodes
    ensures sb.IBlock(i) < sb.bmapstart
  {
    assert i / IPB <= sb.ninodes / IPB;
  }

  /** Where the direct part of itrunc stands at pointer `k`. */
  ghost predicate Truncating(sb: Superblock, b0: Store, i0: seq<Inode>, o0: map<nat, Owner>, l0: set<nat>,
                             b: Store, inodes: seq<Inode>, owner: map<nat, Owner>, l: set<nat>, i: nat, k: nat) {
    && BitmapOnly(sb, b0, b) && Shrunk(o0, owner, i, k) && l == l0 + Bitmaps(sb, o0.Keys - owner.Keys)
    && i < |i0| == |inodes| && inodes == i0[i := inodes[i]]
    && inodes[i].size == i0[i].size
  }

  lemma TruncatingIs(sb: Superblock, b0: Store, i0: seq<Inode>, o0: map<nat, Owner>, l0: set<nat>,
                     b: Store, inodes: seq<Inode>, owner: map<nat, Owner>, l: set<nat>, i: nat, k: nat)
    requires Truncating(sb, b0, i0, o0, l0, b, inodes, owner, l, i, k) == true
    ensures BitmapOnly(sb, b0, b) == true && Shrunk(o0, owner, i, k) == true
    ensures l == l0 + Bitmaps(sb, o0.Keys - owner.Keys)
    ensures i < |i0| == |inodes| && inodes == i0[i := inodes[i]]
  {
  }

  lemma TruncatingMore(sb: Superblock, b0: Store, i0: seq<Inode>, o0: map<nat, Owner>, l0: set<nat>,
                       b1: Store, i1: seq<Inode>, o1: map<nat, Owner>, l1: set<nat>,
                       b2: Store, i2: seq<Inode>, o2: map<nat, Owner>, l2: set<nat>, i: nat, k: nat, k': nat)
    requires Truncating(sb, b0, i0, o0, l0, b1, i1, o1, l1, i, k) == true
    requires BitmapOnly(sb, b1, b2) && Shrunk(o0, o2, i, k')
    requires o2.Keys <= o1.Keys && l2 == l1 + Bitmaps(sb, o1.Keys - o2.Keys)
    requires |i2| == |i1| && i2 == i1[i := i2[i]] && i2[i].size == i1[i].size
    ensures Truncating(sb, b0, i0, o0, l0, b2, i2, o2, l2, i, k') == true
  {
    BitmapOnlyTwice(sb, b0, b1, b2);
    BitmapsJoin(sb, o0.Keys - o1.Keys, o1.Keys - o2.Keys);
    assert o0.Keys - o2.Keys == (o0.Keys - o1.Keys) + (o1.Keys - o2.Keys);
    assert i2 == i0[i := i2[i]];
  }

  /** Freeing blocks of file `i` leaves the bytes of every other file alone. */
  lemma TruncContent(sb: Superblock, b0: Store, i0: seq<Inode>, o0: map<nat, Owner>,
                     b: Store, inodes: seq<Inode>, owner: map<nat, Owner>, i: nat)
    requires Owned(sb, b0, i0, o0) && Owned(sb, b, inodes, owner) && Tight(b0, i0) && BitmapOnly(sb, b0, b)
    requires i < |i0| == |inodes| && inodes == i0[i := inodes[i]] && inodes[i].size == 0
    ensures FileBecame(b0, i0, b, inodes, i, []) == true && Tight(b, inodes) == true
  {
    forall j | 0 <= j < |i0| && j != i ensures Content(b, inodes[j]) == Content(b0, i0[j]) && NoHoles(b, inodes[j]) {
      assert inodes[j] == i0[j];
      SameFile(sb, b0, i0, o0, b, j);
    }
  }

  lemma SameFile(sb: Superblock, b0: Store, i0: seq<Inode>, o0: map<nat, Owner>, b: Store, j: nat)
    requires Owned(sb, b0, i0, o0) && BitmapOnly(sb, b0, b) && j < |i0| && NoHoles(b0, i0[j])
    ensures Content(b, i0[j]) == Content(b0, i0[j]) && NoHoles(b, i0[j])
  {
    if i0[j].addrs[INDIRECT] != 0 { assert Ref(b0, i0[j], INDIRECT) in o0; }
    assert forall k :: 0 <= k < REFS ==> Ref(b, i0[j], k) == Ref(b0, i0[j], k);
    assert forall bn :: 0 <= bn < MAXFILE ==> DataBlock(b, i0[j], bn) == DataBlock(b0, i0[j], bn);
    forall p | 0 <= p < i0[j].size ensures ByteOf(b, i0[j], p) == ByteOf(b0, i0[j], p) {
      assert Ref(b0, i0[j], PtrOf(p / BSIZE)) != 0 ==> Ref(b0, i0[j], PtrOf(p / BSIZE)) in o0;
    }
  }

  lemma StartTruncating(sb: Superblock, b: Store, inodes: seq<Inode>, owner: map<nat, Owner>, l: set<nat>, i: nat)
    requires i < |inodes|
    ensures Truncating(sb, b, inodes, owner, l, b, inodes, owner, l, i, 0) == true
  {
    assert owner.Keys - owner.Keys == {};
  }

  /** A direct pointer's block is in use: bfree will not panic. */
  lemma DirectIsUsed(sb: Superblock, blocks: Store, inodes: seq<Inode>, owner: map<nat, Owner>, i: nat, k: nat)
    requires Owned(sb, blocks, inodes, owner) == true && i < |inodes| && k <= NDIRECT
            && |inodes[i].addrs| == NDIRECT + 1
    ensures inodes[i].addrs[k] != 0 ==> inodes[i].addrs[k] < sb.size && Used(sb, blocks, inodes[i].addrs[k])
  {
    assert Ref(blocks, inodes[i], k) == inodes[i].addrs[k];
  }

  lemma DirectFreed(sb: Superblock, b0: Store, i0: seq<Inode>, o0: map<nat, Owner>, l0: set<nat>,
                    b1: Store, i1: seq<Inode>, o1: map<nat, Owner>, l1: set<nat>, b2: Store, i: nat, k: nat, b: nat)
    requires Owned(sb, b1, i1, o1) == true && Truncating(sb, b0, i0, o0, l0, b1, i1, o1, l1, i, k) == true
    requires k < NDIRECT && i < |i1| && |i1[i].addrs| == NDIRECT + 1 && b == i1[i].addrs[k] != 0
            && Freed(sb, b1, b2, b) == true
    ensures Owned(sb, b2, i1[i := WithPtr(i1[i], k, 0)], o1 - {b}) == true
    ensures Truncating(sb, b0, i0, o0, l0, b2, i1[i := WithPtr(i1[i], k, 0)], o1 - {b}, l1 + {sb.BBlock(b)}, i,
                       k + 1) == true
  {
    var i2 := i1[i := WithPtr(i1[i], k, 0)];
    ShrunkOne(sb, b1, i1, o1, o0, i, k);
    DropDirect(sb, b1, i1, o1, i, k, b);
    FreedBitmapOnly(sb, b1, b2, b);
    BitmapsOne(sb, b);
    assert o1.Keys - (o1 - {b}).Keys == {b};
    FreeLoose(sb, b1, b2, i2, o1 - {b}, {b}, b);
    NothingLoose(sb, b2, i2, o1 - {b});
    assert {b} - {b} == {};
    TruncatingMore(sb, b0, i0, o0, l0, b1, i1, o1, l1, b2, i2, o1 - {b}, l1 + {sb.BBlock(b)}, i, k, k + 1);
  }

  lemma DirectNull(sb: Superblock, b0: Store, i0: seq<Inode>, o0: map<nat, Owner>, l0: set<nat>,
                   b: Store, inodes: seq<Inode>, owner: map<nat, Owner>, l: set<nat>, i: nat, k: nat)
    requires Owned(sb, b, inodes, owner) == true && Truncating(sb, b0, i0, o0, l0, b, inodes, owner, l, i, k) == true
    requires k < NDIRECT && i < |inodes| && |inodes[i].addrs| == NDIRECT + 1 && inodes[i].addrs[k] == 0
    ensures Truncating(sb, b0, i0, o0, l0, b, inodes, owner, l, i, k + 1) == true
  {
    ShrunkOne(sb, b, inodes, owner, o0, i, k);
    assert 0 !in owner;
    assert owner - {0} == owner;
  }

  // ---------------------------------------------------------- the indirect block

  /** Where itrunc's second loop stands at entry `e`: as if the indirect pointer
      were gone (inodes gi, owner go), the rest of its blocks loose. */
  ghost predicate Unlisting(sb: Superblock, b1: Store, l1: set<nat>, b: Store, l: set<nat>, gi: seq<Inode>,
                            go: map<nat, Owner>,
                            ind: nat, a: Block, e: nat) {
    && e <= NINDIRECT && OwnedOrLoose(sb, b, gi, go, {ind} + Entries(a, e))
    && BitmapOnly(sb, b1, b) && l == l1 + Bitmaps(sb, Entries(a, 0) - Entries(a, e)) && Distinct(a, ind)
  }

  lemma EntryLogged(sb: Superblock, a: Block, e: nat, x: nat)
    requires e < NINDIRECT && x in Entries(a, e) && Entries(a, e + 1) == Entries(a, e) - {x}
    ensures Bitmaps(sb, Entries(a, 0) - Entries(a, e + 1)) ==
            Bitmaps(sb, Entries(a, 0) - Entries(a, e)) + {sb.BBlock(x)}
  {
    assert Entries(a, e) <= Entries(a, 0);
    assert Entries(a, 0) - Entries(a, e + 1) == (Entries(a, 0) - Entries(a, e)) + {x};
    BitmapsJoin(sb, Entries(a, 0) - Entries(a, e), {x});
    BitmapsOne(sb, x);
  }

  lemma EntryFreed(sb: Superblock, b1: Store, l1: set<nat>, b: Store, l: set<nat>, gi: seq<Inode>, go: map<nat, Owner>,
                   ind: nat, a: Block, e: nat, b': Store)
    requires e < NINDIRECT && GetWord(a, e) != 0 && Unlisting(sb, b1, l1, b, l, gi, go, ind, a, e) == true
    requires Freed(sb, b, b', GetWord(a, e)) == true
    ensures Unlisting(sb, b1, l1, b', l + {sb.BBlock(GetWord(a, e))}, gi, go, ind, a, e + 1) == true
  {
    var x := GetWord(a, e);
    EntriesStep(a, e);
    FreedBitmapOnly(sb, b, b', x);
    BitmapOnlyTwice(sb, b1, b, b');
    EntryLogged(sb, a, e, x);
    FreeLoose(sb, b, b', gi, go, {ind} + Entries(a, e), x);
    assert {ind} + Entries(a, e) - {x} == {ind} + Entries(a, e + 1);
  }

  lemma EntryNull(sb: Superblock, b1: Store, l1: set<nat>, b: Store, l: set<nat>, gi: seq<Inode>, go: map<nat, Owner>,
                  ind: nat, a: Block, e: nat)
    requires e < NINDIRECT && GetWord(a, e) == 0 && Unlisting(sb, b1, l1, b, l, gi, go, ind, a, e) == true
    ensures Unlisting(sb, b1, l1, b, l, gi, go, ind, a, e + 1) == true
  {
    EntriesStep(a, e);
    assert Entries(a, e) - {} == Entries(a, e);
  }

  lemma EntryIsUsed(sb: Superblock, b1: Store, l1: set<nat>, b: Store, l: set<nat>, gi: seq<Inode>, go: map<nat, Owner>,
                    ind: nat, a: Block, e: nat)
    requires Unlisting(sb, b1, l1, b, l, gi, go, ind, a, e) == true
    ensures sb.WellFormed() && |b| == sb.size
    ensures ind < sb.size && Used(sb, b, ind)
    ensures e < NINDIRECT && GetWord(a, e) != 0 ==> GetWord(a, e) < sb.size && Used(sb, b, GetWord(a, e))
  {
    if e < NINDIRECT { EntriesStep(a, e); }
  }

  lemma StartUnlisting(sb: Superblock, b: Store, l: set<nat>, inodes: seq<Inode>, owner: map<nat, Owner>, i: nat,
                       ind: nat)
    requires Owned(sb, b, inodes, owner) == true && i < |inodes| && |inodes[i].addrs| == NDIRECT + 1
    requires ind == inodes[i].addrs[INDIRECT] != 0 && ind < |b|
    ensures Unlisting(sb, b, l, b, l, inodes[i := WithPtr(inodes[i], INDIRECT, 0)],
                      owner - ({ind} + Entries(b[ind], 0)), ind, b[ind], 0) == true
  {
    assert Entries(b[ind], 0) - Entries(b[ind], 0) == {};
    DropIndirect(sb, b, inodes, owner, i, ind);
    EntriesDistinct(sb, b, inodes, owner, i, ind);
  }

  lemma IndirectFreed(sb: Superblock, b1: Store, l1: set<nat>, b: Store, l: set<nat>, gi: seq<Inode>,
                      go: map<nat, Owner>,
                      ind: nat, a: Block, b': Store)
    requires Unlisting(sb, b1, l1, b, l, gi, go, ind, a, NINDIRECT) == true && Freed(sb, b, b', ind) == true
    ensures Owned(sb, b', gi, go) == true && BitmapOnly(sb, b1, b')
    ensures l + {sb.BBlock(ind)} == l1 + Bitmaps(sb, {ind} + Entries(a, 0))
  {
    assert Entries(a, NINDIRECT) == {};
    assert Entries(a, 0) - {} == Entries(a, 0);
    BitmapsOne(sb, ind);
    BitmapsJoin(sb, {ind}, Entries(a, 0));
    FreedBitmapOnly(sb, b, b', ind);
    BitmapOnlyTwice(sb, b1, b, b');
    FreeLoose(sb, b, b', gi, go, {ind} + Entries(a, NINDIRECT), ind);
    assert {ind} + Entries(a, NINDIRECT) - {ind} == {};
    NothingLoose(sb, b', gi, go);
  }

  /** The whole of the second half, on the state the first half left. */
  lemma Truncated(sb: Superblock, b0: Store, i0: seq<Inode>, o0: map<nat, Owner>, l0: set<nat>,
                  b1: Store, i1: seq<Inode>, o1: map<nat, Owner>, l1: set<nat>,
                  b2: Store, l2: set<nat>, i: nat, ind: nat)
    requires Owned(sb, b1, i1, o1) == true && Truncating(sb, b0, i0, o0, l0, b1, i1, o1, l1, i, NDIRECT) == true
    requires i < |i1| && |i1[i].addrs| == NDIRECT + 1 && ind == i1[i].addrs[INDIRECT] != 0 && ind < |b1|
    requires BitmapOnly(sb, b1, b2) && l2 == l1 + Bitmaps(sb, {ind} + Entries(b1[ind], 0))
    requires forall b :: b in o0 ==> o0[b].k < REFS
    ensures Truncating(sb, b0, i0, o0, l0, b2, i1[i := WithPtr(i1[i], INDIRECT, 0)],
                       o1 - ({ind} + Entries(b1[ind], 0)), l2, i, REFS) == true
  {
    LooseIsOwned(sb, b1, i1, o1, i, ind);
    var o2 := o1 - ({ind} + Entries(b1[ind], 0));
    ShrunkAll(sb, b1, i1, o1, o0, i, {ind} + Entries(b1[ind], 0));
    assert o1.Keys - o2.Keys == {ind} + Entries(b1[ind], 0);
    TruncatingMore(sb, b0, i0, o0, l0, b1, i1, o1, l1, b2, i1[i := WithPtr(i1[i], INDIRECT, 0)], o2, l2, i, NDIRECT,
                   REFS);
  }

  lemma NoIndirect(sb: Superblock, b0: Store, i0: seq<Inode>, o0: map<nat, Owner>, l0: set<nat>,
                   b: Store, inodes: seq<Inode>, owner: map<nat, Owner>, l: set<nat>, i: nat)
    requires Owned(sb, b, inodes, owner) == true
            && Truncating(sb, b0, i0, o0, l0, b, inodes, owner, l, i, NDIRECT) == true
    requires i < |inodes| && |inodes[i].addrs| == NDIRECT + 1 && inodes[i].addrs[INDIRECT] == 0
    requires forall x :: x in o0 ==> o0[x].k < REFS
    ensures Truncating(sb, b0, i0, o0, l0, b, inodes, owner, l, i, REFS) == true
  {
    NoIndirectOwned(sb, b, inodes, owner, i);
    ShrunkAll(sb, b, inodes, owner, o0, i, {});
    assert owner - {} == owner;
  }

  lemma Shape(sb: Superblock, b: Store, inodes: seq<Inode>, owner: map<nat, Owner>, i: nat)
    requires Owned(sb, b, inodes, owner) == true && i < |inodes|
    ensures sb.WellFormed() && |b| == sb.size && |inodes[i].addrs| == NDIRECT + 1 && inodes[i].addrs[INDIRECT] < sb.size
    ensures forall x :: x in owner ==> owner[x].k < REFS && x < sb.size
  {
    assert InodeOK(sb.size, inodes[i]);
  }
}
