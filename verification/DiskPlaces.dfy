/** Where on the disk things lie, by byte number: inodes, bitmap bits, block pointers,
    the bytes of a file, the entries of the log header. */
module DiskPlaces {
  import opened Blocks
  import opened FsLayout
  import opened FsBytes
  import opened FsFiles
  import RedoLog

  function DiskByte(blocks: Store, x: nat): int
    requires x / 1024 < |blocks|
  {
    blocks[x / 1024][x % 1024]
  }

  /** The little-endian uint at byte `x`. */
  function DiskUint(blocks: Store, x: nat): int
    requires (x + 3) / 1024 < |blocks|
  {
    DiskByte(blocks, x) + 256 * DiskByte(blocks, x + 1) + 65536 * DiskByte(blocks, x + 2)
    + 16777216 * DiskByte(blocks, x + 3)
  }

  lemma WordPlace(blocks: Store, b: nat, w: nat)
    requires b < |blocks| && w < 256
    ensures (1024 * b + 4 * w + 3) / 1024 < |blocks|
    ensures GetWord(blocks[b], w) == DiskUint(blocks, 1024 * b + 4 * w)
  {
    var x := 1024 * b + 4 * w;
    assert x / 1024 == b && (x + 1) / 1024 == b && (x + 2) / 1024 == b && (x + 3) / 1024 == b;
    assert x % 1024 == 4 * w && (x + 1) % 1024 == 4 * w + 1 && (x + 2) % 1024 == 4 * w + 2
        && (x + 3) % 1024 == 4 * w + 3;
  }

  /** Inode `i` has the 64 bytes from 64 * i on in the inode area: its size at offset 8
      and its thirteen addresses from offset 12 on. */
  lemma InodePlace(sb: Superblock, blocks: Store, i: nat, k: nat)
    requires sb.WellFormed() && |blocks| == sb.size && i < sb.ninodes && k < 13
    ensures sb.IBlock(i) < |blocks| && (1024 * sb.inodestart + 64 * i + 63) / 1024 < |blocks|
    ensures var ino, x := ReadDinode(blocks[sb.IBlock(i)], i % IPB), 1024 * sb.inodestart + 64 * i;
            ino.size == DiskUint(blocks, x + 8) && |ino.addrs| == 13 && ino.addrs[k] == DiskUint(blocks, x + 12 + 4 * k)
  {
    InodeBlockIsMeta(sb, i);
    var b, slot := sb.IBlock(i), i % IPB;
    assert 1024 * b + 64 * slot == 1024 * sb.inodestart + 64 * i;
    WordPlace(blocks, b, 16 * slot + 2);
    WordPlace(blocks, b, 16 * slot + 3 + k);
  }

  /** No two inodes share a place. */
  lemma InodesApart(sb: Superblock, i: nat, j: nat)
    requires i != j
    ensures sb.IBlock(i) != sb.IBlock(j) || i % IPB != j % IPB
  {
  }

  /** 1 << k, for a bit of a byte. */
  const PLACES: seq<nat> := [1, 2, 4, 8, 16, 32, 64, 128]

  lemma {:induction false} BitIs(x: nat, k: nat)
    requires k < 8
    ensures Bit(x, k) <==> x / PLACES[k] % 2 == 1
    decreases k
  {
    if k > 0 {
      BitIs(x / 2, k - 1);
      assert x / 2 / 1 == x / 2 && x / 2 / 2 == x / 4 && x / 2 / 4 == x / 8 && x / 2 / 8 == x / 16
          && x / 2 / 16 == x / 32 && x / 2 / 32 == x / 64 && x / 2 / 64 == x / 128;
    }
  }

  /** Block `b` is in use if bit b % 8 of byte b / 8 of the bitmap is set. */
  lemma BitmapPlace(sb: Superblock, blocks: Store, b: nat)
    requires sb.WellFormed() && |blocks| == sb.size && b < sb.size
    ensures (1024 * sb.bmapstart + b / 8) / 1024 < |blocks|
    ensures Used(sb, blocks, b) <==> DiskByte(blocks, 1024 * sb.bmapstart + b / 8) / PLACES[b % 8] % 2 == 1
  {
    var x, bb, bi := 1024 * sb.bmapstart + b / 8, sb.BBlock(b), b % 8192;
    assert b == 8192 * (b / 8192) + bi;
    assert b / 8 == 1024 * (b / 8192) + bi / 8 && bi % 8 == b % 8;
    assert x == 1024 * bb + bi / 8 && bi / 8 < 1024;
    assert x / 1024 == bb && x % 1024 == bi / 8;
    BitIs(blocks[bb][bi / 8], bi % 8);
  }

  /** Block `bn` of a file: one of twelve direct addresses, or entry bn - 12 of the
      indirect block. */
  lemma PointerPlace(blocks: Store, ino: Inode, bn: nat)
    requires InodeOK(|blocks|, ino) && bn < 268
    ensures bn < 12 ==> DataBlock(blocks, ino, bn) == ino.addrs[bn]
    ensures bn >= 12 && ino.addrs[12] == 0 ==> DataBlock(blocks, ino, bn) == 0
    ensures bn >= 12 && ino.addrs[12] != 0 ==>
              && (1024 * ino.addrs[12] + 4 * (bn - 12) + 3) / 1024 < |blocks|
              && DataBlock(blocks, ino, bn) == DiskUint(blocks, 1024 * ino.addrs[12] + 4 * (bn - 12))
  {
    if bn >= 12 { WordPlace(blocks, ino.addrs[12], bn - 12); }
  }

  /** Byte `p` of a file is byte p % 1024 of its block p / 1024. */
  lemma FilePlace(blocks: Store, ino: Inode, p: nat)
    requires InodeOK(|blocks|, ino) && p < ino.size && 0 < DataBlock(blocks, ino, p / 1024) < |blocks|
    ensures var x := 1024 * DataBlock(blocks, ino, p / 1024) + p % 1024;
            x / 1024 < |blocks| && Content(blocks, ino)[p] == DiskByte(blocks, x)
  {
    var b := DataBlock(blocks, ino, p / 1024);
    var x := 1024 * b + p % 1024;
    assert x / 1024 == b && x % 1024 == p % 1024;
  }

  /** The log header, in block `b`: the count, then the block numbers. */
  lemma LogHeaderPlace(blocks: Store, b: nat, k: nat)
    requires b < |blocks| && GetWord(blocks[b], 0) <= 30 && k < GetWord(blocks[b], 0)
    ensures (1024 * b + 4 + 4 * k + 3) / 1024 < |blocks|
    ensures |RedoLog.Entries(blocks[b])| == DiskUint(blocks, 1024 * b)
            && RedoLog.Entries(blocks[b])[k] == DiskUint(blocks, 1024 * b + 4 + 4 * k)
  {
    WordPlace(blocks, b, 0);
    WordPlace(blocks, b, 1 + k);
  }
}
