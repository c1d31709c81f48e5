/** The on-disk protocol of kernel/log.c: which blocks commit and recovery
    write, in which order, and what a crash between any two writes leaves.

    Nothing here mentions the cache or the in-memory log: a commit is the list
    of its disk writes, and a crash cuts that list short. */
module RedoLog {
  import opened Blocks
  import opened BufferCache

  const MAXOPBLOCKS: nat := 10
  const LOGSIZE: nat := MAXOPBLOCKS * 3

  /** Where the log lies: header at `start`, slots after it, `size` blocks in all. */
  datatype Layout = Layout(dev: nat, start: nat, size: nat) {
    function Header(): Key { Key(dev, start) }
    function Slot(i: nat): Key { Key(dev, start + 1 + i) }
    function Home(b: nat): Key { Key(dev, b) }
    predicate InLog(k: Key) { k.dev == dev && start <= k.blockno < start + size }

    /** How many blocks a transaction can hold. */
    function Capacity(): int { if LOGSIZE < size - 1 then LOGSIZE else size - 1 }
  }

  // ---------------------------------------------------------- header encoding

  /** struct logheader read out of a block. */
  function Entries(h: Block): (es: seq<nat>)
    requires GetWord(h, 0) <= LOGSIZE
    ensures |es| == GetWord(h, 0)
  {
    seq(GetWord(h, 0), i requires 0 <= i < GetWord(h, 0) => GetWord(h, 1 + i))
  }

  ghost predicate Encodable(es: seq<nat>) {
    |es| <= LOGSIZE && forall i :: 0 <= i < |es| ==> es[i] < UINT_MAX
  }

  /** The first `k` iterations of write_head's copying loop. */
  function PutFirst(h: Block, es: seq<nat>, k: nat): (r: Block)
    requires Encodable(es) && k <= |es|
    ensures GetWord(r, 0) == GetWord(h, 0)
    ensures forall i :: 0 <= i < k ==> GetWord(r, 1 + i) == es[i]
  {
    if k == 0 then h else PutWord(PutFirst(h, es, k - 1), k, es[k - 1])
  }

  /** The header block write_head leaves, over the block's old contents. */
  function PutEntries(h: Block, es: seq<nat>): (r: Block)
    requires Encodable(es)
    ensures GetWord(r, 0) <= LOGSIZE && Entries(r) == es
  {
    PutFirst(PutWord(h, 0, |es|), es, |es|)
  }

  // ------------------------------------------------------------ logical disk

  ghost predicate GoodEntries(ly: Layout, d: Disk, es: seq<nat>) {
    && Encodable(es) && |es| <= ly.Capacity()
    && (forall i :: 0 <= i < |es| ==> ly.Home(es[i]) in d && !ly.InLog(ly.Home(es[i])))
    && (forall i, j :: 0 <= i < j < |es| ==> es[i] != es[j])
  }

  ghost predicate HasLog(ly: Layout, d: Disk) {
    && ly.size > 0 && ly.Header() in d
    && (forall i: nat :: i + 1 < ly.size ==> ly.Slot(i) in d)
  }

  ghost predicate GoodDisk(ly: Layout, d: Disk) {
    && HasLog(ly, d)
    && GetWord(d[ly.Header()], 0) <= LOGSIZE
    && GoodEntries(ly, d, Entries(d[ly.Header()]))
  }

  function IndexOf(es: seq<nat>, b: nat): (i: nat)
    ensures i <= |es|
    ensures i < |es| ==> es[i] == b
    ensures i == |es| <==> b !in es
  {
    if es == [] then 0 else if es[0] == b then 0 else 1 + IndexOf(es[1..], b)
  }

  /** What block `k` will hold once recovery has run. */
  ghost function LogicalAt(ly: Layout, d: Disk, k: Key): Block
    requires GoodDisk(ly, d) && k in d
  {
    var es := Entries(d[ly.Header()]);
    if k.dev == ly.dev && k.blockno in es then d[ly.Slot(IndexOf(es, k.blockno))] else d[k]
  }

  /** The file system a disk stands for: every block outside the log area, as
      recovery will leave it. */
  ghost function Logical(ly: Layout, d: Disk): Disk
    requires GoodDisk(ly, d)
  {
    map k | k in d && !ly.InLog(k) :: LogicalAt(ly, d, k)
  }

  ghost function HomeBlocks(ly: Layout, d: Disk): Disk {
    map k | k in d && !ly.InLog(k) :: d[k]
  }

  /** A file system with a whole transaction applied. */
  ghost function Updated(ly: Layout, fs: Disk, es: seq<nat>, datas: seq<Block>): Disk
    requires |es| == |datas|
  {
    map k | k in fs :: if k.dev == ly.dev && k.blockno in es then datas[IndexOf(es, k.blockno)] else fs[k]
  }

  // ------------------------------------------------------------- the protocol

  /** Disk write number `k` of commit(): the log slots in order, the header,
      the home blocks in order, the cleared header. */
  ghost function CommitWrite(ly: Layout, h: Block, es: seq<nat>, datas: seq<Block>, k: nat): Write
    requires Encodable(es) && |es| == |datas| && k < 2 * |es| + 2
  {
    var n := |es|;
    if k < n then Write(ly.Slot(k), datas[k])
    else if k == n then Write(ly.Header(), PutEntries(h, es))
    else if k <= 2 * n then Write(ly.Home(es[k - n - 1]), datas[k - n - 1])
    else Write(ly.Header(), PutEntries(PutEntries(h, es), []))
  }

  ghost function CommitWrites(ly: Layout, h: Block, es: seq<nat>, datas: seq<Block>): (ws: seq<Write>)
    requires Encodable(es) && |es| == |datas|
  {
    if |es| == 0 then []
    else seq(2 * |es| + 2, k requires 0 <= k < 2 * |es| + 2 => CommitWrite(ly, h, es, datas, k))
  }

  /** Disk write number `k` of recover_from_log(): install_trans, then write_head. */
  ghost function RecoveryWrite(ly: Layout, d: Disk, k: nat): Write
    requires GoodDisk(ly, d) && k <= |Entries(d[ly.Header()])|
  {
    var es := Entries(d[ly.Header()]);
    if k < |es| then Write(ly.Home(es[k]), d[ly.Slot(k)]) else Write(ly.Header(), PutEntries(d[ly.Header()], []))
  }

  ghost function RecoveryWrites(ly: Layout, d: Disk): (ws: seq<Write>)
    requires GoodDisk(ly, d)
    ensures |ws| == |Entries(d[ly.Header()])| + 1
  {
    seq(|Entries(d[ly.Header()])| + 1, k requires 0 <= k <= |Entries(d[ly.Header()])| => RecoveryWrite(ly, d, k))
  }

  ghost function RecoveredDisk(ly: Layout, d: Disk): Disk
    requires GoodDisk(ly, d)
  {
    After(d, RecoveryWrites(ly, d), |RecoveryWrites(ly, d)|)
  }

  /** `boots` are disks found at successive power-ups: each recovery but the
      last was cut short after some number of its writes. */
  ghost predicate InterruptedRecoveries(ly: Layout, boots: seq<Disk>)
    decreases |boots|
  {
    && |boots| > 0 && GoodDisk(ly, boots[0])
    && (|boots| > 1 ==>
          && (exists cut: nat :: CutRecovery(ly, boots[0], boots[1], cut))
          && InterruptedRecoveries(ly, boots[1..]))
  }

  ghost predicate CutRecovery(ly: Layout, d: Disk, d': Disk, cut: nat)
    requires GoodDisk(ly, d)
  {
    cut <= |RecoveryWrites(ly, d)| && d' == After(d, RecoveryWrites(ly, d), cut)
  }

  // -------------------------------------------------------- states in between

  /** Commit before its header write: `k` slots hold the new data, nothing else changed. */
  ghost predicate Logging(ly: Layout, d0: Disk, datas: seq<Block>, d: Disk, k: nat) {
    && k <= |datas| && |datas| < ly.size && HasLog(ly, d0)
    && d.Keys == d0.Keys
    && (forall i :: 0 <= i < k ==> d[ly.Slot(i)] == datas[i])
    && (forall key :: key in d && (!ly.InLog(key) || key == ly.Header()) ==> d[key] == d0[key])
  }

  /** After the header write: `es` is in the header, the slots hold `datas`, and
      the first `k` home blocks are installed. */
  ghost predicate Installing(ly: Layout, d0: Disk, es: seq<nat>, datas: seq<Block>, d: Disk, k: nat) {
    && k <= |es| == |datas| < ly.size && HasLog(ly, d0)
    && d.Keys == d0.Keys
    && GetWord(d[ly.Header()], 0) <= LOGSIZE && Entries(d[ly.Header()]) == es
    && (forall i :: 0 <= i < |es| ==> d[ly.Slot(i)] == datas[i])
    && (forall key :: key in d && !ly.InLog(key) ==>
          d[key] == if key.dev == ly.dev && key.blockno in es[..k]
                    then datas[IndexOf(es, key.blockno)] else d0[key])
  }

  /** Header cleared again. */
  ghost predicate Cleared(ly: Layout, fs: Disk, d: Disk) {
    && HasLog(ly, d)
    && GetWord(d[ly.Header()], 0) == 0
    && HomeBlocks(ly, d) == fs
  }

  lemma LoggingMeaning(ly: Layout, d0: Disk, datas: seq<Block>, d: Disk, k: nat)
    requires GoodDisk(ly, d0) && Entries(d0[ly.Header()]) == []
    requires Logging(ly, d0, datas, d, k)
    ensures GoodDisk(ly, d) && Logical(ly, d) == HomeBlocks(ly, d0)
  {
    assert d[ly.Header()] == d0[ly.Header()];
  }

  lemma InstallingMeaning(ly: Layout, d0: Disk, es: seq<nat>, datas: seq<Block>, d: Disk, k: nat)
    requires GoodEntries(ly, d0, es)
    requires Installing(ly, d0, es, datas, d, k)
    ensures GoodDisk(ly, d) && Logical(ly, d) == Updated(ly, HomeBlocks(ly, d0), es, datas)
  {
    forall key | key in d && !ly.InLog(key)
      ensures LogicalAt(ly, d, key) == Updated(ly, HomeBlocks(ly, d0), es, datas)[key]
    {
      if key.dev == ly.dev && key.blockno !in es { assert key.blockno !in es[..k]; }
    }
  }

  lemma ClearedMeaning(ly: Layout, fs: Disk, d: Disk)
    requires Cleared(ly, fs, d)
    ensures GoodDisk(ly, d) && Entries(d[ly.Header()]) == [] && Logical(ly, d) == fs
  {
  }

  lemma LogStep(ly: Layout, d0: Disk, datas: seq<Block>, d: Disk, k: nat)
    requires Logging(ly, d0, datas, d, k) && k < |datas|
    ensures Logging(ly, d0, datas, d[ly.Slot(k) := datas[k]], k + 1)
  {
    assert ly.Slot(k) in d0;
  }

  lemma HeaderStep(ly: Layout, d0: Disk, es: seq<nat>, datas: seq<Block>, d: Disk)
    requires Logging(ly, d0, datas, d, |datas|) && GoodEntries(ly, d0, es) && |es| == |datas|
    ensures Installing(ly, d0, es, datas, d[ly.Header() := PutEntries(d0[ly.Header()], es)], 0)
  {
  }

  lemma InstallStep(ly: Layout, d0: Disk, es: seq<nat>, datas: seq<Block>, d: Disk, k: nat)
    requires Installing(ly, d0, es, datas, d, k) && GoodEntries(ly, d0, es) && k < |es|
    ensures Installing(ly, d0, es, datas, d[ly.Home(es[k]) := datas[k]], k + 1)
  {
    var d' := d[ly.Home(es[k]) := datas[k]];
    assert !ly.InLog(ly.Home(es[k])) && ly.Home(es[k]) in d0;
    InstallSlots(ly, |es|, datas, d, d', ly.Home(es[k]));
    InstallHome(ly, es, datas, d0, d, d', k);
    hide GoodEntries, Entries, IndexOf;
  }

  /** A write outside the log area leaves header and slots alone. */
  lemma InstallSlots(ly: Layout, n: nat, datas: seq<Block>, d: Disk, d': Disk, key: Key)
    requires n < ly.size && n <= |datas| && ly.Header() in d && key in d && key in d' && d' == d[key := d'[key]]
    requires !ly.InLog(key) && forall i: nat :: i < n ==> ly.Slot(i) in d && d[ly.Slot(i)] == datas[i]
    ensures ly.Header() in d' && d'[ly.Header()] == d[ly.Header()] && d'.Keys == d.Keys
    ensures forall i: nat :: i < n ==> ly.Slot(i) in d' && d'[ly.Slot(i)] == datas[i]
  {
    forall i: nat | i < n ensures d'[ly.Slot(i)] == datas[i] {
      assert ly.InLog(ly.Slot(i));
    }
  }

  lemma InstallHome(ly: Layout, es: seq<nat>, datas: seq<Block>, d0: Disk, d: Disk, d': Disk, k: nat)
    requires k < |es| == |datas| && GoodEntries(ly, d0, es) && d.Keys == d0.Keys
    requires forall key :: key in d && !ly.InLog(key) ==>
               d[key] == if key.dev == ly.dev
                       && key.blockno in es[..k] then datas[IndexOf(es, key.blockno)] else d0[key]
    requires d' == d[ly.Home(es[k]) := datas[k]]
    ensures forall key :: key in d' && !ly.InLog(key) ==>
              d'[key] == if key.dev == ly.dev
                      && key.blockno in es[..k + 1] then datas[IndexOf(es, key.blockno)] else d0[key]
  {
    assert es[..k+1] == es[..k] + [es[k]];
    assert IndexOf(es, es[k]) == k;
  }

  lemma ClearStep(ly: Layout, d0: Disk, es: seq<nat>, datas: seq<Block>, d: Disk)
    requires Installing(ly, d0, es, datas, d, |es|) && GoodEntries(ly, d0, es)
    ensures Cleared(ly, Updated(ly, HomeBlocks(ly, d0), es, datas), d[ly.Header() := PutEntries(d[ly.Header()], [])])
  {
    assert es[..|es|] == es;
    assert HasLog(ly, d);
  }

  // -------------------------------------------------------------- main results

  /** Where a commit stands after `k` writes. */
  ghost predicate CommitAt(ly: Layout, d: Disk, es: seq<nat>, datas: seq<Block>, s: Disk, k: nat)
    requires HasLog(ly, d) && GoodEntries(ly, d, es) && 0 < |es| == |datas|
  {
    var n := |es|;
    if k <= n then Logging(ly, d, datas, s, k)
    else if k <= 2 * n + 1 then
      Installing(ly, d, es, datas, s, k - n - 1) && s[ly.Header()] == PutEntries(d[ly.Header()], es)
    else Cleared(ly, Updated(ly, HomeBlocks(ly, d), es, datas), s)
  }

  lemma CommitStep(ly: Layout, d: Disk, es: seq<nat>, datas: seq<Block>, s: Disk, k: nat)
    requires HasLog(ly, d) && GoodEntries(ly, d, es) == true && 0 < |es| == |datas|
    requires k < 2 * |es| + 2 && CommitAt(ly, d, es, datas, s, k) == true
    ensures var w := CommitWrite(ly, d[ly.Header()], es, datas, k);
            CommitAt(ly, d, es, datas, s[w.key := w.data], k + 1) == true
  {
    var n := |es|;
    if k < n {
      LogStep(ly, d, datas, s, k);
    } else if k == n {
      HeaderStep(ly, d, es, datas, s);
    } else if k <= 2 * n {
      InstallStep(ly, d, es, datas, s, k - n - 1);
      assert !ly.InLog(ly.Home(es[k - n - 1]));
    } else {
      ClearStep(ly, d, es, datas, s);
    }
  }

  ghost predicate AreCommitWrites(ly: Layout, h: Block, es: seq<nat>, datas: seq<Block>, ws: seq<Write>) {
    && Encodable(es) && 0 < |es| == |datas| && |ws| == 2 * |es| + 2
    && forall k :: 0 <= k < |ws| ==> ws[k] == CommitWrite(ly, h, es, datas, k)
  }

  lemma {:induction false} CommitPrefix(ly: Layout, d: Disk, es: seq<nat>, datas: seq<Block>, ws: seq<Write>, k: nat)
    requires HasLog(ly, d) && GoodEntries(ly, d, es) == true
    requires AreCommitWrites(ly, d[ly.Header()], es, datas, ws) && k <= |ws|
    ensures CommitAt(ly, d, es, datas, After(d, ws, k), k) == true
  {
    if k > 0 {
      hide CommitAt, CommitWrite, GoodEntries;
      CommitPrefix(ly, d, es, datas, ws, k - 1);
      CommitStep(ly, d, es, datas, After(d, ws, k - 1), k - 1);
    }
  }

  ghost function SlotContents(ly: Layout, d: Disk): (datas: seq<Block>)
    requires GoodDisk(ly, d)
  {
    var es := Entries(d[ly.Header()]);
    seq(|es|, i requires 0 <= i < |es| => d[ly.Slot(i)])
  }

  /** Where recovery of the disk `d` stands after `k` writes. */
  ghost predicate RecoveryAt(ly: Layout, d: Disk, s: Disk, k: nat)
    requires GoodDisk(ly, d)
  {
    var es, datas := Entries(d[ly.Header()]), SlotContents(ly, d);
    if k <= |es| then Installing(ly, d, es, datas, s, k) && s[ly.Header()] == d[ly.Header()]
    else Cleared(ly, Updated(ly, HomeBlocks(ly, d), es, datas), s)
  }

  lemma RecoveryStep(ly: Layout, d: Disk, s: Disk, k: nat)
    requires GoodDisk(ly, d) && k <= |Entries(d[ly.Header()])| && RecoveryAt(ly, d, s, k)
    ensures var w := RecoveryWrite(ly, d, k);
            RecoveryAt(ly, d, s[w.key := w.data], k + 1)
  {
    var es, datas := Entries(d[ly.Header()]), SlotContents(ly, d);
    if k < |es| {
      InstallStep(ly, d, es, datas, s, k);
      assert !ly.InLog(ly.Home(es[k]));
    } else {
      ClearStep(ly, d, es, datas, s);
    }
  }

  lemma {:induction false} RecoveryPrefix(ly: Layout, d: Disk, ws: seq<Write>, k: nat)
    requires GoodDisk(ly, d) && |ws| == |Entries(d[ly.Header()])| + 1 && k <= |ws|
    requires forall i :: 0 <= i < |ws| ==> ws[i] == RecoveryWrite(ly, d, i)
    ensures RecoveryAt(ly, d, After(d, ws, k), k)
  {
    if k > 0 {
      RecoveryPrefix(ly, d, ws, k - 1);
      RecoveryStep(ly, d, After(d, ws, k - 1), k - 1);
    }
  }

  /** However far recovery gets, the disk stands for the same file system; a
      complete recovery leaves that file system in place and the log empty. */
  lemma RecoveryPreservesLogical(ly: Layout, d: Disk, k: nat)
    requires GoodDisk(ly, d) && k <= |RecoveryWrites(ly, d)|
    ensures var s := After(d, RecoveryWrites(ly, d), k);
            && GoodDisk(ly, s) && Logical(ly, s) == Logical(ly, d)
            && (k == |RecoveryWrites(ly, d)| ==> Cleared(ly, Logical(ly, d), s))
  {
    RecoveryPrefix(ly, d, RecoveryWrites(ly, d), 0);
    RecoveryPrefix(ly, d, RecoveryWrites(ly, d), k);
    var es, datas, s := Entries(d[ly.Header()]), SlotContents(ly, d), After(d, RecoveryWrites(ly, d), k);
    InstallingMeaning(ly, d, es, datas, d, 0);
    if k <= |es| {
      InstallingMeaning(ly, d, es, datas, s, k);
    } else {
      ClearedMeaning(ly, Updated(ly, HomeBlocks(ly, d), es, datas), s);
    }
  }

  lemma {:induction false} InterruptedRecoveriesPreserve(ly: Layout, boots: seq<Disk>)
    requires InterruptedRecoveries(ly, boots)
    ensures var last := boots[|boots| - 1];
            GoodDisk(ly, last) && Logical(ly, last) == Logical(ly, boots[0])
    decreases |boots|
  {
    if |boots| > 1 {
      var cut: nat :| CutRecovery(ly, boots[0], boots[1], cut);
      RecoveryPreservesLogical(ly, boots[0], cut);
      InterruptedRecoveriesPreserve(ly, boots[1..]);
    }
  }

  /** Crash atomicity.  A commit is cut after `crash` of its writes, recovery is
      itself cut short any number of times and then runs to the end: the file
      system is the old one or the new one, whole, and it is the new one
      exactly when the header write (write number |es|) landed. */
  lemma CrashAtomicity(ly: Layout, d: Disk, es: seq<nat>, datas: seq<Block>, crash: nat, boots: seq<Disk>)
    requires GoodDisk(ly, d) && Entries(d[ly.Header()]) == []
    requires GoodEntries(ly, d, es) && |es| == |datas|
    requires crash <= |CommitWrites(ly, d[ly.Header()], es, datas)|
    requires InterruptedRecoveries(ly, boots)
    requires boots[0] == After(d, CommitWrites(ly, d[ly.Header()], es, datas), crash)
    ensures GoodDisk(ly, boots[|boots| - 1])
    ensures Cleared(ly,
                    if crash > |es| then Updated(ly, HomeBlocks(ly, d), es, datas) else HomeBlocks(ly, d),
                    RecoveredDisk(ly, boots[|boots| - 1]))
  {
    CommitCutMeaning(ly, d, es, datas, crash);
    InterruptedRecoveriesPreserve(ly, boots);
    var last := boots[|boots| - 1];
    var ws := RecoveryWrites(ly, last);
    RecoveryPreservesLogical(ly, last, |ws|);
  }

  lemma CommitAtMeaning(ly: Layout, d: Disk, es: seq<nat>, datas: seq<Block>, s: Disk, k: nat)
    requires GoodDisk(ly, d) && Entries(d[ly.Header()]) == []
    requires GoodEntries(ly, d, es) && 0 < |es| == |datas| && k <= 2 * |es| + 2
    requires CommitAt(ly, d, es, datas, s, k)
    ensures GoodDisk(ly, s) && HomeBlocks(ly, s).Keys == HomeBlocks(ly, d).Keys
    ensures Logical(ly, s) == if k > |es| then Updated(ly, HomeBlocks(ly, d), es, datas) else HomeBlocks(ly, d)
    ensures k == 2 * |es| + 2 ==> Entries(s[ly.Header()]) == []
  {
    var n := |es|;
    if k <= n {
      LoggingMeaning(ly, d, datas, s, k);
    } else if k <= 2 * n + 1 {
      InstallingMeaning(ly, d, es, datas, s, k - n - 1);
    } else {
      ClearedMeaning(ly, Updated(ly, HomeBlocks(ly, d), es, datas), s);
    }
    assert Logical(ly, s).Keys == HomeBlocks(ly, s).Keys;
  }

  /** What the disk stands for after any prefix of a commit's writes. */
  lemma CommitCutMeaning(ly: Layout, d: Disk, es: seq<nat>, datas: seq<Block>, crash: nat)
    requires GoodDisk(ly, d) && Entries(d[ly.Header()]) == []
    requires GoodEntries(ly, d, es) && |es| == |datas|
    requires crash <= |CommitWrites(ly, d[ly.Header()], es, datas)|
    ensures var s := After(d, CommitWrites(ly, d[ly.Header()], es, datas), crash);
            && GoodDisk(ly, s)
            && Logical(ly, s) == if crash > |es| then Updated(ly, HomeBlocks(ly, d), es, datas) else HomeBlocks(ly, d)
  {
    if |es| == 0 {
      ClearedMeaning(ly, HomeBlocks(ly, d), d);
    } else {
      var ws := CommitWrites(ly, d[ly.Header()], es, datas);
      CommitPrefix(ly, d, es, datas, ws, crash);
      CommitAtMeaning(ly, d, es, datas, After(d, ws, crash), crash);
    }
  }

  /** The disk `k` writes into a commit. */
  ghost function CommitDisk(ly: Layout, d: Disk, es: seq<nat>, datas: seq<Block>, k: nat): Disk
    requires Encodable(es) && |es| == |datas| && ly.Header() in d
    requires k <= |CommitWrites(ly, d[ly.Header()], es, datas)|
  {
    After(d, CommitWrites(ly, d[ly.Header()], es, datas), k)
  }

  /** The disk `k` writes into a recovery. */
  ghost function RecoveryDisk(ly: Layout, d: Disk, k: nat): Disk
    requires GoodDisk(ly, d) && k <= |RecoveryWrites(ly, d)|
  {
    After(d, RecoveryWrites(ly, d), k)
  }

  lemma CommitDiskKeys(ly: Layout, d: Disk, es: seq<nat>, datas: seq<Block>, k: nat)
    requires HasLog(ly, d) && GoodEntries(ly, d, es) && |es| == |datas|
    requires k <= |CommitWrites(ly, d[ly.Header()], es, datas)|
    ensures CommitDisk(ly, d, es, datas, k).Keys == d.Keys
  {
    var ws := CommitWrites(ly, d[ly.Header()], es, datas);
    forall i | 0 <= i < k ensures ws[i].key in d {
      assert ws[i] == CommitWrite(ly, d[ly.Header()], es, datas, i);
    }
    AfterKeys(d, ws, k);
  }

  lemma RecoveryDiskKeys(ly: Layout, d: Disk, k: nat)
    requires GoodDisk(ly, d) && k <= |RecoveryWrites(ly, d)|
    ensures RecoveryDisk(ly, d, k).Keys == d.Keys
  {
    var ws := RecoveryWrites(ly, d);
    forall i | 0 <= i < k ensures ws[i].key in d {
      assert ws[i] == RecoveryWrite(ly, d, i);
    }
    AfterKeys(d, ws, k);
  }

  lemma CommitDiskStep(ly: Layout, d: Disk, es: seq<nat>, datas: seq<Block>, k: nat)
    requires Encodable(es) && 0 < |es| == |datas| && ly.Header() in d && k < 2 * |es| + 2
    ensures var w := CommitWrite(ly, d[ly.Header()], es, datas, k);
            CommitDisk(ly, d, es, datas, k + 1) == CommitDisk(ly, d, es, datas, k)[w.key := w.data]
  {
  }

  lemma RecoveryDiskStep(ly: Layout, d: Disk, k: nat)
    requires GoodDisk(ly, d) == true && k <= |Entries(d[ly.Header()])|
    ensures var w := RecoveryWrite(ly, d, k);
            RecoveryDisk(ly, d, k + 1) == RecoveryDisk(ly, d, k)[w.key := w.data]
  {
  }

  /** What the next write of a commit is, in terms of the disk it has reached. */
  lemma NextCommitWriteIs(ly: Layout, d: Disk, es: seq<nat>, datas: seq<Block>, k: nat)
    requires HasLog(ly, d) && GoodEntries(ly, d, es) == true && 0 < |es| == |datas| && k < 2 * |es| + 2
    ensures CommitDisk(ly, d, es, datas, k).Keys == d.Keys
    ensures var s, n := CommitDisk(ly, d, es, datas, k), |es|;
            CommitWrite(ly, d[ly.Header()], es, datas, k) ==
            if k < n then Write(ly.Slot(k), datas[k])
            else if k == n then Write(ly.Header(), PutEntries(s[ly.Header()], es))
            else if k <= 2 * n then Write(ly.Home(es[k - n - 1]), s[ly.Slot(k - n - 1)])
            else Write(ly.Header(), PutEntries(s[ly.Header()], []))
  {
    CommitDiskKeys(ly, d, es, datas, k);
    CommitPrefix(ly, d, es, datas, CommitWrites(ly, d[ly.Header()], es, datas), k);
  }
}
