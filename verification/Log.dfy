/** kernel/log.c over the buffer cache of kernel/bio.c. */
module Log {
  import opened Blocks
  import opened BufferCache
  import opened RedoLog

  datatype LogWriteResult = Logged | TooBig | OutsideTransaction
  datatype EndOpResult = Committed | StillOutstanding | PanicCommitting | PanicNoBuffers

  /** Nobody but the log itself uses the log area, and it only for a moment. */
  ghost predicate Calm(ly: Layout, bufs: seq<Buf>) {
    |bufs| == NBUF && forall j :: 0 <= j < NBUF && ly.InLog(bufs[j].key) ==> bufs[j].refcnt == 0
  }

  /** Referenced buffers are untouched, and no reference is gained or lost. */
  ghost predicate KeepsReferenced(was: seq<Buf>, now: seq<Buf>) {
    && |was| == |now|
    && forall j :: 0 <= j < |was| ==>
         && was[j].refcnt == now[j].refcnt && was[j].locked == now[j].locked
         && (was[j].refcnt > 0 ==> now[j] == was[j])
  }

  ghost predicate AllUnused(bufs: seq<Buf>) {
    forall j :: 0 <= j < |bufs| ==> bufs[j].refcnt == 0 && !bufs[j].locked
  }

  /** Buffer `p` lost one reference and holds `data`; other referenced buffers are untouched. */
  ghost predicate Unpinned(was: seq<Buf>, now: seq<Buf>, p: nat, data: Block) {
    && |was| == |now| && p < |was| && was[p].refcnt > 0
    && now[p] == was[p].(data := data, refcnt := was[p].refcnt - 1)
    && forall j :: 0 <= j < |was| && j != p ==>
         && was[j].refcnt == now[j].refcnt && was[j].locked == now[j].locked
         && (was[j].refcnt > 0 ==> now[j] == was[j])
  }

  /** Buffer `pin[es[i]]` holds block `es[i]`, modified and referenced by the log. */
  ghost predicate Pinned(ly: Layout, bufs: seq<Buf>, es: seq<nat>, pin: map<nat, nat>) {
    forall i :: 0 <= i < |es| ==>
      && es[i] in pin && pin[es[i]] < |bufs|
      && bufs[pin[es[i]]].key == ly.Home(es[i])
      && bufs[pin[es[i]]].valid && bufs[pin[es[i]]].refcnt > 0
  }

  /** Nobody holds the lock of a logged block's buffer. */
  ghost predicate PinsFree(bufs: seq<Buf>, es: seq<nat>, pin: map<nat, nat>) {
    forall i :: 0 <= i < |es| ==> es[i] in pin && pin[es[i]] < |bufs| && !bufs[pin[es[i]]].locked
  }

  /** Only blocks of the log area differ. */
  ghost predicate SameFiles(ly: Layout, s: Disk, t: Disk) {
    s.Keys == t.Keys && forall k :: k in s && !ly.InLog(k) ==> t[k] == s[k]
  }

  /** The modified blocks as the cache holds them, in log order. */
  ghost function DatasOf(ly: Layout, bufs: seq<Buf>, es: seq<nat>, pin: map<nat, nat>): (datas: seq<Block>)
    requires Pinned(ly, bufs, es, pin)
    ensures |datas| == |es|
    ensures forall i :: 0 <= i < |es| ==> datas[i] == bufs[pin[es[i]]].data
  {
    seq(|es|, i requires 0 <= i < |es| => bufs[pin[es[i]]].data)
  }

  /** Nothing dirty lies in the log area, so log blocks read as they are on disk. */
  lemma LogBlocksAreClean(ly: Layout, bufs: seq<Buf>, dirty: set<nat>, disk: Disk, store: Disk, key: Key)
    requires Coherent(bufs, dirty, disk, store) == true && Calm(ly, bufs) == true
    requires key in disk && ly.InLog(key)
    ensures store.Keys == disk.Keys && store[key] == disk[key]
  {
    CleanIsOnDisk(bufs, dirty, disk, store, key);
  }

  lemma UnusedIsClean(bufs: seq<Buf>, dirty: set<nat>, disk: Disk, store: Disk, i: nat)
    requires Coherent(bufs, dirty, disk, store) == true && i < |bufs| && bufs[i].refcnt == 0
    ensures i !in dirty && dirty - {i} == dirty && !bufs[i].locked
  {
  }

  /** Over a read of `t` (unused before) and `f` (in use), a copy into `t` and
      both releases, no referenced buffer has changed. */
  lemma HeldAndReleased(b0: seq<Buf>, b1: seq<Buf>, b2: seq<Buf>, t: nat, f: nat)
    requires t < |b0| && f < |b0| && t != f && SameExcept(b0, b1, {t, f})
    requires b0[t].refcnt == 0 && !b0[t].locked && b1[t].refcnt == 1
    requires b0[f].refcnt > 0 && !b0[f].locked && b0[f].valid
    requires b1[f] == Read(b0[f].key, b0[f].refcnt + 1, b0[f].data)
    requires SameExcept(b1, b2, {t, f}) && b2[f] == Released(b1[f])
    requires b2[t].refcnt == 0 && !b2[t].locked
    ensures KeepsReferenced(b0, b2) == true
  {
  }

  /** The buffers a log block and a home block were read into. */
  lemma PairRead(ly: Layout, b0: seq<Buf>, b1: seq<Buf>, a: Key, b: Key, i: nat, j: nat, p: nat)
    requires Calm(ly, b0) == true && BothRead(b0, b1, a, b, i, j) && ly.InLog(a) && p < |b0| && b0[p].key == b
            && b0[p].refcnt > 0
    ensures j == p && b0[i].refcnt == 0 && b1[i].refcnt == 1
  {
  }

  lemma AfterInstall(ly: Layout, b0: seq<Buf>, b1: seq<Buf>, b2: seq<Buf>, l: nat, d: nat, recovering: bool)
    requires |b0| == |b1| == |b2| && Calm(ly, b0) == true && l < |b0| && d < |b0| && l != d
    requires SameExcept(b0, b1, {l, d}) && SameExcept(b1, b2, {l, d})
    requires b0[l].refcnt == 0 && !b0[l].locked && b2[l].refcnt == 0 && !b2[l].locked
    requires if recovering then AllUnused(b0) == true else b0[d].refcnt > 0 && !b0[d].locked
    requires b2[d].key == b1[d].key && b2[d].valid && !b2[d].locked
    requires b2[d].refcnt == b0[d].refcnt - if recovering then 0 else 1
    ensures recovering ==> AllUnused(b2) == true && Calm(ly, b2) == true
    ensures !recovering && b1[d].key == b0[d].key && b0[d].valid ==> Unpinned(b0, b2, d, b2[d].data) == true
  {
  }

  /** The history is `w0`, which made disk `d0` out of `origin`, and then the
      first `k` writes of the commit of `datas` to `es`. */
  ghost predicate Committing(ly: Layout, origin: Disk, d0: Disk, w0: seq<Write>, es: seq<nat>, datas: seq<Block>,
                             k: nat, writes: seq<Write>) {
    && HasLog(ly, d0) && GoodEntries(ly, d0, es) && 0 < |es| == |datas| && k <= 2 * |es| + 2
    && d0 == After(origin, w0, |w0|)
    && |writes| == |w0| + k && writes[..|w0|] == w0
    && forall i :: 0 <= i < k ==> writes[|w0| + i] == CommitWrite(ly, d0[ly.Header()], es, datas, i)
  }

  lemma CommitAdvances(ly: Layout, origin: Disk, d0: Disk, w0: seq<Write>, es: seq<nat>, datas: seq<Block>,
                       k: nat, writes: seq<Write>)
    requires Committing(ly, origin, d0, w0, es, datas, k, writes) == true && k < 2 * |es| + 2
    ensures Committing(ly, origin, d0, w0, es, datas, k + 1,
                       writes + [CommitWrite(ly, d0[ly.Header()], es, datas, k)]) == true
  {
  }

  lemma CommitFinished(ly: Layout, origin: Disk, d0: Disk, w0: seq<Write>, es: seq<nat>, datas: seq<Block>,
                       k: nat, writes: seq<Write>)
    requires Committing(ly, origin, d0, w0, es, datas, k, writes) == true && k == 2 * |es| + 2
    ensures writes == w0 + CommitWrites(ly, d0[ly.Header()], es, datas)
  {
  }

  /** The disk a commit has reached, from its history. */
  lemma CommitReached(ly: Layout, origin: Disk, d0: Disk, w0: seq<Write>, es: seq<nat>, datas: seq<Block>,
                      k: nat, writes: seq<Write>)
    requires Committing(ly, origin, d0, w0, es, datas, k, writes) == true
    ensures CommitAt(ly, d0, es, datas, After(origin, writes, |writes|), k)
  {
    var ws := CommitWrites(ly, d0[ly.Header()], es, datas);
    AfterPart(origin, w0, ws, k, writes);
    CommitPrefix(ly, d0, es, datas, ws, k);
  }

  /** What a commit finds on disk at each kind of step, and writes next. */
  lemma NextIsSlot(ly: Layout, origin: Disk, d0: Disk, w0: seq<Write>, es: seq<nat>, datas: seq<Block>,
                   k: nat, disk: Disk, writes: seq<Write>)
    requires Committing(ly, origin, d0, w0, es, datas, k, writes) == true && k < |es|
    requires disk == After(origin, writes, |writes|)
    ensures ly.Slot(k) in disk && ly.InLog(ly.Slot(k))
    ensures Committing(ly, origin, d0, w0, es, datas, k + 1, writes + [Write(ly.Slot(k), datas[k])]) == true
  {
    CommitReached(ly, origin, d0, w0, es, datas, k, writes);
    CommitAdvances(ly, origin, d0, w0, es, datas, k, writes);
  }

  lemma NextIsHead(ly: Layout, origin: Disk, d0: Disk, w0: seq<Write>, es: seq<nat>, datas: seq<Block>,
                   k: nat, disk: Disk, writes: seq<Write>)
    requires Committing(ly, origin, d0, w0, es, datas, k, writes) == true && k == |es|
    requires disk == After(origin, writes, |writes|)
    ensures ly.Header() in disk && ly.InLog(ly.Header())
    ensures Committing(ly, origin, d0, w0, es, datas, k + 1,
                       writes + [Write(ly.Header(), PutEntries(disk[ly.Header()], es))])
  {
    CommitReached(ly, origin, d0, w0, es, datas, k, writes);
    CommitAdvances(ly, origin, d0, w0, es, datas, k, writes);
  }

  lemma NextIsHome(ly: Layout, origin: Disk, d0: Disk, w0: seq<Write>, es: seq<nat>, datas: seq<Block>,
                   t: nat, k: nat, disk: Disk, writes: seq<Write>)
    requires Committing(ly, origin, d0, w0, es, datas, k, writes) == true && t < |es| && k == |es| + 1 + t
    requires disk == After(origin, writes, |writes|)
    ensures ly.Slot(t) in disk && ly.InLog(ly.Slot(t)) && disk[ly.Slot(t)] == datas[t]
    ensures ly.Home(es[t]) in disk && !ly.InLog(ly.Home(es[t]))
    ensures Committing(ly, origin, d0, w0, es, datas, k + 1, writes + [Write(ly.Home(es[t]), datas[t])]) == true
  {
    CommitReached(ly, origin, d0, w0, es, datas, k, writes);
    CommitAdvances(ly, origin, d0, w0, es, datas, k, writes);
    assert k - |es| - 1 == t;
  }

  lemma NextIsClear(ly: Layout, origin: Disk, d0: Disk, w0: seq<Write>, es: seq<nat>, datas: seq<Block>,
                    k: nat, disk: Disk, writes: seq<Write>)
    requires Committing(ly, origin, d0, w0, es, datas, k, writes) == true && k == 2 * |es| + 1
    requires disk == After(origin, writes, |writes|)
    ensures ly.Header() in disk && ly.InLog(ly.Header())
    ensures Committing(ly, origin, d0, w0, es, datas, k + 1,
                       writes + [Write(ly.Header(), PutEntries(disk[ly.Header()], []))])
  {
    CommitReached(ly, origin, d0, w0, es, datas, k, writes);
    CommitAdvances(ly, origin, d0, w0, es, datas, k, writes);
  }

  lemma CommittedDisk(ly: Layout, origin: Disk, d0: Disk, w0: seq<Write>, es: seq<nat>, datas: seq<Block>,
                      k: nat, disk: Disk, writes: seq<Write>)
    requires Committing(ly, origin, d0, w0, es, datas, k, writes) == true && k == 2 * |es| + 2
    requires disk == After(origin, writes, |writes|)
    ensures Cleared(ly, Updated(ly, HomeBlocks(ly, d0), es, datas), disk)
  {
    CommitReached(ly, origin, d0, w0, es, datas, k, writes);
  }

  /** The history is `w0`, which made disk `d0`, and then `k` writes of the recovery of `d0`. */
  ghost predicate Recovering(ly: Layout, origin: Disk, d0: Disk, w0: seq<Write>, k: nat, writes: seq<Write>) {
    && GoodDisk(ly, d0) && k <= |Entries(d0[ly.Header()])| + 1
    && d0 == After(origin, w0, |w0|)
    && |writes| == |w0| + k && writes[..|w0|] == w0
    && forall i :: 0 <= i < k ==> writes[|w0| + i] == RecoveryWrite(ly, d0, i)
  }

  lemma RecoveryReached(ly: Layout, origin: Disk, d0: Disk, w0: seq<Write>, k: nat, writes: seq<Write>)
    requires Recovering(ly, origin, d0, w0, k, writes) == true
    ensures RecoveryAt(ly, d0, After(origin, writes, |writes|), k)
  {
    var ws := RecoveryWrites(ly, d0);
    AfterPart(origin, w0, ws, k, writes);
    RecoveryPrefix(ly, d0, ws, k);
  }

  lemma RecoverNext(ly: Layout, origin: Disk, d0: Disk, w0: seq<Write>, k: nat, disk: Disk, writes: seq<Write>)
    requires Recovering(ly, origin, d0, w0, k, writes) == true && HasLog(ly, d0) && k <= |Entries(d0[ly.Header()])|
    requires disk == After(origin, writes, |writes|)
    ensures var es := Entries(d0[ly.Header()]);
            if k < |es| then
              && ly.Slot(k) in disk && ly.InLog(ly.Slot(k)) && ly.Home(es[k]) in disk && !ly.InLog(ly.Home(es[k]))
              && Recovering(ly, origin, d0, w0, k + 1, writes + [Write(ly.Home(es[k]), disk[ly.Slot(k)])]) == true
            else
              && ly.Header() in disk && ly.InLog(ly.Header())
              && Recovering(ly, origin, d0, w0, k + 1, writes + [Write(ly.Header(), PutEntries(disk[ly.Header()], []))])
  {
    RecoveryReached(ly, origin, d0, w0, k, writes);
    RecoveryAdvances(ly, origin, d0, w0, k, writes);
    var es := Entries(d0[ly.Header()]);
    if k < |es| { assert disk[ly.Slot(k)] == SlotContents(ly, d0)[k]; }
    assert GoodDisk(ly, d0);
    hide Recovering, Entries, PutEntries;
  }

  lemma RecoveryAdvances(ly: Layout, origin: Disk, d0: Disk, w0: seq<Write>, k: nat, writes: seq<Write>)
    requires Recovering(ly, origin, d0, w0, k, writes) == true && HasLog(ly, d0) && k <= |Entries(d0[ly.Header()])|
    ensures GoodDisk(ly, d0) && Recovering(ly, origin, d0, w0, k + 1, writes + [RecoveryWrite(ly, d0, k)]) == true
  {
  }

  lemma RecoveryFinished(ly: Layout, origin: Disk, d0: Disk, w0: seq<Write>, k: nat, disk: Disk, writes: seq<Write>)
    requires Recovering(ly, origin, d0, w0, k, writes) == true && HasLog(ly, d0) && k == |Entries(d0[ly.Header()])| + 1
    requires disk == After(origin, writes, |writes|)
    ensures writes == w0 + RecoveryWrites(ly, d0)
    ensures Cleared(ly, Logical(ly, d0), disk) && HasLog(ly, disk)
  {
    var ws := RecoveryWrites(ly, d0);
    assert writes == w0 + ws;
    AfterPart(origin, w0, ws, k, writes);
    RecoveryPreservesLogical(ly, d0, k);
  }

  lemma KeepsCalm(ly: Layout, was: seq<Buf>, now: seq<Buf>)
    requires Calm(ly, was) == true && SomeUnused(was) == true && KeepsReferenced(was, now) == true
    ensures Calm(ly, now) == true && SomeUnused(now) == true
  {
    var j :| 0 <= j < |was| && was[j].refcnt == 0;
    assert now[j].refcnt == 0;
    forall k | 0 <= k < NBUF ensures ly.InLog(now[k].key) ==> now[k].refcnt == 0 {
      if was[k].refcnt > 0 { assert now[k] == was[k]; }
    }
  }

  ghost function PinSet(es: seq<nat>, pin: map<nat, nat>, k: nat): set<nat>
    requires k <= |es| && forall i :: 0 <= i < k ==> es[i] in pin
  {
    set i | 0 <= i < k :: pin[es[i]]
  }

  /** The buffers in `pins` lost one reference each; nothing else that is
      referenced changed. */
  ghost predicate PinsDropped(was: seq<Buf>, now: seq<Buf>, pins: set<nat>) {
    && |was| == |now|
    && forall j :: 0 <= j < |was| ==>
         && was[j].locked == now[j].locked
         && now[j].refcnt == was[j].refcnt - (if j in pins then 1 else 0)
         && (now[j].refcnt > 0 ==> now[j] == was[j].(refcnt := now[j].refcnt))
  }

  lemma PinSetGrows(ly: Layout, bufs: seq<Buf>, es: seq<nat>, pin: map<nat, nat>, k: nat)
    requires Pinned(ly, bufs, es, pin) && k < |es|
    requires forall i, j :: 0 <= i < j < |es| ==> es[i] != es[j]
    ensures pin[es[k]] !in PinSet(es, pin, k)
    ensures PinSet(es, pin, k + 1) == PinSet(es, pin, k) + {pin[es[k]]}
  {
    forall i | 0 <= i < k ensures pin[es[i]] != pin[es[k]] {
      assert bufs[pin[es[i]]].key.blockno != bufs[pin[es[k]]].key.blockno;
    }
  }

  lemma DroppedCalm(ly: Layout, was: seq<Buf>, now: seq<Buf>, pins: set<nat>)
    requires Calm(ly, was) == true && SomeUnused(was) == true && PinsDropped(was, now, pins) == true
    ensures Calm(ly, now) == true && SomeUnused(now) == true
  {
    var j :| 0 <= j < |was| && was[j].refcnt == 0;
    assert now[j].refcnt == 0;
    forall k | 0 <= k < NBUF ensures ly.InLog(now[k].key) ==> now[k].refcnt == 0 {
      if now[k].refcnt > 0 { assert now[k].key == was[k].key; }
    }
  }

  lemma DropOneMore(b0: seq<Buf>, b: seq<Buf>, b': seq<Buf>, pins: set<nat>, p: nat)
    requires PinsDropped(b0, b, pins) == true && p < |b0| && p !in pins && b0[p].refcnt > 0
    requires Unpinned(b, b', p, b0[p].data) == true
    ensures PinsDropped(b0, b', pins + {p}) == true
  {
  }

  lemma KeepsPinned(ly: Layout, was: seq<Buf>, now: seq<Buf>, es: seq<nat>, pin: map<nat, nat>)
    requires Pinned(ly, was, es, pin) && KeepsReferenced(was, now) == true
    ensures Pinned(ly, now, es, pin) && DatasOf(ly, now, es, pin) == DatasOf(ly, was, es, pin)
    ensures PinsFree(was, es, pin) ==> PinsFree(now, es, pin) == true
  {
  }

  lemma KeptAround(b0: seq<Buf>, b1: seq<Buf>, b2: seq<Buf>, b3: seq<Buf>, pins: set<nat>)
    requires KeepsReferenced(b0, b1) == true && PinsDropped(b1, b2, pins) == true && KeepsReferenced(b2, b3) == true
    ensures PinsDropped(b0, b3, pins) == true
  {
  }

  // -------------------------------------------------------- a buffer for commit

  /** A log of NBUF blocks, which is LOGSIZE, pins every buffer there is. */
  lemma FullLogPinsAll(ly: Layout, bufs: seq<Buf>, es: seq<nat>, pin: map<nat, nat>)
    requires |bufs| == NBUF && Pinned(ly, bufs, es, pin) && |es| == NBUF
    requires forall i, j :: 0 <= i < j < |es| ==> es[i] != es[j]
    ensures !SomeUnused(bufs)
  {
    PinSetSize(ly, bufs, es, pin, |es|);
    FullSet(PinSet(es, pin, |es|), NBUF);
    hide PinSet;
  }

  lemma {:induction false} FullSet(s: set<nat>, n: nat)
    requires |s| == n && forall x :: x in s ==> x < n
    ensures forall x: nat :: x < n ==> x in s
    decreases n
  {
    if n > 0 {
      if n - 1 in s {
        FullSet(s - {n - 1}, n - 1);
        forall x: nat | x < n ensures x in s {
          assert x < n - 1 ==> x in s - {n - 1};
        }
      } else {
        Fits(s, n - 1);
      }
    }
  }

  /** Where only the log holds references, commit finds a buffer exactly if fewer
      than NBUF blocks are logged. */
  lemma UnusedIff(ly: Layout, bufs: seq<Buf>, es: seq<nat>, pin: map<nat, nat>)
    requires |bufs| == NBUF && Pinned(ly, bufs, es, pin) && |es| <= LOGSIZE
    requires forall i, j :: 0 <= i < j < |es| ==> es[i] != es[j]
    requires forall j :: 0 <= j < NBUF && bufs[j].refcnt > 0 ==> j in PinSet(es, pin, |es|)
    ensures SomeUnused(bufs) == true <==> |es| < NBUF
  {
    if |es| == NBUF {
      FullLogPinsAll(ly, bufs, es, pin);
    } else {
      PinSetSize(ly, bufs, es, pin, |es|);
      if !SomeUnused(bufs) {
        AllBelow(PinSet(es, pin, |es|), NBUF);
      }
    }
  }

  /** So in a log area of at most LOGSIZE blocks, as mkfs makes it, the log alone
      never takes all buffers; in a larger one it can. */
  lemma CapacityLeavesABuffer(ly: Layout)
    ensures ly.Capacity() < NBUF <==> ly.size <= LOGSIZE
  {
  }

  lemma {:induction false} PinSetSize(ly: Layout, bufs: seq<Buf>, es: seq<nat>, pin: map<nat, nat>, k: nat)
    requires Pinned(ly, bufs, es, pin) && k <= |es| && forall i, j :: 0 <= i < j < |es| ==> es[i] != es[j]
    ensures |PinSet(es, pin, k)| == k && forall p :: p in PinSet(es, pin, k) ==> p < |bufs| && bufs[p].refcnt > 0
    decreases k
  {
    hide PinSet;
    if k > 0 {
      PinSetSize(ly, bufs, es, pin, k - 1);
      PinSetGrows(ly, bufs, es, pin, k - 1);
      assert bufs[pin[es[k - 1]]].refcnt > 0;
      hide Pinned;
    } else {
      NoPins(es, pin);
    }
  }

  lemma NoPins(es: seq<nat>, pin: map<nat, nat>)
    ensures PinSet(es, pin, 0) == {}
  {
  }

  lemma {:induction false} Fits(s: set<nat>, n: nat)
    requires forall x :: x in s ==> x < n
    ensures |s| <= n
    decreases n
  {
    if n > 0 { Fits(s - {n - 1}, n - 1); }
  }

  lemma {:induction false} AllBelow(s: set<nat>, n: nat)
    requires forall x: nat :: x < n ==> x in s
    ensures |s| >= n
    decreases n
  {
    if n > 0 {
      AllBelow(s - {n - 1}, n - 1);
      assert |s - {n - 1}| == |s| - 1;
    }
  }

  class Log {
    const bc: BCache
    const ly: Layout
    var outstanding: nat
    var committing: bool
    var n: nat
    const block: array<nat>
    ghost var pin: map<nat, nat>

    /** initlog up to the call of recover_from_log. */
    constructor (bc: BCache, ly: Layout)
      ensures this.bc == bc && this.ly == ly && fresh(block) && block.Length == LOGSIZE
      ensures outstanding == 0 && !committing && n == 0
    {
      this.bc, this.ly := bc, ly;
      outstanding, committing, n := 0, false, 0;
      block := new nat[LOGSIZE];
      pin := map[];
    }

    ghost predicate Valid()
      reads this, bc, block
    {
      && bc.Valid() && block.Length == LOGSIZE
      && n <= LOGSIZE && HasLog(ly, bc.disk)
      && GoodEntries(ly, bc.disk, block[..n])
      && Pinned(ly, bc.bufs, block[..n], pin)
    }

    /** begin_op, once round its loop: admitted, or put to sleep. */
    method BeginOp() returns (admitted: bool)
      modifies this`outstanding
      ensures admitted <==> !committing && n + (old(outstanding) + 1) * MAXOPBLOCKS <= LOGSIZE
      ensures outstanding == if admitted then old(outstanding) + 1 else old(outstanding)
    {
      if committing {
        admitted := false;
      } else if n + (outstanding + 1) * MAXOPBLOCKS > LOGSIZE {
        admitted := false;
      } else {
        outstanding := outstanding + 1;
        admitted := true;
      }
    }

    /** end_op: the last call out commits for all, and lets calls in again. */
    method EndOp() returns (r: EndOpResult)
      requires Valid() && outstanding > 0
      requires outstanding == 1 ==> Calm(ly, bc.bufs) == true && PinsFree(bc.bufs, block[..n], pin) == true
      modifies this`outstanding, this`committing, this`n, bc
      ensures outstanding == old(outstanding) - 1
      ensures r.PanicCommitting? <==> old(committing)
      ensures r.StillOutstanding? <==> !old(committing) && outstanding > 0
      ensures r.PanicNoBuffers? <==> !old(committing) && outstanding == 0 && old(n) > 0 && !SomeUnused(old(bc.bufs))
      ensures r.Committed? ==>
              Valid() && !committing && n == 0
                      && CommitDone(old(bc.disk), bc.disk, old(block[..n]), old(DatasOf(ly, bc.bufs, block[..n], pin)))
      ensures r.StillOutstanding? ==>
              Valid() && !committing && n == old(n) && bc.bufs == old(bc.bufs) && bc.disk == old(bc.disk)
    {
      outstanding := outstanding - 1;
      if committing {
        return PanicCommitting;
      }
      if outstanding > 0 {
        return StillOutstanding;
      }
      committing := true;
      var panicked := Commit();
      if panicked {
        return PanicNoBuffers;
      }
      committing := false;
      return Committed;
    }

    /** A commit has made `datas` the contents of `es`, and left the log empty. */
    ghost predicate CommitDone(d0: Disk, d: Disk, es: seq<nat>, datas: seq<Block>) {
      && HasLog(ly, d0) && GoodEntries(ly, d0, es) && |es| == |datas|
      && if es == [] then d == d0 else Cleared(ly, Updated(ly, HomeBlocks(ly, d0), es, datas), d)
    }

    /** log_write: absorbs a block already logged, pins and appends a new one.
        The capacity test comes first, so it also stops an absorbed write. */
    method LogWrite(i: nat) returns (r: LogWriteResult)
      requires Valid()
      requires i < NBUF && bc.bufs[i].valid && bc.bufs[i].locked
      requires bc.bufs[i].key.dev == ly.dev && !ly.InLog(bc.bufs[i].key) && bc.bufs[i].key.blockno < UINT_MAX
      modifies this, block, bc`bufs
      ensures Valid()
      ensures outstanding == old(outstanding) && committing == old(committing)
      ensures r.TooBig? <==> old(n) >= ly.Capacity()
      ensures r.OutsideTransaction? <==> old(n) < ly.Capacity() && outstanding < 1
      ensures !r.Logged? ==> n == old(n) && block[..n] == old(block[..n]) && bc.bufs == old(bc.bufs)
      ensures var b := old(bc.bufs[i].key.blockno);
              r.Logged? && b in old(block[..n]) ==> block[..n] == old(block[..n]) && bc.bufs == old(bc.bufs)
      ensures var b := old(bc.bufs[i].key.blockno);
              r.Logged? && b !in old(block[..n]) ==>
                && n == old(n) + 1 && block[..n] == old(block[..n]) + [b]
                && bc.bufs == old(bc.bufs)[i := old(bc.bufs[i]).(refcnt := old(bc.bufs[i].refcnt) + 1)]
                && b in pin && pin[b] == i
    {
      hide BCache.Valid, GoodEntries, Pinned, HasLog;
      bc.ValidIsData(i);
      if n >= LOGSIZE || n >= ly.size - 1 {
        return TooBig;
      }
      if outstanding < 1 {
        return OutsideTransaction;
      }
      var b := bc.bufs[i].key.blockno;
      ghost var es := block[..n];
      var k := 0;
      while k < n
        invariant 0 <= k <= n && b !in es[..k]
      {
        if block[k] == b {
          break;
        }
        k := k + 1;
      }
      block[k] := b;
      if k == n {
        assert b !in es by { assert es[..k] == es; }
        AppendGood(ly, bc.disk, es, b);
        PinMore(ly, bc.bufs, es, pin, b, i);
        bc.Bpin(i);
        n := n + 1;
        pin := pin[b := i];
        assert block[..n] == es + [b];
      } else {
        assert block[..n] == es;
      }
      return Logged;
    }

    /** One turn of write_log's loop: copy the logged block that buffer `p`
        holds into its slot. */
    method WriteSlot(tail: nat, ghost p: nat) returns (panicked: bool)
      requires bc.Valid() == true && Calm(ly, bc.bufs) == true && tail < block.Length
              && PinnedAt(ly.Home(block[tail]), p) == true
      requires ly.Slot(tail) in bc.disk && ly.InLog(ly.Slot(tail)) && !ly.InLog(ly.Home(block[tail]))
      modifies bc
      ensures bc.Valid() == true && (panicked <==> !SomeUnused(old(bc.bufs)))
      ensures panicked ==>
              bc.bufs == old(bc.bufs) && bc.dirty == old(bc.dirty) && bc.disk == old(bc.disk)
                      && bc.writes == old(bc.writes) && bc.store == old(bc.store)
      ensures !panicked ==>
                && p < |old(bc.bufs)| && KeepsReferenced(old(bc.bufs), bc.bufs) == true && bc.dirty == old(bc.dirty)
                && bc.disk == old(bc.disk)[ly.Slot(tail) := old(bc.bufs)[p].data]
                && bc.writes == old(bc.writes) + [Write(ly.Slot(tail), old(bc.bufs)[p].data)]
                && bc.store == old(bc.store)[ly.Slot(tail) := old(bc.bufs)[p].data]
    {
      hide BCache.Valid, Coherent, Layout.InLog, KeepsReferenced;
      ghost var b0 := bc.bufs;
      bc.Parts();
      PinnedFacts(ly.Home(block[tail]), p);
      LogUnused(ly, b0, ly.Slot(tail));
      var t, f;
      t, f, panicked := bc.BreadPair(ly.Slot(tail), ly.Home(block[tail]));
      if panicked {
        return;
      }
      ghost var b1 := bc.bufs;
      PairRead(ly, b0, b1, ly.Slot(tail), ly.Home(block[tail]), t, f, p);
      UnusedIsClean(b0, bc.dirty, bc.disk, bc.store, t);
      bc.CopyWriteRelease(t, f, false);
      HeldAndReleased(b0, b1, bc.bufs, t, f);
    }

    /** Buffer `p`, pinned by the log and not locked, holds block `key`. */
    ghost predicate PinnedAt(key: Key, p: nat)
      reads this, bc
    {
      && p < |bc.bufs| && bc.bufs[p].refcnt > 0 && bc.bufs[p].key == key && bc.bufs[p].valid && !bc.bufs[p].locked
    }

    lemma PinnedFacts(key: Key, p: nat)
      requires bc.Valid() == true && PinnedAt(key, p) == true
      ensures p < |bc.bufs| == NBUF && bc.bufs[p].refcnt > 0 && bc.bufs[p].key == key && bc.bufs[p].valid
              && !bc.bufs[p].locked
      ensures key in bc.disk && key in bc.store && bc.bufs[p].data == bc.store[key] && CanAlsoHold(bc.bufs, key)
      ensures forall k :: 0 <= k < NBUF && bc.bufs[k].key == key ==> !bc.bufs[k].locked
    {
    }

    /** write_head: the in-memory header over the header block. */
    method WriteHead() returns (panicked: bool)
      requires bc.Valid() == true && Calm(ly, bc.bufs) == true
      requires block.Length == LOGSIZE && n <= LOGSIZE && Encodable(block[..n])
      requires ly.Header() in bc.disk && ly.InLog(ly.Header())
      modifies bc
      ensures bc.Valid() == true && (panicked <==> !SomeUnused(old(bc.bufs)))
      ensures panicked ==>
              bc.bufs == old(bc.bufs) && bc.dirty == old(bc.dirty) && bc.disk == old(bc.disk)
                      && bc.writes == old(bc.writes) && bc.store == old(bc.store)
      ensures !panicked ==>
                var h := PutEntries(old(bc.disk)[ly.Header()], block[..n]);
                && KeepsReferenced(old(bc.bufs), bc.bufs) == true && bc.dirty == old(bc.dirty)
                && bc.disk == old(bc.disk)[ly.Header() := h] && bc.writes == old(bc.writes) + [Write(ly.Header(), h)]
                && bc.store == old(bc.store)[ly.Header() := h]
    {
      hide BCache.Valid, Coherent, Layout.InLog, Layout.Header, PutEntries, Encodable;
      ghost var b0 := bc.bufs;
      bc.Parts();
      LogBlocksAreClean(ly, b0, bc.dirty, bc.disk, bc.store, ly.Header());
      LogUnused(ly, b0, ly.Header());
      LogUnlocked(b0, bc.dirty, bc.disk, bc.store, ly.Header());
      var i;
      i, panicked := bc.BreadFree(ly.Header());
      if panicked {
        return;
      }
      UnusedIsClean(b0, bc.dirty, bc.disk, bc.store, i);
      var h := FormatHeader(bc.bufs[i].data);
      bc.ReplaceAndRelease(i, h);
      assert KeepsReferenced(b0, bc.bufs);
    }

    method FormatHeader(old_: Block) returns (h: Block)
      requires block.Length == LOGSIZE && n <= LOGSIZE && Encodable(block[..n])
      ensures h == PutEntries(old_, block[..n])
    {
      h := PutWord(old_, 0, n);
      for i := 0 to n
        invariant h == PutFirst(PutWord(old_, 0, n), block[..n], i)
      {
        h := PutWord(h, 1 + i, block[i]);
      }
    }

    /** One turn of install_trans(0)'s loop: the home block's buffer `p` is still
        pinned, and is unpinned here. */
    method InstallOne(tail: nat, ghost p: nat) returns (panicked: bool)
      requires bc.Valid() == true && Calm(ly, bc.bufs) == true && tail < block.Length
              && PinnedAt(ly.Home(block[tail]), p) == true
      requires ly.Slot(tail) in bc.disk && ly.InLog(ly.Slot(tail)) && !ly.InLog(ly.Home(block[tail]))
      modifies bc
      ensures bc.Valid() == true && (panicked <==> !SomeUnused(old(bc.bufs)))
      ensures panicked ==>
              bc.bufs == old(bc.bufs) && bc.dirty == old(bc.dirty) && bc.disk == old(bc.disk)
                      && bc.writes == old(bc.writes) && bc.store == old(bc.store)
      ensures !panicked ==>
                var c := old(bc.disk)[ly.Slot(tail)];
                && Unpinned(old(bc.bufs), bc.bufs, p, c) == true && bc.dirty == old(bc.dirty) - {p}
                && bc.disk == old(bc.disk)[ly.Home(block[tail]) := c]
                && bc.writes == old(bc.writes) + [Write(ly.Home(block[tail]), c)]
                && bc.store == old(bc.store)[ly.Home(block[tail]) := c]
    {
      hide BCache.Valid, Coherent, Layout.InLog, Unpinned;
      ghost var b0 := bc.bufs;
      bc.Parts();
      PinnedFacts(ly.Home(block[tail]), p);
      LogBlocksAreClean(ly, b0, bc.dirty, bc.disk, bc.store, ly.Slot(tail));
      LogUnused(ly, b0, ly.Slot(tail));
      var l, d;
      l, d, panicked := bc.BreadPair(ly.Slot(tail), ly.Home(block[tail]));
      if panicked {
        return;
      }
      ghost var b1 := bc.bufs;
      PairRead(ly, b0, b1, ly.Slot(tail), ly.Home(block[tail]), l, d, p);
      UnusedIsClean(b0, bc.dirty, bc.disk, bc.store, l);
      bc.CopyWriteRelease(d, l, true);
      AfterInstall(ly, b0, b1, bc.bufs, l, d, false);
    }

    /** One turn of install_trans(1)'s loop: no buffer is in use. */
    method RecoverOne(tail: nat)
      requires bc.Valid() == true && AllUnused(bc.bufs) == true && Calm(ly, bc.bufs) == true && tail < block.Length
      requires ly.Slot(tail) in bc.disk && ly.InLog(ly.Slot(tail)) && ly.Home(block[tail]) in bc.disk
              && !ly.InLog(ly.Home(block[tail]))
      modifies bc
      ensures bc.Valid() == true && AllUnused(bc.bufs) == true && Calm(ly, bc.bufs) == true
      ensures bc.disk == old(bc.disk)[ly.Home(block[tail]) := old(bc.disk)[ly.Slot(tail)]]
      ensures bc.writes == old(bc.writes) + [Write(ly.Home(block[tail]), old(bc.disk)[ly.Slot(tail)])]
    {
      hide BCache.Valid, Coherent, Layout.InLog;
      ghost var b0 := bc.bufs;
      bc.Parts();
      LogBlocksAreClean(ly, b0, bc.dirty, bc.disk, bc.store, ly.Slot(tail));
      assert b0[0].refcnt == b0[1].refcnt == 0;
      var l, d, panicked := bc.BreadPair(ly.Slot(tail), ly.Home(block[tail]));
      ghost var b1 := bc.bufs;
      bc.Parts();
      NoneDirty(b0, bc.dirty, bc.disk, bc.store);
      bc.CopyWriteRelease(d, l, false);
      AfterInstall(ly, b0, b1, bc.bufs, l, d, true);
    }

    /** write_log */
    method WriteLog(ghost es: seq<nat>, ghost datas: seq<Block>) returns (panicked: bool)
      requires bc.Valid() == true && Calm(ly, bc.bufs) == true
      requires block.Length == LOGSIZE && 0 < n <= LOGSIZE && es == block[..n]
      requires HasLog(ly, bc.disk) && GoodEntries(ly, bc.disk, es)
      requires Pinned(ly, bc.bufs, es, pin) && PinsFree(bc.bufs, es, pin) == true
              && datas == DatasOf(ly, bc.bufs, es, pin)
      modifies bc
      ensures bc.Valid() == true && (panicked <==> !SomeUnused(old(bc.bufs)))
      ensures panicked ==>
              bc.bufs == old(bc.bufs) && bc.disk == old(bc.disk) && bc.writes == old(bc.writes)
                      && bc.dirty == old(bc.dirty) && bc.store == old(bc.store)
      ensures !panicked ==>
                && KeepsReferenced(old(bc.bufs), bc.bufs) == true && bc.dirty == old(bc.dirty)
                && SameFiles(ly, old(bc.store), bc.store) == true
                && Committing(ly, bc.origin, old(bc.disk), old(bc.writes), es, datas, |es|, bc.writes) == true
    {
      hide BCache.Valid;
      ghost var d0, w0, b0, s0 := bc.disk, bc.writes, bc.bufs, bc.store;
      bc.Parts();
      StartCommit(ly, bc.origin, d0, w0, es, datas);
      for tail := 0 to n
        invariant bc.Valid() == true && KeepsReferenced(b0, bc.bufs) == true && bc.dirty == old(bc.dirty)
                && SameFiles(ly, s0, bc.store) == true
        invariant Committing(ly, bc.origin, d0, w0, es, datas, tail, bc.writes) == true
        invariant tail == 0 ==> bc.bufs == b0 && bc.disk == d0 && bc.writes == w0 && bc.store == s0
        invariant tail > 0 ==> SomeUnused(b0) == true
      {
        panicked := WriteNext(tail, d0, w0, es, datas, b0, s0);
        if panicked {
          return;
        }
      }
      panicked := false;
    }

    /** One turn of write_log's loop, seen from the whole commit. */
    method WriteNext(tail: nat, ghost d0: Disk, ghost w0: seq<Write>, ghost es: seq<nat>, ghost datas: seq<Block>,
                     ghost b0: seq<Buf>, ghost s0: Disk) returns (panicked: bool)
      requires bc.Valid() == true && Calm(ly, b0) == true && KeepsReferenced(b0, bc.bufs) == true
              && SameFiles(ly, s0, bc.store) == true
      requires tail < |es| == |datas| && tail < block.Length && block[tail] == es[tail] && (tail == 0 ==> bc.bufs == b0)
              && (tail > 0 ==> SomeUnused(b0) == true)
      requires Pinned(ly, b0, es, pin) && PinsFree(b0, es, pin) == true && datas == DatasOf(ly, b0, es, pin)
      requires Committing(ly, bc.origin, d0, w0, es, datas, tail, bc.writes) == true
      modifies bc
      ensures bc.Valid() == true && bc.dirty == old(bc.dirty) && (panicked <==> !SomeUnused(b0))
      ensures panicked ==>
              bc.bufs == old(bc.bufs) && bc.disk == old(bc.disk) && bc.writes == old(bc.writes)
                      && bc.store == old(bc.store)
      ensures !panicked ==>
                && KeepsReferenced(b0, bc.bufs) == true && SameFiles(ly, s0, bc.store) == true
                && Committing(ly, bc.origin, d0, w0, es, datas, tail + 1, bc.writes) == true
    {
      hide BCache.Valid, Calm, KeepsReferenced, SameFiles, Committing, SomeUnused, Pinned, PinsFree, GoodEntries,
          HasLog;
      bc.Parts();
      CommitFacts(ly, bc.origin, d0, w0, es, datas, tail, bc.writes);
      NextIsSlot(ly, bc.origin, d0, w0, es, datas, tail, bc.disk, bc.writes);
      NotInLog(ly, d0, es, tail);
      if tail > 0 { KeepsCalm(ly, b0, bc.bufs); }
      HasPin(ly, b0, es, pin, tail);
      ghost var p, b, s := pin[es[tail]], bc.bufs, bc.store;
      PinStays(ly, b0, b, es, pin, tail, p);
      panicked := WriteSlot(tail, p);
      if !panicked {
        KeepsTwice(b0, b, bc.bufs);
        LogFiles(ly, s0, s, ly.Slot(tail), datas[tail]);
      }
    }

    /** write_head in the middle of a commit: the commit point. */
    method WriteHeadCommits(ghost d0: Disk, ghost w0: seq<Write>, ghost es: seq<nat>, ghost datas: seq<Block>,
                            ghost b0: seq<Buf>)
      requires bc.Valid() == true && Calm(ly, b0) == true && SomeUnused(b0) == true
              && KeepsReferenced(b0, bc.bufs) == true
      requires block.Length == LOGSIZE && n <= LOGSIZE && es == block[..n]
      requires Pinned(ly, b0, es, pin) && PinsFree(b0, es, pin) == true && datas == DatasOf(ly, b0, es, pin)
      requires Committing(ly, bc.origin, d0, w0, es, datas, |es|, bc.writes) == true
      modifies bc
      ensures bc.Valid() == true && KeepsReferenced(b0, bc.bufs) == true && bc.dirty == old(bc.dirty)
              && SameFiles(ly, old(bc.store), bc.store) == true
      ensures Calm(ly, bc.bufs) == true && SomeUnused(bc.bufs) == true
      ensures Pinned(ly, bc.bufs, es, pin) && PinsFree(bc.bufs, es, pin) == true
              && datas == DatasOf(ly, bc.bufs, es, pin)
      ensures Committing(ly, bc.origin, d0, w0, es, datas, |es| + 1, bc.writes) == true
    {
      hide BCache.Valid, PutEntries, Calm, KeepsReferenced, SameFiles, Committing, SomeUnused, Pinned, PinsFree,
          GoodEntries, HasLog;
      bc.Parts();
      CommitFacts(ly, bc.origin, d0, w0, es, datas, |es|, bc.writes);
      KeepsCalm(ly, b0, bc.bufs);
      NextIsHead(ly, bc.origin, d0, w0, es, datas, |es|, bc.disk, bc.writes);
      EncodableEntries(ly, d0, es);
      ghost var b, s := bc.bufs, bc.store;
      FilesSame(ly, s);
      var _ := WriteHead();
      KeepsTwice(b0, b, bc.bufs);
      LogFiles(ly, s, s, ly.Header(), PutEntries(old(bc.disk)[ly.Header()], es));
      KeepsCalm(ly, b0, bc.bufs);
      KeepsPinned(ly, b0, bc.bufs, es, pin);
    }

    /** The last write_head, with lh.n == 0: erase the transaction. */
    method EraseHead(ghost d0: Disk, ghost w0: seq<Write>, ghost es: seq<nat>, ghost datas: seq<Block>, ghost k: nat)
      requires bc.Valid() == true && Calm(ly, bc.bufs) == true && SomeUnused(bc.bufs) == true
      requires block.Length == LOGSIZE && n == 0
      requires k == 2 * |es| + 1 && Committing(ly, bc.origin, d0, w0, es, datas, k, bc.writes) == true
      modifies bc
      ensures bc.Valid() == true && KeepsReferenced(old(bc.bufs), bc.bufs) == true && bc.dirty == old(bc.dirty)
              && SameFiles(ly, old(bc.store), bc.store) == true
      ensures bc.writes == w0 + CommitWrites(ly, d0[ly.Header()], es, datas)
      ensures Cleared(ly, Updated(ly, HomeBlocks(ly, d0), es, datas), bc.disk)
    {
      hide BCache.Valid, PutEntries, Calm, KeepsReferenced, SameFiles, Committing, SomeUnused, GoodEntries, HasLog,
          Cleared, CommitWrites, Updated;
      bc.Parts();
      CommitFacts(ly, bc.origin, d0, w0, es, datas, k, bc.writes);
      NextIsClear(ly, bc.origin, d0, w0, es, datas, k, bc.disk, bc.writes);
      assert block[..n] == [];
      ghost var s := bc.store;
      FilesSame(ly, s);
      var _ := WriteHead();
      bc.Parts();
      LogFiles(ly, s, s, ly.Header(), PutEntries(old(bc.disk)[ly.Header()], []));
      CommitFinished(ly, bc.origin, d0, w0, es, datas, k + 1, bc.writes);
      CommittedDisk(ly, bc.origin, d0, w0, es, datas, k + 1, bc.disk, bc.writes);
    }

    /** One turn of install_trans(0)'s loop, seen from the whole commit. */
    method InstallNext(tail: nat, ghost k: nat, ghost d0: Disk, ghost w0: seq<Write>, ghost es: seq<nat>,
                       ghost datas: seq<Block>,
                       ghost b0: seq<Buf>, ghost pins: set<nat>, ghost p: nat)
      requires bc.Valid() == true && Calm(ly, b0) == true && SomeUnused(b0) == true
              && PinsDropped(b0, bc.bufs, pins) == true
      requires tail < |es| && tail < block.Length && block[tail] == es[tail] && k == |es| + 1 + tail
      requires Committing(ly, bc.origin, d0, w0, es, datas, k, bc.writes) == true
      requires p < |b0| && p !in pins && b0[p].refcnt > 0 && b0[p].key == ly.Home(es[tail]) && b0[p].data == datas[tail]
              && b0[p].valid && !b0[p].locked
      modifies bc
      ensures bc.Valid() == true && PinsDropped(b0, bc.bufs, pins + {p}) == true && bc.dirty == old(bc.dirty) - {p}
      ensures bc.store == old(bc.store) && Committing(ly, bc.origin, d0, w0, es, datas, k + 1, bc.writes) == true
    {
      hide BCache.Valid;
      ghost var b, s := bc.bufs, bc.store;
      bc.Parts();
      NextIsHome(ly, bc.origin, d0, w0, es, datas, tail, k, bc.disk, bc.writes);
      DroppedCalm(ly, b0, b, pins);
      PinnedFacts(ly.Home(es[tail]), p);
      var _ := InstallOne(tail, p);
      assert bc.store == s[ly.Home(es[tail]) := datas[tail]] == s;
      DropOneMore(b0, b, bc.bufs, pins, p);
    }

    /** install_trans(0): copy every slot home and drop the log's pins. */
    method InstallTrans(ghost d0: Disk, ghost w0: seq<Write>, ghost es: seq<nat>, ghost datas: seq<Block>)
      returns (ghost k: nat)
      requires bc.Valid() == true && Calm(ly, bc.bufs) == true && SomeUnused(bc.bufs) == true
      requires block.Length == LOGSIZE && 0 < n <= LOGSIZE && es == block[..n]
      requires Pinned(ly, bc.bufs, es, pin) && PinsFree(bc.bufs, es, pin) == true
              && datas == DatasOf(ly, bc.bufs, es, pin)
      requires Committing(ly, bc.origin, d0, w0, es, datas, |es| + 1, bc.writes) == true
      modifies bc
      ensures bc.Valid() == true && PinsDropped(old(bc.bufs), bc.bufs, PinSet(es, pin, |es|)) == true
      ensures k == 2 * |es| + 1 && Committing(ly, bc.origin, d0, w0, es, datas, k, bc.writes) == true
      ensures bc.dirty == old(bc.dirty) - PinSet(es, pin, |es|) && bc.store == old(bc.store)
    {
      hide BCache.Valid;
      ghost var b0 := bc.bufs;
      k := |es| + 1;
      for tail := 0 to n
        invariant bc.Valid() == true && PinsDropped(b0, bc.bufs, PinSet(es, pin, tail)) == true
        invariant k == |es| + 1 + tail && Committing(ly, bc.origin, d0, w0, es, datas, k, bc.writes) == true
        invariant bc.dirty == old(bc.dirty) - PinSet(es, pin, tail) && bc.store == old(bc.store)
      {
        PinSetGrows(ly, b0, es, pin, tail);
        InstallNext(tail, k, d0, w0, es, datas, b0, PinSet(es, pin, tail), pin[es[tail]]);
        k := k + 1;
      }
    }

    /** The body of commit()'s `if`, once write_log is through. */
    method CommitSome(ghost es: seq<nat>, ghost datas: seq<Block>, ghost d0: Disk, ghost w0: seq<Write>,
                      ghost b0: seq<Buf>)
      requires bc.Valid() == true && Calm(ly, b0) == true && SomeUnused(b0) == true
              && KeepsReferenced(b0, bc.bufs) == true
      requires block.Length == LOGSIZE && 0 < n <= LOGSIZE && es == block[..n]
      requires Pinned(ly, b0, es, pin) && PinsFree(b0, es, pin) == true && datas == DatasOf(ly, b0, es, pin)
      requires Committing(ly, bc.origin, d0, w0, es, datas, |es|, bc.writes) == true
      modifies this`n, bc
      ensures bc.Valid() == true && n == 0 && SameFiles(ly, old(bc.store), bc.store) == true
      ensures Cleared(ly, Updated(ly, HomeBlocks(ly, d0), es, datas), bc.disk)
      ensures bc.writes == w0 + CommitWrites(ly, d0[ly.Header()], es, datas)
      ensures PinsDropped(b0, bc.bufs, PinSet(es, pin, |es|)) == true
      ensures bc.dirty == old(bc.dirty) - PinSet(es, pin, |es|)
    {
      hide BCache.Valid;
      WriteHeadCommits(d0, w0, es, datas, b0);
      ghost var b1 := bc.bufs;
      ghost var k := InstallTrans(d0, w0, es, datas);
      n := 0;
      ghost var b2 := bc.bufs;
      DroppedCalm(ly, b1, b2, PinSet(es, pin, |es|));
      EraseHead(d0, w0, es, datas, k);
      KeptAround(b0, b1, b2, bc.bufs, PinSet(es, pin, |es|));
    }

    /** commit: the disk goes through exactly the writes of the protocol, and the log
        is empty and holds no pins; no block of a file changes for those who read it
        through the cache. Panics, before the first write, if all buffers are in use. */
    method Commit() returns (panicked: bool)
      requires Valid() && Calm(ly, bc.bufs) == true && PinsFree(bc.bufs, block[..n], pin) == true
      modifies this`n, bc
      ensures Valid() && (panicked <==> old(n) > 0 && !SomeUnused(old(bc.bufs)))
      ensures panicked ==>
              n == old(n) && bc.bufs == old(bc.bufs) && bc.disk == old(bc.disk) && bc.writes == old(bc.writes)
      ensures !panicked ==>
                var es, datas := old(block[..n]), old(DatasOf(ly, bc.bufs, block[..n], pin));
                && n == 0 && CommitDone(old(bc.disk), bc.disk, es, datas)
                && SameFiles(ly, old(bc.store), bc.store) == true
                && bc.writes == old(bc.writes) + CommitWrites(ly, old(bc.disk)[ly.Header()], es, datas)
                && PinsDropped(old(bc.bufs), bc.bufs, PinSet(es, pin, |es|)) == true
                && bc.dirty == old(bc.dirty) - PinSet(es, pin, |es|)
    {
      hide BCache.Valid;
      panicked := false;
      if n > 0 {
        ghost var es, datas := block[..n], DatasOf(ly, bc.bufs, block[..n], pin);
        panicked := WriteLog(es, datas);
        if panicked {
          return;
        }
        CommitSome(es, datas, old(bc.disk), old(bc.writes), old(bc.bufs));
      }
    }

    /** read_head */
    method ReadHead()
      requires bc.Valid() == true && AllUnused(bc.bufs) == true && Calm(ly, bc.bufs) == true && block.Length == LOGSIZE
      requires GoodDisk(ly, bc.disk)
      modifies this`n, block, bc`bufs, bc`next, bc`prev, bc`order, bc`stamp, bc`clock
      ensures bc.Valid() == true && AllUnused(bc.bufs) == true && Calm(ly, bc.bufs) == true
      ensures n <= LOGSIZE && block[..n] == RedoLog.Entries(bc.disk[ly.Header()])
    {
      hide BCache.Valid, Coherent;
      bc.Parts();
      LogBlocksAreClean(ly, bc.bufs, bc.dirty, bc.disk, bc.store, ly.Header());
      NoneDirty(bc.bufs, bc.dirty, bc.disk, bc.store);
      assert bc.bufs[0].refcnt == 0;
      var i, panicked := bc.BreadFree(ly.Header());
      var h := bc.bufs[i].data;
      assert h == bc.disk[ly.Header()];
      CopyHeader(h);
      panicked := bc.Brelse(i);
    }

    method CopyHeader(h: Block)
      requires block.Length == LOGSIZE && GetWord(h, 0) <= LOGSIZE
      modifies this`n, block
      ensures n == GetWord(h, 0) && block[..n] == RedoLog.Entries(h)
    {
      n := GetWord(h, 0);
      for k := 0 to n
        invariant forall j :: 0 <= j < k ==> block[j] == GetWord(h, 1 + j)
        invariant n == GetWord(h, 0)
      {
        block[k] := GetWord(h, 1 + k);
      }
    }

    /** install_trans(1) */
    method InstallRecovered(ghost d0: Disk, ghost w0: seq<Write>, ghost es: seq<nat>)
      requires bc.Valid() == true && AllUnused(bc.bufs) == true && Calm(ly, bc.bufs) == true
      requires block.Length == LOGSIZE && n <= LOGSIZE && es == block[..n]
      requires Recovering(ly, bc.origin, d0, w0, 0, bc.writes) == true && es == RedoLog.Entries(d0[ly.Header()])
      modifies bc
      ensures bc.Valid() == true && AllUnused(bc.bufs) == true && Calm(ly, bc.bufs) == true
      ensures Recovering(ly, bc.origin, d0, w0, |es|, bc.writes) == true
    {
      hide BCache.Valid;
      for tail := 0 to n
        invariant bc.Valid() == true && AllUnused(bc.bufs) == true && Calm(ly, bc.bufs) == true
        invariant Recovering(ly, bc.origin, d0, w0, tail, bc.writes) == true
      {
        bc.Parts();
        RecoverNext(ly, bc.origin, d0, w0, tail, bc.disk, bc.writes);
        assert block[tail] == es[tail];
        RecoverOne(tail);
      }
    }

    lemma EmptyLog()
      requires bc.Valid() == true && block.Length == LOGSIZE && n == 0 && HasLog(ly, bc.disk)
      ensures Valid()
    {
      assert block[..n] == [];
    }

    /** recover_from_log: whatever crash left, the disk ends up holding the file
        system it stood for, and the log empty. */
    method RecoverFromLog()
      requires bc.Valid() == true && AllUnused(bc.bufs) == true && Calm(ly, bc.bufs) == true && block.Length == LOGSIZE
      requires GoodDisk(ly, bc.disk)
      modifies this`n, block, bc
      ensures Valid() && n == 0
      ensures bc.writes == old(bc.writes) + RecoveryWrites(ly, old(bc.disk))
      ensures Cleared(ly, Logical(ly, old(bc.disk)), bc.disk)
    {
      hide BCache.Valid, Recovering, Cleared, Logical, RecoveryWrites, PutEntries, RedoLog.Entries;
      ghost var d0, w0 := bc.disk, bc.writes;
      bc.Parts();
      ReadHead();
      ghost var es := block[..n];
      NoneRecovered(ly, bc.origin, d0, w0);
      InstallRecovered(d0, w0, es);
      n := 0;
      bc.Parts();
      assert block[..n] == [] && bc.bufs[0].refcnt == 0;
      RecoverLast(ly, bc.origin, d0, w0, |es|, bc.disk, bc.writes);
      var _ := WriteHead();
      bc.Parts();
      RecoveryFinished(ly, bc.origin, d0, w0, |es| + 1, bc.disk, bc.writes);
      EmptyLog();
    }
  }

  lemma LogUnused(ly: Layout, bufs: seq<Buf>, key: Key)
    requires Calm(ly, bufs) == true && ly.InLog(key)
    ensures forall k :: 0 <= k < NBUF && bufs[k].key == key ==> bufs[k].refcnt == 0
    ensures CanHold(bufs, key) <==> SomeUnused(bufs) == true
  {
    if CanHold(bufs, key) {
      var u :| 0 <= u < |bufs| && (bufs[u].refcnt == 0 || bufs[u].key == key);
      assert bufs[u].refcnt == 0;
    }
    if SomeUnused(bufs) {
      var u :| 0 <= u < |bufs| && bufs[u].refcnt == 0;
    }
  }

  lemma LogUnlocked(bufs: seq<Buf>, dirty: set<nat>, disk: Disk, store: Disk, key: Key)
    requires Coherent(bufs, dirty, disk, store) == true && |bufs| == NBUF
    requires forall k :: 0 <= k < NBUF && bufs[k].key == key ==> bufs[k].refcnt == 0
    ensures forall k :: 0 <= k < NBUF && bufs[k].key == key ==> !bufs[k].locked
  {
  }

  lemma NoneDirty(bufs: seq<Buf>, dirty: set<nat>, disk: Disk, store: Disk)
    requires Coherent(bufs, dirty, disk, store) == true && AllUnused(bufs) == true
    ensures dirty == {}
  {
  }

  lemma StartCommit(ly: Layout, origin: Disk, d0: Disk, w0: seq<Write>, es: seq<nat>, datas: seq<Block>)
    requires HasLog(ly, d0) && GoodEntries(ly, d0, es) && 0 < |es| == |datas| && d0 == After(origin, w0, |w0|)
    ensures Committing(ly, origin, d0, w0, es, datas, 0, w0) == true
  {
  }

  lemma NoneRecovered(ly: Layout, origin: Disk, d0: Disk, w0: seq<Write>)
    requires GoodDisk(ly, d0) && d0 == After(origin, w0, |w0|)
    ensures Recovering(ly, origin, d0, w0, 0, w0) == true
  {
  }

  lemma RecoverLast(ly: Layout, origin: Disk, d0: Disk, w0: seq<Write>, k: nat, disk: Disk, writes: seq<Write>)
    requires Recovering(ly, origin, d0, w0, k, writes) == true && HasLog(ly, d0)
            && k == |RedoLog.Entries(d0[ly.Header()])|
    requires disk == After(origin, writes, |writes|)
    ensures ly.Header() in disk && ly.InLog(ly.Header()) && Encodable([])
    ensures Recovering(ly, origin, d0, w0, k + 1,
                       writes + [Write(ly.Header(), PutEntries(disk[ly.Header()], []))]) == true
  {
    RecoverNext(ly, origin, d0, w0, k, disk, writes);
  }

  lemma CommitFacts(ly: Layout, origin: Disk, d0: Disk, w0: seq<Write>, es: seq<nat>, datas: seq<Block>, k: nat,
                    writes: seq<Write>)
    requires Committing(ly, origin, d0, w0, es, datas, k, writes) == true
    ensures HasLog(ly, d0) == true && GoodEntries(ly, d0, es) == true && 0 < |es| == |datas| && ly.Header() in d0
            && Encodable(es)
    ensures ly.Header() in After(origin, writes, |writes|)
  {
    CommitReached(ly, origin, d0, w0, es, datas, k, writes);
  }

  lemma HasPin(ly: Layout, bufs: seq<Buf>, es: seq<nat>, pin: map<nat, nat>, k: nat)
    requires Pinned(ly, bufs, es, pin) == true && k < |es|
    ensures es[k] in pin
  {
  }

  lemma PinStays(ly: Layout, b0: seq<Buf>, b: seq<Buf>, es: seq<nat>, pin: map<nat, nat>, k: nat, p: nat)
    requires Pinned(ly, b0, es, pin) == true && PinsFree(b0, es, pin) == true && KeepsReferenced(b0, b) == true
    requires k < |es| && es[k] in pin && p == pin[es[k]]
    ensures p < |b| == |b0| && b[p] == b0[p] && b[p].refcnt > 0 && b[p].key == ly.Home(es[k]) && b[p].valid
            && !b[p].locked
  {
  }

  lemma KeepsTwice(a: seq<Buf>, b: seq<Buf>, c: seq<Buf>)
    requires KeepsReferenced(a, b) == true && KeepsReferenced(b, c) == true
    ensures KeepsReferenced(a, c) == true
  {
  }

  lemma LogFiles(ly: Layout, s: Disk, t: Disk, key: Key, data: Block)
    requires SameFiles(ly, s, t) == true && key in t && ly.InLog(key)
    ensures SameFiles(ly, s, t[key := data]) == true
  {
  }

  lemma FilesSame(ly: Layout, s: Disk)
    ensures SameFiles(ly, s, s) == true
  {
  }

  lemma NotInLog(ly: Layout, d: Disk, es: seq<nat>, k: nat)
    requires GoodEntries(ly, d, es) == true && k < |es|
    ensures !ly.InLog(ly.Home(es[k]))
  {
  }

  lemma EncodableEntries(ly: Layout, d: Disk, es: seq<nat>)
    requires GoodEntries(ly, d, es) == true
    ensures Encodable(es)
  {
  }

  lemma PinMore(ly: Layout, bufs: seq<Buf>, es: seq<nat>, pin: map<nat, nat>, b: nat, i: nat)
    requires Pinned(ly, bufs, es, pin) == true && b !in es && i < |bufs| && bufs[i].key == ly.Home(b) && bufs[i].valid
    ensures Pinned(ly, bufs[i := bufs[i].(refcnt := bufs[i].refcnt + 1)], es + [b], pin[b := i]) == true
  {
  }

  lemma AppendGood(ly: Layout, d: Disk, es: seq<nat>, b: nat)
    requires GoodEntries(ly, d, es) == true && b !in es && |es| < ly.Capacity()
    requires ly.Home(b) in d && !ly.InLog(ly.Home(b)) && b < UINT_MAX
    ensures GoodEntries(ly, d, es + [b]) == true
  {
  }
}
