/** kernel/bio.c: the buffer cache.

    NBUF buffers sit on one circular doubly linked list through a head node.
    The list is kept in order of last release, and `Bget` recycles from its
    tail.  Ghost state gives the meaning: `order` is the list read from the
    head, `stamp` the time brelse last left each buffer without references,
    `dirty` the buffers changed since they were read or written.  `store` is
    what a block store without any cache would hold. */
module BufferCache {
  import opened Blocks

  const NBUF: nat := 30
  const HEAD: nat := NBUF

  datatype Key = Key(dev: nat, blockno: nat)
  datatype Buf = Buf(key: Key, valid: bool, refcnt: nat, locked: bool, data: Block)

  /** What `Bget` did: the caller holds the buffer's sleep-lock, or has its
      reference and is asleep waiting for the lock, or the kernel panicked. */
  datatype GetResult = Locked(i: nat) | Waiting(i: nat) | NoBuffers

  type Disk = map<Key, Block>

  /** One atomic disk write. */
  datatype Write = Write(key: Key, data: Block)

  /** The disk after the first `k` of the writes `ws`. */
  function After(d: Disk, ws: seq<Write>, k: nat): (r: Disk)
    requires k <= |ws|
  {
    if k == 0 then d else After(d, ws, k - 1)[ws[k-1].key := ws[k-1].data]
  }

  lemma {:induction false} AfterPrefix(d: Disk, ws: seq<Write>, vs: seq<Write>, k: nat)
    requires k <= |ws|
    ensures After(d, ws + vs, k) == After(d, ws, k)
  {
    if k > 0 { AfterPrefix(d, ws, vs, k - 1); }
  }

  lemma {:induction false} AfterKeys(d: Disk, ws: seq<Write>, k: nat)
    requires k <= |ws| && forall i :: 0 <= i < k ==> ws[i].key in d
    ensures After(d, ws, k).Keys == d.Keys
  {
    if k > 0 { AfterKeys(d, ws, k - 1); }
  }

  /** Writes made in two lots. */
  lemma {:induction false} AfterAppend(d: Disk, ws: seq<Write>, vs: seq<Write>, k: nat)
    requires k <= |vs|
    ensures After(d, ws + vs, |ws| + k) == After(After(d, ws, |ws|), vs, k)
  {
    if k == 0 {
      AfterPrefix(d, ws, vs, |ws|);
    } else {
      AfterAppend(d, ws, vs, k - 1);
      assert (ws + vs)[|ws| + k - 1] == vs[k - 1];
    }
  }

  lemma AfterOne(d: Disk, ws: seq<Write>, w: Write)
    ensures After(d, ws + [w], |ws| + 1) == After(d, ws, |ws|)[w.key := w.data]
  {
    AfterPrefix(d, ws, [w], |ws|);
  }

  /** `writes` is `w0` and then the first `k` of `ws`. */
  lemma AfterPart(origin: Disk, w0: seq<Write>, ws: seq<Write>, k: nat, writes: seq<Write>)
    requires k <= |ws| && |writes| == |w0| + k && writes[..|w0|] == w0
    requires forall i :: 0 <= i < k ==> writes[|w0| + i] == ws[i]
    ensures After(origin, writes, |writes|) == After(After(origin, w0, |w0|), ws, k)
  {
    assert writes == w0 + ws[..k] && ws == ws[..k] + ws[k..];
    AfterAppend(origin, w0, ws[..k], k);
    AfterPrefix(After(origin, w0, |w0|), ws[..k], ws[k..], k);
  }

  // ---------------------------------------------------------------- the list

  /** The nodes met going round the ring: the head, the buffers, the head. */
  function At(order: seq<nat>, i: nat): nat
    requires i <= |order| + 1
  {
    if i == 0 || i == |order| + 1 then HEAD else order[i-1]
  }

  ghost predicate Permutes(order: seq<nat>) {
    && |order| == NBUF
    && (forall i :: 0 <= i < NBUF ==> order[i] < NBUF)
    && (forall i, j :: 0 <= i < j < NBUF ==> order[i] != order[j])
    && (forall b :: 0 <= b < NBUF ==> b in order)
  }

  ghost predicate Linked(next: seq<nat>, prev: seq<nat>, order: seq<nat>) {
    && |next| == NBUF + 1 && |prev| == NBUF + 1
    && (forall i :: 0 <= i < |order| ==> order[i] < NBUF)
    && (forall i {:trigger At(order, i)} :: 0 <= i <= |order| ==>
          next[At(order, i)] == At(order, i+1) && prev[At(order, i+1)] == At(order, i))
  }

  function MoveToFront(order: seq<nat>, k: nat): (r: seq<nat>)
    requires k < |order|
    ensures |r| == |order|
    ensures multiset(r) == multiset(order)
  {
    assert order == order[..k] + [order[k]] + order[k+1..];
    [order[k]] + order[..k] + order[k+1..]
  }

  lemma MoveToFrontPermutes(order: seq<nat>, k: nat)
    requires Permutes(order) && k < NBUF
    ensures Permutes(MoveToFront(order, k))
  {
    var r := MoveToFront(order, k);
    forall b | 0 <= b < NBUF ensures b in r {
      assert b in order;
      var i :| 0 <= i < |order| && order[i] == b;
      assert r[if i == k then 0 else if i < k then i + 1 else i] == b;
    }
    forall i | 0 <= i < NBUF ensures r[i] in order { }
  }

  /** `order` is sorted by release time, the most recent first. */
  ghost predicate ByRelease(order: seq<nat>, stamp: seq<nat>, clock: nat) {
    && |stamp| == NBUF && Permutes(order)
    && (forall i :: 0 <= i < NBUF ==> stamp[i] < clock)
    && (forall i, j :: 0 <= i < j < NBUF ==> stamp[order[i]] > stamp[order[j]])
  }

  lemma MoveToFrontByRelease(order: seq<nat>, stamp: seq<nat>, clock: nat, k: nat)
    requires ByRelease(order, stamp, clock) && k < NBUF
    ensures ByRelease(MoveToFront(order, k), stamp[order[k] := clock], clock + 1)
  {
    MoveToFrontPermutes(order, k);
  }

  // ------------------------------------------------------------- the contents

  ghost predicate Holds(bufs: seq<Buf>, key: Key) {
    exists i :: 0 <= i < |bufs| && bufs[i].key == key
  }

  /** At most one buffer holds a block of a real device. */
  ghost predicate Unique(bufs: seq<Buf>) {
    forall i, j :: 0 <= i < j < |bufs| && bufs[i].key == bufs[j].key ==> bufs[i].key.dev == 0
  }

  ghost predicate DirtyAt(bufs: seq<Buf>, dirty: set<nat>, key: Key) {
    exists i :: i in dirty && i < |bufs| && bufs[i].key == key
  }

  /** Valid buffers hold what the store holds, and so does the disk, but for the
      blocks of buffers in `dirty`, which are referenced. */
  ghost predicate Coherent(bufs: seq<Buf>, dirty: set<nat>, disk: Disk, store: Disk) {
    && Unique(bufs) && store.Keys == disk.Keys
    && (forall key :: key in disk ==> key.dev != 0)
    && (forall i :: i in dirty ==> i < |bufs|)
    && (forall i :: 0 <= i < |bufs| ==>
          && (bufs[i].locked ==> bufs[i].refcnt > 0)
          && (bufs[i].valid ==> bufs[i].key in disk && bufs[i].data == store[bufs[i].key])
          && (i in dirty ==> bufs[i].valid && bufs[i].refcnt > 0))
    && (forall key :: key in disk && !DirtyAt(bufs, dirty, key) ==> store[key] == disk[key])
  }

  ghost predicate IsVictim(bufs: seq<Buf>, stamp: seq<nat>, v: nat)
    requires |bufs| == |stamp|
  {
    && v < |bufs| && bufs[v].refcnt == 0
    && (forall i :: 0 <= i < |bufs| && bufs[i].refcnt == 0 && i != v ==> stamp[v] < stamp[i])
  }

  ghost predicate SameExcept(was: seq<Buf>, now: seq<Buf>, touched: set<nat>) {
    |was| == |now| && forall k :: 0 <= k < |was| && k !in touched ==> now[k] == was[k]
  }

  function Referenced(b: Buf): Buf { b.(refcnt := b.refcnt + 1, locked := true) }

  function Read(key: Key, refcnt: nat, data: Block): Buf { Buf(key, true, refcnt, true, data) }

  function Released(b: Buf): Buf
    requires b.refcnt > 0
  {
    b.(locked := false, refcnt := b.refcnt - 1)
  }

  /** From `was` to `now`, buffer `i` was read in for `key`: the buffer that held
      the block already, or an unused one. */
  ghost predicate OneRead(was: seq<Buf>, now: seq<Buf>, key: Key, i: nat) {
    && i < |was| && SameExcept(was, now, {i})
    && now[i] == Read(key, was[i].refcnt + 1, now[i].data)
    && (was[i].key == key || was[i].refcnt == 0)
    && (forall k :: 0 <= k < |was| && was[k].key == key ==> k == i)
  }

  ghost predicate BothRead(was: seq<Buf>, now: seq<Buf>, a: Key, b: Key, i: nat, j: nat) {
    && i < |was| && j < |was| && i != j && SameExcept(was, now, {i, j})
    && now[i] == Read(a, was[i].refcnt + 1, now[i].data)
    && now[j] == Read(b, was[j].refcnt + 1, now[j].data)
    && (was[i].key == a || was[i].refcnt == 0)
    && (was[j].key == b || was[j].refcnt == 0)
    && (forall k :: 0 <= k < |was| && was[k].key == b && was[k].refcnt > 0 ==> k == j)
  }

  lemma TwoReads(b0: seq<Buf>, b1: seq<Buf>, b2: seq<Buf>, a: Key, b: Key, i: nat, j: nat)
    requires a != b && OneRead(b0, b1, a, i) && OneRead(b1, b2, b, j)
    ensures BothRead(b0, b2, a, b, i, j) && b2[i] == b1[i]
  {
  }

  ghost predicate CanHold(bufs: seq<Buf>, key: Key) {
    exists u :: 0 <= u < |bufs| && (bufs[u].refcnt == 0 || bufs[u].key == key)
  }

  ghost predicate SomeUnused(bufs: seq<Buf>) {
    exists j :: 0 <= j < |bufs| && bufs[j].refcnt == 0
  }

  /** Once another buffer has been taken, there is still one for block `b`: its own,
      or an unused one. */
  ghost predicate CanAlsoHold(bufs: seq<Buf>, b: Key) {
    || (exists v :: 0 <= v < |bufs| && bufs[v].refcnt > 0 && bufs[v].key == b)
    || (exists u, v :: 0 <= u < v < |bufs| && bufs[u].refcnt == bufs[v].refcnt == 0)
  }

  function Recycled(b: Buf, key: Key): Buf { Buf(key, false, 1, true, b.data) }

  class BCache {
    var next: seq<nat>
    var prev: seq<nat>
    var bufs: seq<Buf>
    var disk: Disk
    ghost var store: Disk
    ghost var order: seq<nat>
    ghost var stamp: seq<nat>
    ghost var clock: nat
    ghost var dirty: set<nat>
    ghost const origin: Disk       // the disk at boot
    ghost var writes: seq<Write>   // every disk write since

    ghost predicate Valid()
      reads this
    {
      && |bufs| == NBUF
      && Linked(next, prev, order)
      && ByRelease(order, stamp, clock)
      && Coherent(bufs, dirty, disk, store)
      && disk == After(origin, writes, |writes|)
    }

    /** binit */
    constructor (disk: Disk, junk: Block)
      requires forall key :: key in disk ==> key.dev != 0
      ensures Valid() == true
      ensures this.disk == store == disk && dirty == {} && writes == []
      ensures forall i :: 0 <= i < NBUF ==> bufs[i] == Buf(Key(0, 0), false, 0, false, junk)
    {
      var n: seq<nat> := seq(NBUF + 1, _ => HEAD);
      var p: seq<nat> := n;
      ghost var o: seq<nat> := [];
      ghost var s: seq<nat> := [];
      for b := 0 to NBUF
        invariant |o| == |s| == b
        invariant Linked(n, p, o)
        invariant forall i :: 0 <= i < b ==> o[i] == b - 1 - i
        invariant forall i :: 0 <= i < b ==> s[i] == i
      {
        PushFront(n, p, o, b);
        n := n[b := n[HEAD]];
        p := p[b := HEAD];
        p := p[n[HEAD] := b];
        n := n[HEAD := b];
        o := [b] + o;
        s := s + [b];
      }
      forall b | 0 <= b < NBUF ensures b in o { assert o[NBUF - 1 - b] == b; }
      next, prev, order, stamp, clock := n, p, o, s, NBUF;
      bufs := seq(NBUF, _ => Buf(Key(0, 0), false, 0, false, junk));
      this.disk, store, origin, dirty, writes := disk, disk, disk, {}, [];
    }

    /** bget: a hit takes a reference; a miss recycles the least recently
        released unreferenced buffer. */
    method Bget(key: Key) returns (r: GetResult)
      requires Valid() == true && key in disk
      modifies this`bufs
      ensures Valid() == true
      ensures r.NoBuffers? <==> !Holds(old(bufs), key) && forall i :: 0 <= i < NBUF ==> old(bufs)[i].refcnt > 0
      ensures r.NoBuffers? ==> bufs == old(bufs)
      ensures !r.NoBuffers? ==> r.i < NBUF
      ensures !r.NoBuffers? && Holds(old(bufs), key) ==>
                && old(bufs)[r.i].key == key
                && bufs == old(bufs)[r.i := Referenced(old(bufs)[r.i])]
                && (r.Waiting? <==> old(bufs)[r.i].locked)
      ensures !r.NoBuffers? && !Holds(old(bufs), key) ==>
                && |old(bufs)| == |stamp| && old(bufs)[r.i].refcnt == 0 && IsVictim(old(bufs), stamp, r.i) == true
                && r.Locked?
                && bufs == old(bufs)[r.i := Recycled(old(bufs)[r.i], key)]
    {
      hide Coherent, ByRelease, IsVictim;
      ListFacts();
      var b := FindCached(key);
      if b != HEAD {
        r := if bufs[b].locked then Waiting(b) else Locked(b);
        bufs := bufs[b := Referenced(bufs[b])];
        HitKeepsCoherent(old(bufs), dirty, disk, store, b);
        return;
      }
      b := FindUnused();
      if b == HEAD {
        return NoBuffers;
      }
      r := Locked(b);
      bufs := bufs[b := Recycled(bufs[b], key)];
      MissKeepsCoherent(old(bufs), dirty, disk, store, b, key);
    }

    lemma Parts()
      requires Valid() == true
      ensures |bufs| == NBUF && Coherent(bufs, dirty, disk, store) == true && disk == After(origin, writes, |writes|)
    {
    }

    lemma ListFacts()
      requires Valid() == true
      ensures |bufs| == |order| == |stamp| == NBUF && Permutes(order) == true && ByRelease(order, stamp, clock) == true
    {
    }

    /** bget's first loop, from the most recently used end. */
    method FindCached(key: Key) returns (b: nat)
      requires |bufs| == |order| == NBUF && Linked(next, prev, order) == true && Permutes(order) == true
      ensures b == HEAD <==> !Holds(bufs, key)
      ensures b != HEAD ==> b < NBUF && bufs[b].key == key
    {
      hide Permutes;
      b := next[HEAD];
      ghost var k: nat := 1;
      assert b == At(order, k) by { assert At(order, 0) == HEAD; }
      while b != HEAD
        invariant 1 <= k <= NBUF + 1 && b == At(order, k)
        invariant forall i :: 0 <= i < k - 1 ==> bufs[order[i]].key != key
        decreases NBUF + 1 - k
      {
        if bufs[b].key == key {
          return;
        }
        b := next[b];
        k := k + 1;
      }
      NoneOnList(order, bufs, key);
    }

    /** bget's second loop, from the least recently used end. */
    method FindUnused() returns (b: nat)
      requires |bufs| == |order| == |stamp| == NBUF && Linked(next, prev, order) == true
              && ByRelease(order, stamp, clock) == true && Permutes(order) == true
      ensures b == HEAD <==> forall i :: 0 <= i < NBUF ==> bufs[i].refcnt > 0
      ensures b != HEAD ==> b < NBUF && bufs[b].refcnt == 0 && IsVictim(bufs, stamp, b) == true
    {
      hide ByRelease, Permutes, IsVictim;
      b := prev[HEAD];
      ghost var k: nat := NBUF;
      assert b == At(order, k) by { assert At(order, NBUF + 1) == HEAD; }
      while b != HEAD
        invariant 0 <= k <= NBUF && b == At(order, k)
        invariant forall i :: k <= i < NBUF ==> bufs[order[i]].refcnt > 0
        decreases k
      {
        if bufs[b].refcnt == 0 {
          TailIsVictim(order, stamp, clock, bufs, k - 1);
          return;
        }
        assert At(order, k - 1 + 1) == b;
        b := prev[b];
        k := k - 1;
      }
      AllReferenced(order, bufs);
    }

    /** bread: whatever is cached, the caller sees what the store holds. */
    method Bread(key: Key) returns (r: GetResult)
      requires Valid() == true && key in disk
      modifies this`bufs
      ensures Valid() == true
      ensures r.NoBuffers? <==> !Holds(old(bufs), key) && forall i :: 0 <= i < NBUF ==> old(bufs)[i].refcnt > 0
      ensures r.NoBuffers? ==> bufs == old(bufs)
      ensures r.Waiting? ==>
                && r.i < NBUF && old(bufs)[r.i].key == key && old(bufs)[r.i].locked
                && bufs == old(bufs)[r.i := Referenced(old(bufs)[r.i])]
      ensures r.Locked? ==>
                && r.i < NBUF && bufs[r.i].data == store[key]
                && bufs[r.i] == Read(key, old(bufs)[r.i].refcnt + 1, bufs[r.i].data)
                && SameExcept(old(bufs), bufs, {r.i})
                && if Holds(old(bufs), key) then old(bufs)[r.i].key == key && !old(bufs)[r.i].locked
                   else |old(bufs)| == |stamp| && old(bufs)[r.i].refcnt == 0 && IsVictim(old(bufs), stamp, r.i) == true
    {
      hide Coherent, Linked, ByRelease, Permutes, IsVictim;
      r := Bget(key);
      if !r.NoBuffers? { ValidIsData(r.i); }
      if r.Locked? && !bufs[r.i].valid {
        ghost var was := bufs;
        bufs := bufs[r.i := bufs[r.i].(data := disk[key], valid := true)];
        ReadKeepsCoherent(was, dirty, disk, store, r.i);
      }
    }

    /** The rest of bread for a caller that had to wait: its reference has kept the
        buffer, and the lock is now free. */
    method BreadResume(i: nat, key: Key)
      requires Valid() == true && key in disk && i < NBUF && bufs[i].key == key && bufs[i].refcnt > 0 && !bufs[i].locked
      modifies this`bufs
      ensures Valid() == true && bufs == old(bufs)[i := Read(key, old(bufs)[i].refcnt, store[key])]
    {
      hide Coherent, Linked, ByRelease, Permutes;
      ghost var was := bufs;
      ValidIsData(i);
      bufs := bufs[i := bufs[i].(locked := true)];
      LockKeepsCoherent(was, dirty, disk, store, i);
      if !bufs[i].valid {
        was := bufs;
        bufs := bufs[i := bufs[i].(data := disk[key], valid := true)];
        ReadKeepsCoherent(was, dirty, disk, store, i);
      }
    }

    lemma ValidIsData(i: nat)
      requires Valid() == true && i < NBUF
      ensures |bufs| == NBUF && (bufs[i].valid ==> bufs[i].key in store && bufs[i].data == store[bufs[i].key])
              && store.Keys == disk.Keys
      ensures bufs[i].locked ==> bufs[i].refcnt > 0
    {
    }

    /** bread where nobody holds the block's lock. */
    method BreadFree(key: Key) returns (i: nat, panicked: bool)
      requires Valid() == true && key in disk
      requires forall k :: 0 <= k < NBUF && bufs[k].key == key ==> !bufs[k].locked
      modifies this`bufs
      ensures Valid() == true
      ensures panicked <==> !CanHold(old(bufs), key)
      ensures panicked ==> bufs == old(bufs)
      ensures !panicked ==> OneRead(old(bufs), bufs, key, i) && bufs[i].data == store[key]
    {
      var r := Bread(key);
      if r.NoBuffers? {
        return 0, true;
      }
      return r.i, false;
    }

    /** Two breads in a row, as write_log and install_trans do: of a block nobody
        uses, and of one that has its buffer already if there are few. */
    method BreadPair(a: Key, b: Key) returns (i: nat, j: nat, panicked: bool)
      requires Valid() == true && a in disk && b in disk && a != b && CanAlsoHold(bufs, b)
      requires forall k :: 0 <= k < NBUF && bufs[k].key == a ==> bufs[k].refcnt == 0
      requires forall k :: 0 <= k < NBUF && bufs[k].key == b ==> !bufs[k].locked
      modifies this`bufs
      ensures Valid() == true
      ensures panicked <==> !SomeUnused(old(bufs))
      ensures panicked ==> bufs == old(bufs)
      ensures !panicked ==>
                BothRead(old(bufs), bufs, a, b, i, j) && bufs[i].data == store[a] && bufs[j].data == store[b]
    {
      i, panicked := BreadFree(a);
      if panicked {
        return i, 0, true;
      }
      ghost var mid := bufs;
      StillRoom(old(bufs), mid, a, b, i);
      j, panicked := BreadFree(b);
      TwoReads(old(bufs), mid, bufs, a, b, i, j);
    }

    /** memmove(to->data, from->data, BSIZE); bwrite(to). */
    method CopyAndWrite(to: nat, from: nat)
      requires Valid() == true && to < NBUF && from < NBUF && to != from
      requires bufs[to].locked && bufs[to].valid && bufs[from].valid
      modifies this`bufs, this`dirty, this`disk, this`store, this`writes
      ensures Valid() == true && store == old(store)[old(bufs)[to].key := old(bufs)[from].data]
      ensures bufs == old(bufs)[to := old(bufs)[to].(data := old(bufs)[from].data)]
      ensures disk == old(disk)[old(bufs)[to].key := old(bufs)[from].data]
      ensures dirty == old(dirty) - {to}
      ensures writes == old(writes) + [Write(old(bufs)[to].key, old(bufs)[from].data)]
    {
      hide Valid;
      ValidIsData(to);
      Modify(to, bufs[from].data);
      var panicked := Bwrite(to);
    }

    /** Change a held block, write it, release it. */
    method ReplaceAndRelease(i: nat, data: Block)
      requires Valid() == true && i < NBUF && bufs[i].locked && bufs[i].valid
      modifies this
      ensures Valid() == true && store == old(store)[old(bufs)[i].key := data]
      ensures bufs == old(bufs)[i := Released(old(bufs)[i].(data := data))]
      ensures disk == old(disk)[old(bufs)[i].key := data]
      ensures dirty == old(dirty) - {i}
      ensures writes == old(writes) + [Write(old(bufs)[i].key, data)]
    {
      hide Valid;
      ValidIsData(i);
      Modify(i, data);
      var panicked := Bwrite(i);
      panicked := Brelse(i);
    }

    method BrelsePair(i: nat, j: nat)
      requires Valid() == true && i < NBUF && j < NBUF && i != j
      requires bufs[i].locked && bufs[j].locked
      requires i in dirty ==> bufs[i].refcnt > 1
      requires j in dirty ==> bufs[j].refcnt > 1
      modifies this`bufs, this`next, this`prev, this`order, this`stamp, this`clock
      ensures Valid() == true
      ensures bufs == old(bufs)[i := Released(old(bufs)[i])][j := Released(old(bufs)[j])]
    {
      hide Valid;
      ValidIsData(i);
      ValidIsData(j);
      var panicked := Brelse(i);
      panicked := Brelse(j);
    }

    /** A holder of the buffer's lock changes its contents in memory. */
    method Modify(i: nat, data: Block)
      requires Valid() == true && i < NBUF && bufs[i].locked && bufs[i].valid
      modifies this`bufs, this`dirty, this`store
      ensures Valid() == true && store == old(store)[bufs[i].key := data]
      ensures bufs == old(bufs)[i := old(bufs)[i].(data := data)]
      ensures dirty == old(dirty) + {i}
    {
      hide Coherent, Linked, ByRelease, Permutes;
      ValidIsData(i);
      ModifyKeepsCoherent(bufs, dirty, disk, store, i, data);
      dirty := dirty + {i};
      store := store[bufs[i].key := data];
      bufs := bufs[i := bufs[i].(data := data)];
    }

    /** bwrite: one atomic disk write of what the buffer holds. */
    method Bwrite(i: nat) returns (panicked: bool)
      requires Valid() == true && i < NBUF && bufs[i].valid
      modifies this`disk, this`dirty, this`writes
      ensures Valid() == true
      ensures panicked <==> !bufs[i].locked
      ensures panicked ==> disk == old(disk) && writes == old(writes) && dirty == old(dirty)
      ensures !panicked ==>
                && disk == old(disk)[bufs[i].key := bufs[i].data]
                && writes == old(writes) + [Write(bufs[i].key, bufs[i].data)] && dirty == old(dirty) - {i}
    {
      hide Coherent, Linked, ByRelease, Permutes, After;
      panicked := !bufs[i].locked;
      if !panicked {
        WriteKeepsCoherent(bufs, dirty, disk, store, i);
        AfterOne(origin, writes, Write(bufs[i].key, bufs[i].data));
        writes := writes + [Write(bufs[i].key, bufs[i].data)];
        disk := disk[bufs[i].key := bufs[i].data];
        dirty := dirty - {i};
      }
    }

    /** brelse: the last reference to go moves the buffer to the list's front.
        The caller must have written or pinned what it modified. */
    method Brelse(i: nat) returns (panicked: bool)
      requires Valid() == true && i < NBUF
      requires i in dirty ==> bufs[i].refcnt > 1
      modifies this`bufs, this`next, this`prev, this`order, this`stamp, this`clock
      ensures Valid() == true
      ensures panicked <==> !old(bufs)[i].locked
      ensures panicked ==> bufs == old(bufs) && order == old(order) && stamp == old(stamp)
      ensures !panicked ==>
                old(bufs)[i].refcnt > 0 && bufs == old(bufs)[i := Released(old(bufs)[i])]
      ensures !panicked && bufs[i].refcnt == 0 ==> order[0] == i && stamp == old(stamp)[i := old(clock)]
      ensures !panicked && bufs[i].refcnt > 0 ==> order == old(order) && stamp == old(stamp)
    {
      hide Coherent, Linked, ByRelease, Permutes;
      ValidIsData(i);
      panicked := !bufs[i].locked;
      if panicked { return; }
      bufs := bufs[i := Released(bufs[i])];
      ReleaseKeepsCoherent(old(bufs), dirty, disk, store, i);
      if bufs[i].refcnt == 0 {
        ToFront(i);
      }
    }

    method ToFront(i: nat)
      requires i < NBUF && Linked(next, prev, order) == true && ByRelease(order, stamp, clock) == true
      modifies this`next, this`prev, this`order, this`stamp, this`clock
      ensures Linked(next, prev, order) == true && ByRelease(order, stamp, clock) == true
      ensures |order| > 0 && order[0] == i && |old(stamp)| == NBUF && stamp == old(stamp)[i := old(clock)]
    {
      assert i in order;
      ghost var k :| 0 <= k < NBUF && order[k] == i;
      UnlinkThenPush(next, prev, order, k);
      prev := prev[next[i] := prev[i]];
      next := next[prev[i] := next[i]];
      next := next[i := next[HEAD]];
      prev := prev[i := HEAD];
      prev := prev[next[HEAD] := i];
      next := next[HEAD := i];
      MoveToFrontByRelease(order, stamp, clock, k);
      order, stamp, clock := MoveToFront(order, k), stamp[i := clock], clock + 1;
    }

    /** The rest of a turn of write_log's or install_trans's loop: copy, write,
        unpin `to` when installing, release both. */
    method CopyWriteRelease(to: nat, from: nat, unpin: bool)
      requires Valid() == true && to < NBUF && from < NBUF && to != from
      requires bufs[to].locked && bufs[to].valid && bufs[from].locked && bufs[from].valid
      requires from in dirty ==> bufs[from].refcnt > 1
      requires unpin ==> bufs[to].refcnt > 1
      modifies this
      ensures Valid() == true && store == old(store)[old(bufs)[to].key := old(bufs)[from].data]
      ensures SameExcept(old(bufs), bufs, {to, from})
      ensures old(bufs)[from].refcnt > 0 && bufs[from] == Released(old(bufs)[from])
      ensures old(bufs)[to].refcnt > (if unpin then 1 else 0)
      ensures bufs[to] == Buf(old(bufs)[to].key, true, old(bufs)[to].refcnt - (if unpin then 2 else 1), false,
                              old(bufs)[from].data)
      ensures disk == old(disk)[old(bufs)[to].key := old(bufs)[from].data]
      ensures dirty == old(dirty) - {to}
      ensures writes == old(writes) + [Write(old(bufs)[to].key, old(bufs)[from].data)]
    {
      hide Valid;
      ValidIsData(to);
      ValidIsData(from);
      CopyAndWrite(to, from);
      if unpin {
        Bunpin(to);
      }
      BrelsePair(from, to);
    }

    /** bpin */
    method Bpin(i: nat)
      requires Valid() == true && i < NBUF
      modifies this`bufs
      ensures Valid() == true
      ensures bufs == old(bufs)[i := old(bufs)[i].(refcnt := old(bufs)[i].refcnt + 1)]
    {
      hide Coherent, Linked, ByRelease, Permutes;
      bufs := bufs[i := bufs[i].(refcnt := bufs[i].refcnt + 1)];
      PinKeepsCoherent(old(bufs), dirty, disk, store, i, bufs[i].refcnt);
    }

    /** bunpin: drops a reference and, unlike brelse, leaves the list alone. */
    method Bunpin(i: nat)
      requires Valid() == true && i < NBUF
      requires bufs[i].refcnt > if i in dirty || bufs[i].locked then 1 else 0
      modifies this`bufs
      ensures Valid() == true
      ensures bufs == old(bufs)[i := old(bufs)[i].(refcnt := old(bufs)[i].refcnt - 1)]
    {
      hide Coherent, Linked, ByRelease, Permutes;
      bufs := bufs[i := bufs[i].(refcnt := bufs[i].refcnt - 1)];
      PinKeepsCoherent(old(bufs), dirty, disk, store, i, bufs[i].refcnt);
    }
  }

  // ----------------------------------------------------------------- lemmas

  lemma NoneOnList(order: seq<nat>, bufs: seq<Buf>, key: Key)
    requires Permutes(order) == true && |bufs| == |order| == NBUF
    requires forall i :: 0 <= i < NBUF ==> order[i] < NBUF && bufs[order[i]].key != key
    ensures !Holds(bufs, key)
  {
    forall i | 0 <= i < NBUF ensures bufs[i].key != key { assert i in order; }
  }

  lemma AllReferenced(order: seq<nat>, bufs: seq<Buf>)
    requires Permutes(order) == true && |bufs| == NBUF && |order| == NBUF && forall i :: 0 <= i < NBUF ==>
            order[i] < NBUF && bufs[order[i]].refcnt > 0
    ensures forall i :: 0 <= i < NBUF ==> bufs[i].refcnt > 0
  {
    forall i | 0 <= i < NBUF ensures bufs[i].refcnt > 0 { assert i in order; }
  }

  lemma TailIsVictim(order: seq<nat>, stamp: seq<nat>, clock: nat, bufs: seq<Buf>, k: nat)
    requires ByRelease(order, stamp, clock) == true && |bufs| == NBUF == |order| && k < NBUF
            && forall i :: 0 <= i < NBUF ==> order[i] < NBUF
    requires bufs[order[k]].refcnt == 0
    requires forall i :: k < i < NBUF ==> bufs[order[i]].refcnt > 0
    ensures IsVictim(bufs, stamp, order[k]) == true
  {
    forall b | 0 <= b < NBUF && bufs[b].refcnt == 0 && b != order[k] ensures stamp[order[k]] < stamp[b] {
      assert b in order;
    }
  }

  lemma PushFront(next: seq<nat>, prev: seq<nat>, order: seq<nat>, b: nat)
    requires Linked(next, prev, order) && b < NBUF && b !in order
    ensures next[HEAD] <= NBUF
    ensures Linked(next[b := next[HEAD]][HEAD := b], prev[b := HEAD][next[HEAD] := b], [b] + order)
  {
    assert At(order, 0) == HEAD;
    var n, p, r := next[b := next[HEAD]][HEAD := b], prev[b := HEAD][next[HEAD] := b], [b] + order;
    forall i {:trigger At(r, i)} | 0 <= i <= |r|
      ensures n[At(r, i)] == At(r, i+1) && p[At(r, i+1)] == At(r, i)
    {
      if i >= 1 { assert At(r, i+1) == At(order, i); }
      if i >= 2 { assert At(r, i) == At(order, i-1); }
    }
  }

  function Without(order: seq<nat>, k: nat): seq<nat>
    requires k < |order|
  {
    order[..k] + order[k+1..]
  }

  lemma LinkAt(next: seq<nat>, prev: seq<nat>, order: seq<nat>, i: nat)
    requires Linked(next, prev, order) == true && i <= |order|
    ensures |next| == |prev| == NBUF + 1 && At(order, i) <= NBUF && At(order, i + 1) <= NBUF
    ensures next[At(order, i)] == At(order, i + 1) && prev[At(order, i + 1)] == At(order, i)
  {
  }

  /** No buffer is on the list twice, and none is the head. */
  lemma AtApart(order: seq<nat>, i: nat, j: nat)
    requires Permutes(order) == true && i < j <= NBUF + 1 && (0 < i || j <= NBUF)
    ensures |order| == NBUF && At(order, i) != At(order, j)
  {
  }

  lemma ListNode(order: seq<nat>, k: nat)
    requires Permutes(order) == true && k < |order|
    ensures At(order, k + 1) == order[k] && forall i :: 0 <= i < |Without(order, k)| ==> Without(order, k)[i] < NBUF
  {
  }

  lemma WithoutAt(order: seq<nat>, k: nat, i: nat)
    requires k < |order| && i <= |order|
    ensures |Without(order, k)| == |order| - 1
    ensures At(Without(order, k), i) == if i <= k then At(order, i) else At(order, i + 1)
  {
  }

  lemma Unlink(next: seq<nat>, prev: seq<nat>, order: seq<nat>, k: nat)
    requires Linked(next, prev, order) == true && Permutes(order) == true && |order| == NBUF && k < NBUF
    ensures order[k] <= NBUF && |next| == |prev| == NBUF + 1
    ensures next[order[k]] <= NBUF && prev[order[k]] <= NBUF && next[order[k]] != order[k]
    ensures Linked(next[prev[order[k]] := next[order[k]]], prev[next[order[k]] := prev[order[k]]],
                   Without(order, k)) == true
  {
    hide Linked, Permutes, At, Without;
    var r := Without(order, k);
    ListNode(order, k);
    LinkAt(next, prev, order, k);
    LinkAt(next, prev, order, k + 1);
    AtApart(order, k + 1, k + 2);
    var a, c := At(order, k), At(order, k + 2);
    WithoutAt(order, k, 0);
    forall i: nat {:trigger At(r, i)} | i <= |r|
      ensures At(r, i) <= NBUF && At(r, i + 1) <= NBUF
      ensures next[a := c][At(r, i)] == At(r, i + 1) && prev[c := a][At(r, i + 1)] == At(r, i)
    {
      UnlinkAt(next, prev, order, k, i);
    }
    LinkedFrom(next[a := c], prev[c := a], r);
  }

  lemma LinkedFrom(next: seq<nat>, prev: seq<nat>, order: seq<nat>)
    requires |next| == |prev| == NBUF + 1 && forall i :: 0 <= i < |order| ==> order[i] < NBUF
    requires forall i: nat {:trigger At(order, i)} :: i <= |order| ==>
               next[At(order, i)] == At(order, i + 1) && prev[At(order, i + 1)] == At(order, i)
    ensures Linked(next, prev, order) == true
  {
  }

  lemma UnlinkAt(next: seq<nat>, prev: seq<nat>, order: seq<nat>, k: nat, i: nat)
    requires Linked(next, prev, order) == true && Permutes(order) == true && |order| == NBUF && k < NBUF
    requires i < NBUF && |Without(order, k)| == NBUF - 1 && |next| == |prev| == NBUF + 1
    requires At(order, k) <= NBUF && At(order, k + 2) <= NBUF
    ensures var r, a, c := Without(order, k), At(order, k), At(order, k + 2);
            && At(r, i) <= NBUF && At(r, i + 1) <= NBUF
            && next[a := c][At(r, i)] == At(r, i + 1) && prev[c := a][At(r, i + 1)] == At(r, i)
  {
    hide Linked, Permutes, At, Without;
    WithoutAt(order, k, i);
    WithoutAt(order, k, i + 1);
    LinkAt(next, prev, order, i);
    LinkAt(next, prev, order, i + 1);
    if i < k {
      AtApart(order, i, k);
      AtApart(order, i + 1, k + 2);
    } else if i > k {
      AtApart(order, k, i + 1);
      AtApart(order, k + 2, i + 2);
    }
  }

  /** The six pointer assignments of brelse unlink `order[k]` and push it in front. */
  lemma UnlinkThenPush(next: seq<nat>, prev: seq<nat>, order: seq<nat>, k: nat)
    requires Linked(next, prev, order) && Permutes(order) && k < NBUF
    ensures var b := order[k];
            next[b] <= NBUF && prev[b] <= NBUF &&
            var p1 := prev[next[b] := prev[b]];
            p1[b] <= NBUF &&
            var n1 := next[p1[b] := next[b]];
            n1[HEAD] <= NBUF &&
            var n2 := n1[b := n1[HEAD]];
            var p2 := p1[b := HEAD];
            Linked(n2[HEAD := b], p2[n2[HEAD] := b], MoveToFront(order, k))
  {
    var b, r := order[k], Without(order, k);
    Unlink(next, prev, order, k);
    var p1 := prev[next[b] := prev[b]];
    assert p1[b] == prev[b];
    PushFront(next[p1[b] := next[b]], p1, r, b);
    assert MoveToFront(order, k) == [b] + r;
  }

  /** After a first read the second still finds a buffer. */
  lemma StillRoom(was: seq<Buf>, now: seq<Buf>, a: Key, b: Key, i: nat)
    requires a != b && OneRead(was, now, a, i) && CanAlsoHold(was, b)
    requires forall k :: 0 <= k < |was| && was[k].key == a ==> was[k].refcnt == 0
    ensures CanHold(now, b) && forall k :: 0 <= k < |now| && now[k].key == b ==> now[k] == was[k]
  {
    if v :| 0 <= v < |was| && was[v].refcnt > 0 && was[v].key == b {
      assert now[v] == was[v];
    } else {
      var u, v :| 0 <= u < v < |was| && was[u].refcnt == was[v].refcnt == 0;
      assert if i == u then now[v] == was[v] else now[u] == was[u];
    }
  }

  // ------------------------------------------------------ the cache is invisible

  lemma HitKeepsCoherent(bufs: seq<Buf>, dirty: set<nat>, disk: Disk, store: Disk, i: nat)
    requires Coherent(bufs, dirty, disk, store) == true && i < |bufs|
    ensures Coherent(bufs[i := Referenced(bufs[i])], dirty, disk, store) == true
  {
    SameKeysDirty(bufs, bufs[i := Referenced(bufs[i])], dirty);
  }

  /** Where no buffer changes its block, the same blocks are dirty. */
  lemma SameKeysDirty(bufs: seq<Buf>, bufs': seq<Buf>, dirty: set<nat>)
    requires |bufs| == |bufs'| && forall k :: 0 <= k < |bufs| ==> bufs'[k].key == bufs[k].key
    ensures forall key :: DirtyAt(bufs', dirty, key) == DirtyAt(bufs, dirty, key)
  {
    forall key ensures DirtyAt(bufs', dirty, key) == DirtyAt(bufs, dirty, key) {
      if DirtyAt(bufs, dirty, key) {
        var k :| k in dirty && k < |bufs| && bufs[k].key == key;
        assert bufs'[k].key == key;
      }
      if DirtyAt(bufs', dirty, key) {
        var k :| k in dirty && k < |bufs'| && bufs'[k].key == key;
        assert bufs[k].key == key;
      }
    }
  }

  lemma LockKeepsCoherent(bufs: seq<Buf>, dirty: set<nat>, disk: Disk, store: Disk, i: nat)
    requires Coherent(bufs, dirty, disk, store) == true && i < |bufs| && bufs[i].refcnt > 0
    ensures Coherent(bufs[i := bufs[i].(locked := true)], dirty, disk, store) == true
  {
    SameKeysDirty(bufs, bufs[i := bufs[i].(locked := true)], dirty);
  }

  lemma PinKeepsCoherent(bufs: seq<Buf>, dirty: set<nat>, disk: Disk, store: Disk, i: nat, refcnt: nat)
    requires Coherent(bufs, dirty, disk, store) == true && i < |bufs|
    requires i in dirty || bufs[i].locked ==> refcnt > 0
    ensures Coherent(bufs[i := bufs[i].(refcnt := refcnt)], dirty, disk, store) == true
  {
    SameKeysDirty(bufs, bufs[i := bufs[i].(refcnt := refcnt)], dirty);
  }

  lemma ReleaseKeepsCoherent(bufs: seq<Buf>, dirty: set<nat>, disk: Disk, store: Disk, i: nat)
    requires Coherent(bufs, dirty, disk, store) == true && i < |bufs| && bufs[i].refcnt > 0
    requires i in dirty ==> bufs[i].refcnt > 1
    ensures Coherent(bufs[i := Released(bufs[i])], dirty, disk, store) == true
  {
    SameKeysDirty(bufs, bufs[i := Released(bufs[i])], dirty);
  }

  /** Recycling a buffer loses nothing: what it held is on disk. */
  lemma MissKeepsCoherent(bufs: seq<Buf>, dirty: set<nat>, disk: Disk, store: Disk, i: nat, key: Key)
    requires Coherent(bufs, dirty, disk, store) == true && i < |bufs|
    requires bufs[i].refcnt == 0 && !Holds(bufs, key)
    ensures Coherent(bufs[i := Recycled(bufs[i], key)], dirty, disk, store) == true
  {
    var bufs' := bufs[i := Recycled(bufs[i], key)];
    assert forall j :: 0 <= j < |bufs| ==> bufs[j].key != key;
    forall k ensures DirtyAt(bufs, dirty, k) ==> DirtyAt(bufs', dirty, k) {
      if DirtyAt(bufs, dirty, k) {
        var j :| j in dirty && j < |bufs| && bufs[j].key == k;
        assert bufs'[j].key == k;
      }
    }
    hide DirtyAt;
  }

  /** What is read from disk is what the store holds. */
  lemma ReadKeepsCoherent(bufs: seq<Buf>, dirty: set<nat>, disk: Disk, store: Disk, i: nat)
    requires Coherent(bufs, dirty, disk, store) == true && i < |bufs|
    requires !bufs[i].valid && bufs[i].key in disk
    ensures Coherent(bufs[i := bufs[i].(data := disk[bufs[i].key], valid := true)], dirty, disk, store) == true
    ensures disk[bufs[i].key] == store[bufs[i].key]
  {
    SameKeysDirty(bufs, bufs[i := bufs[i].(data := disk[bufs[i].key], valid := true)], dirty);
    NotDirty(bufs, dirty, disk, store, i);
    hide DirtyAt;
  }

  lemma NotDirty(bufs: seq<Buf>, dirty: set<nat>, disk: Disk, store: Disk, i: nat)
    requires Coherent(bufs, dirty, disk, store) == true && i < |bufs| && bufs[i].key in disk && i !in dirty
    ensures !DirtyAt(bufs, dirty, bufs[i].key)
  {
    forall j | j in dirty && j < |bufs| ensures bufs[j].key != bufs[i].key { }
  }

  /** A change made in memory shows in that block and in no other. */
  lemma ModifyKeepsCoherent(bufs: seq<Buf>, dirty: set<nat>, disk: Disk, store: Disk, i: nat, data: Block)
    requires Coherent(bufs, dirty, disk, store) == true && i < |bufs|
    requires bufs[i].valid && bufs[i].locked
    ensures Coherent(bufs[i := bufs[i].(data := data)], dirty + {i}, disk, store[bufs[i].key := data]) == true
  {
    var bufs', dirty', store' := bufs[i := bufs[i].(data := data)], dirty + {i}, store[bufs[i].key := data];
    DirtyGrows(bufs, bufs', dirty, i);
    hide DirtyAt;
  }

  lemma DirtyGrows(bufs: seq<Buf>, bufs': seq<Buf>, dirty: set<nat>, i: nat)
    requires |bufs| == |bufs'| && i < |bufs| && forall k :: 0 <= k < |bufs| ==> bufs'[k].key == bufs[k].key
    ensures DirtyAt(bufs', dirty + {i}, bufs[i].key) && forall k :: DirtyAt(bufs, dirty, k) ==>
            DirtyAt(bufs', dirty + {i}, k)
  {
    assert i in dirty + {i} && bufs'[i].key == bufs[i].key;
    forall k ensures DirtyAt(bufs, dirty, k) ==> DirtyAt(bufs', dirty + {i}, k) {
      if DirtyAt(bufs, dirty, k) {
        var j :| j in dirty && j < |bufs| && bufs[j].key == k;
        assert j in dirty + {i} && bufs'[j].key == k;
      }
    }
  }

  /** A disk write makes a block permanent without changing what the store holds. */
  lemma WriteKeepsCoherent(bufs: seq<Buf>, dirty: set<nat>, disk: Disk, store: Disk, i: nat)
    requires Coherent(bufs, dirty, disk, store) == true && i < |bufs| && bufs[i].valid
    ensures Coherent(bufs, dirty - {i}, disk[bufs[i].key := bufs[i].data], store) == true
  {
    var disk' := disk[bufs[i].key := bufs[i].data];
    forall k | k != bufs[i].key ensures DirtyAt(bufs, dirty, k) ==> DirtyAt(bufs, dirty - {i}, k) {
      if DirtyAt(bufs, dirty, k) {
        var j :| j in dirty && j < |bufs| && bufs[j].key == k;
        assert j in dirty - {i};
      }
    }
    hide DirtyAt;
  }

  /** Where nothing dirty holds the block, the disk has it. */
  lemma CleanIsOnDisk(bufs: seq<Buf>, dirty: set<nat>, disk: Disk, store: Disk, key: Key)
    requires Coherent(bufs, dirty, disk, store) == true && key in disk
    requires forall i :: i in dirty ==> i < |bufs| && bufs[i].key != key
    ensures store[key] == disk[key]
  {
  }
}
