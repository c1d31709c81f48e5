/** What filewrite's transactions have to do with the log: a call that passes to
    log_write no more than MAXOPBLOCKS different blocks, as each of filewrite's does,
    stays within the budget that GroupCommit holds every call to. */
module CallBudget {
  import opened BufferCache
  import opened RedoLog
  import opened GroupCommit
  import opened GroupCommitRuns
  import FsBytes
  import FileSystem
  import Blocks

  /** Call `o` logs only blocks of `tx`. */
  ghost predicate Logs(acts: seq<Action>, o: nat, tx: set<nat>) {
    forall i :: 0 <= i < |acts| && acts[i].LogWrite? && acts[i].o == o ==> acts[i].b in tx
  }

  /** The blocks `mine` are those call `o` has added to the log, all from `tx`. */
  ghost predicate Added(s: State, o: nat, tx: set<nat>, mine: set<nat>) {
    mine <= tx && (forall x :: x in mine ==> x in s.lh) && (o in s.appended ==> s.appended[o] == |mine|)
  }

  /** Blocks leave the log only when no call is in progress. */
  lemma AddedStep(ly: Layout, fs0: Disk, s: State, a: Action, o: nat, tx: set<nat>, mine: set<nat>)
    returns (mine': set<nat>)
    requires Inv(ly, fs0, s) && Enabled(ly, s, a) && Added(s, o, tx, mine)
    requires a.LogWrite? && a.o == o ==> a.b in tx
    ensures Added(Do(ly, s, a), o, tx, mine')
  {
    hide OnDisk, InMemory, Told, SpentIsSum;
    if (a.BeginOp? && a.o == o) || a.Crash? || a.DiskWrite? {
      mine' := {};
    } else if a.LogWrite? && a.o == o && a.b !in s.lh {
      mine' := mine + {a.b};
    } else {
      mine' := mine;
    }
  }

  lemma {:induction false} AddedSteps(ly: Layout, fs0: Disk, s: State, acts: seq<Action>, t: State, o: nat,
                                      tx: set<nat>, mine: set<nat>)
    returns (mine': set<nat>)
    requires Inv(ly, fs0, s) == true && Steps(ly, s, acts, t) && Logs(acts, o, tx) && Added(s, o, tx, mine)
    ensures Added(t, o, tx, mine')
    decreases |acts|
  {
    hide Inv, Enabled, Do, Added;
    if acts == [] {
      mine' := mine;
    } else {
      InvStep(ly, fs0, s, acts[0]);
      var m := AddedStep(ly, fs0, s, acts[0], o, tx, mine);
      assert Logs(acts[1..], o, tx) by {
        forall i | 0 <= i < |acts[1..]| && acts[1..][i].LogWrite? && acts[1..][i].o == o ensures acts[1..][i].b in tx {
          assert acts[1..][i] == acts[i + 1];
        }
      }
      mine' := AddedSteps(ly, fs0, Do(ly, s, acts[0]), acts[1..], t, o, tx, m);
    }
  }

  /** A run of the log in which call `o`, still in progress, logs only blocks of `tx`. */
  ghost predicate Performs(ly: Layout, d: Disk, acts: seq<Action>, t: State, o: nat, tx: set<nat>) {
    && GoodDisk(ly, d) && OneDevice(ly, d) && Steps(ly, Boot(ly, d), acts, t)
    && Logs(acts, o, tx) && o in t.appended
  }

  /** In every run the next block of `tx` is logged already or within the budget, for
      any `tx` of at most MAXOPBLOCKS blocks. */
  lemma TransactionInBudget(ly: Layout, d: Disk, acts: seq<Action>, t: State, o: nat, tx: set<nat>, b: nat)
    requires Performs(ly, d, acts, t, o, tx) && |tx| <= MAXOPBLOCKS && b in tx
    ensures b in t.lh || t.appended[o] < MAXOPBLOCKS
  {
    BootInv(ly, d);
    var mine := AddedSteps(ly, Logical(ly, d), Boot(ly, d), acts, t, o, tx, {});
    if b !in t.lh {
      FsBytes.SubsetSize(mine, tx - {b});
    }
  }

  /** So with a log area larger than LOGSIZE, log_write takes every new block of it. */
  lemma TransactionGoesThrough(ly: Layout, d: Disk, acts: seq<Action>, t: State, o: nat, tx: set<nat>, b: nat)
    requires Performs(ly, d, acts, t, o, tx) && |tx| <= MAXOPBLOCKS && b in tx && b !in t.lh && ly.size > LOGSIZE
    requires b in t.holder && t.holder[b] == o && b in t.cache
    ensures Enabled(ly, t, LogWrite(o, b))
  {
    TransactionInBudget(ly, d, acts, t, o, tx, b);
    LogHasRoom(ly, d, acts, t);
  }

  /** filewrite, seen from the log: whichever of the transactions it makes a call
      performs, in whatever run, that call is never out of budget. */
  method Filewrite(fs: FileSystem.Fs, i: nat, off: nat, src: seq<Blocks.byte>, n: int, avail: nat) returns (ret: int)
    requires fs.Ready() == true && i < |fs.inodes| && off < Blocks.UINT_MAX && n <= |src| < Blocks.UINT_MAX
    modifies fs
    ensures fs.Ready() == true && old(fs.txs) <= fs.txs
    ensures forall k, ly, d, acts, t, o, b ::
              |old(fs.txs)| <= k < |fs.txs| && Performs(ly, d, acts, t, o, fs.txs[k]) && b in fs.txs[k] ==>
              b in t.lh || t.appended[o] < MAXOPBLOCKS
  {
    hide *;
    var off';
    ghost var written, spill;
    ret, off', written, spill := fs.Filewrite(i, off, src, n, avail);
    forall k, ly, d, acts, t, o, b |
        |old(fs.txs)| <= k < |fs.txs| && Performs(ly, d, acts, t, o, fs.txs[k]) && b in fs.txs[k]
      ensures o in t.appended && (b in t.lh || t.appended[o] < MAXOPBLOCKS)
    {
      StillOpen(ly, d, acts, t, o, fs.txs[k]);
      TransactionInBudget(ly, d, acts, t, o, fs.txs[k], b);
    }
  }

  lemma StillOpen(ly: Layout, d: Disk, acts: seq<Action>, t: State, o: nat, tx: set<nat>)
    requires Performs(ly, d, acts, t, o, tx)
    ensures o in t.appended
  {
  }
}
