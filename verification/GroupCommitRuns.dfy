/** What holds in every state the logging system can reach, from power-up on any
    well-formed disk, through any interleaving of calls, commits and crashes. */
module GroupCommitRuns {
  import opened Blocks
  import opened BufferCache
  import opened RedoLog
  import opened GroupCommit

  /** Power-up: empty memory, recovery about to start. */
  ghost function Boot(ly: Layout, d: Disk): State
    requires GoodDisk(ly, d)
  {
    State(d, map[], map[], {}, [], 0, false, map[], 0, Recovering(0, d), [], 0, Logical(ly, d), Logical(ly, d))
  }

  /** The actions `acts` take the system from `s` to `t`. */
  ghost predicate Steps(ly: Layout, s: State, acts: seq<Action>, t: State)
    decreases |acts|
  {
    if acts == [] then s == t
    else Enabled(ly, s, acts[0]) && Steps(ly, Do(ly, s, acts[0]), acts[1..], t)
  }

  ghost predicate OneDevice(ly: Layout, d: Disk) {
    forall key :: key in d ==> key.dev == ly.dev && key.blockno < UINT_MAX
  }

  lemma BootInv(ly: Layout, d: Disk)
    requires GoodDisk(ly, d) && OneDevice(ly, d)
    ensures Inv(ly, Logical(ly, d), Boot(ly, d)) == true
  {
    assert Logical(ly, d).Keys == HomeBlocks(ly, d).Keys;
    assert ly.Capacity() >= 0;
  }

  lemma InvStep(ly: Layout, fs0: Disk, s: State, a: Action)
    requires Inv(ly, fs0, s) == true && Enabled(ly, s, a) == true
    ensures Inv(ly, fs0, Do(ly, s, a)) == true
  {
    StoredStep(ly, fs0, s, a);
    BooksStep(ly, s, a);
    SpentStep(ly, s, a);
    TaleStep(ly, fs0, s, a);
  }

  lemma {:induction false} InvSteps(ly: Layout, fs0: Disk, s: State, acts: seq<Action>, t: State)
    requires Inv(ly, fs0, s) == true && Steps(ly, s, acts, t) == true
    ensures Inv(ly, fs0, t) == true
    decreases |acts|
  {
    if acts != [] {
      InvStep(ly, fs0, s, acts[0]);
      InvSteps(ly, fs0, Do(ly, s, acts[0]), acts[1..], t);
    }
  }

  /** Every reachable state satisfies the invariant. */
  lemma EveryRun(ly: Layout, d: Disk, acts: seq<Action>, t: State)
    requires GoodDisk(ly, d) && OneDevice(ly, d) && Steps(ly, Boot(ly, d), acts, t)
    ensures Inv(ly, Logical(ly, d), t)
  {
    BootInv(ly, d);
    InvSteps(ly, Logical(ly, d), Boot(ly, d), acts, t);
  }

  // ---------------------------------------------------------------- main results

  /** Group commit.  Stop any run anywhere, let recovery be cut short any number
      of times and then finish: the disk holds exactly what a sequence of whole
      calls made of the original file system.  No call in the sequence is open,
      and no call has one foot in it and one outside. */
  lemma RecoveredDiskIsWholeCalls(ly: Layout, d: Disk, acts: seq<Action>, t: State, boots: seq<Disk>)
    requires GoodDisk(ly, d) && OneDevice(ly, d) && Steps(ly, Boot(ly, d), acts, t)
    requires InterruptedRecoveries(ly, boots) && boots[0] == t.disk
    ensures t.cut <= |t.history| && GoodDisk(ly, boots[|boots| - 1])
    ensures Cleared(ly, Replay(ly, Logical(ly, d), t.history[..t.cut]), RecoveredDisk(ly, boots[|boots| - 1])) == true
    ensures OpenCalls(t.history[..t.cut]) == {} && WholeCalls(t.history, t.cut)
  {
    EveryRun(ly, d, acts, t);
    InterruptedRecoveriesPreserve(ly, boots);
    var last := boots[|boots| - 1];
    RecoveryPreservesLogical(ly, last, |RecoveryWrites(ly, last)|);
  }

  /** No commit runs while a call is in progress. */
  lemma CommitsAlone(ly: Layout, d: Disk, acts: seq<Action>, t: State)
    requires GoodDisk(ly, d) && OneDevice(ly, d) && Steps(ly, Boot(ly, d), acts, t)
    requires t.committing
    ensures t.outstanding == 0 && OpenCalls(t.history) == {}
  {
    EveryRun(ly, d, acts, t);
  }

  /** Before the header write the home blocks are what is durable. */
  lemma NotYetHome(ly: Layout, now: Disk, durable: Disk, phase: Phase, disk: Disk, lh: seq<nat>, ad: bool)
    requires GoodDisk(ly, disk) && InPhase(ly, now, phase, disk, lh, ad) == true && Durable(ly, disk, durable) == true
    requires phase.Idle? || (phase.Committing? && phase.k <= |phase.es|)
    ensures HomeBlocks(ly, disk) == durable
  {
    if phase.Committing? && |phase.es| > 0 {
      StillLogging(ly, phase.d0, phase.es, phase.datas, phase.k, disk);
    }
    assert HomeBlocks(ly, disk) == Logical(ly, disk);
  }

  lemma StillLogging(ly: Layout, d0: Disk, es: seq<nat>, datas: seq<Block>, k: nat, disk: Disk)
    requires GoodDisk(ly, d0) && Entries(d0[ly.Header()]) == [] && GoodEntries(ly, d0, es)
    requires k <= |es| == |datas| && 0 < |es| && disk == CommitDisk(ly, d0, es, datas, k)
    ensures ly.Header() in disk && disk[ly.Header()] == d0[ly.Header()]
  {
    CommitPrefix(ly, d0, es, datas, CommitWrites(ly, d0[ly.Header()], es, datas), k);
  }

  /** Until its group's header write lands, no call has touched a home block. */
  lemma HomeBlocksWait(ly: Layout, d: Disk, acts: seq<Action>, t: State)
    requires GoodDisk(ly, d) && OneDevice(ly, d) && Steps(ly, Boot(ly, d), acts, t)
    requires t.phase.Idle? || (t.phase.Committing? && t.phase.k <= |t.phase.es|)
    ensures t.cut <= |t.history|
    ensures HomeBlocks(ly, t.disk) == Replay(ly, Logical(ly, d), t.history[..t.cut])
  {
    EveryRun(ly, d, acts, t);
    hide InPhase, Durable, InMemory, Books, SpentIsSum, HomeBlocks, Steps;
    NotYetHome(ly, t.now, t.durable, t.phase, t.disk, t.lh, t.cut == |t.history|);
  }

  // ------------------------------------------------------------------ durability

  /** No step, a crash included, takes back what is durable. */
  lemma DurableStep(ly: Layout, s: State, a: Action)
    requires Enabled(ly, s, a) && s.cut <= |s.history|
    ensures var t := Do(ly, s, a);
            t.cut <= |t.history| && s.history[..s.cut] <= t.history[..t.cut]
  {
  }

  lemma {:induction false} DurableSteps(ly: Layout, s: State, acts: seq<Action>, t: State)
    requires Steps(ly, s, acts, t) && s.cut <= |s.history|
    ensures t.cut <= |t.history| && s.history[..s.cut] <= t.history[..t.cut]
    decreases |acts|
  {
    if acts != [] {
      DurableStep(ly, s, acts[0]);
      DurableSteps(ly, Do(ly, s, acts[0]), acts[1..], t);
    }
  }

  /** Once a group's header write has landed its calls are never lost: whatever
      happens next, crashes and interrupted recoveries included, the recovered disk
      is what a sequence of whole calls made that starts with all of them. */
  lemma CommittedCallsSurvive(ly: Layout, d: Disk, acts: seq<Action>, s: State, more: seq<Action>, t: State,
                              boots: seq<Disk>)
    requires GoodDisk(ly, d) && OneDevice(ly, d) && Steps(ly, Boot(ly, d), acts, s)
    requires s.phase.Committing? && s.phase.k > |s.phase.es|
    requires Steps(ly, s, more, t) && InterruptedRecoveries(ly, boots) && boots[0] == t.disk
    ensures t.cut <= |t.history| && s.history <= t.history[..t.cut]
    ensures GoodDisk(ly, boots[|boots| - 1])
    ensures Cleared(ly, Replay(ly, Logical(ly, d), t.history[..t.cut]), RecoveredDisk(ly, boots[|boots| - 1])) == true
    ensures OpenCalls(s.history) == {}
  {
    hide Steps, GoodDisk, InterruptedRecoveries, Cleared, Replay, RecoveredDisk, InMemory, SpentIsSum, Do, Enabled;
    EveryRun(ly, d, acts, s);
    assert s.history[..s.cut] == s.history;
    DurableSteps(ly, s, more, t);
    StepsJoin(ly, Boot(ly, d), acts, s, more, t);
    RecoveredDiskIsWholeCalls(ly, d, acts + more, t, boots);
  }

  lemma {:induction false} StepsThen(ly: Layout, s: State, acts: seq<Action>, t: State, a: Action)
    requires Steps(ly, s, acts, t) == true && Enabled(ly, t, a) == true
    ensures Steps(ly, s, acts + [a], Do(ly, t, a)) == true
    decreases |acts|
  {
    if acts == [] {
      assert ([a])[1..] == [];
      assert acts + [a] == [a];
    } else {
      StepsThen(ly, Do(ly, s, acts[0]), acts[1..], t, a);
      assert (acts + [a])[1..] == acts[1..] + [a];
    }
  }

  lemma {:induction false} StepsJoin(ly: Layout, s0: State, acts: seq<Action>, s: State, more: seq<Action>, t: State)
    requires Steps(ly, s0, acts, s) == true && Steps(ly, s, more, t) == true
    ensures Steps(ly, s0, acts + more, t) == true
    decreases |acts|
  {
    if acts == [] {
      assert acts + more == more;
    } else {
      StepsJoin(ly, Do(ly, s0, acts[0]), acts[1..], s, more, t);
      assert (acts + more)[1..] == acts[1..] + more;
    }
  }

  /** Outside commit a block is logged exactly when its buffer carries a log pin,
      it carries only one, and logged blocks are distinct. */
  lemma LoggedIffPinned(ly: Layout, d: Disk, acts: seq<Action>, t: State, b: nat)
    requires GoodDisk(ly, d) && OneDevice(ly, d) && Steps(ly, Boot(ly, d), acts, t)
    requires !t.committing
    ensures b in t.lh <==> b in t.cache && t.cache[b].pins > 0
    ensures b in t.cache ==> t.cache[b].pins <= 1
    ensures forall i, j :: 0 <= i < j < |t.lh| ==> t.lh[i] != t.lh[j]
  {
    EveryRun(ly, d, acts, t);
    assert Pending(t.phase, t.lh) == t.lh;
  }

  /** A logged block that commit has yet to copy is in the cache, pinned, with the
      contents the calls gave it.  The buffer commit needs beside it, for the log
      block it copies to, is not always to be had: see LogCapacity. */
  lemma CommitFindsItsBuffers(ly: Layout, d: Disk, acts: seq<Action>, t: State, i: nat)
    requires GoodDisk(ly, d) && OneDevice(ly, d) && Steps(ly, Boot(ly, d), acts, t)
    requires t.phase.Committing? && t.phase.k <= |t.phase.es| && i < |t.phase.es|
    ensures t.lh == t.phase.es && t.lh[i] in t.cache && t.cache[t.lh[i]].pins == 1
    ensures ly.Home(t.lh[i]) in Replay(ly, Logical(ly, d), t.history)
    ensures t.cache[t.lh[i]].data == Replay(ly, Logical(ly, d), t.history)[ly.Home(t.lh[i])]
  {
    EveryRun(ly, d, acts, t);
    var Committing(k, d0, es, datas) := t.phase;
    assert es[i] in Pending(t.phase, t.lh);
    assert IsHome(ly, t.disk, es[i]);
  }

  /** Reservation: the log plus what every call in progress may still append fits. */
  lemma LogHasRoom(ly: Layout, d: Disk, acts: seq<Action>, t: State)
    requires GoodDisk(ly, d) && OneDevice(ly, d) && Steps(ly, Boot(ly, d), acts, t)
    ensures |t.lh| + MAXOPBLOCKS * t.outstanding - Sum(t.appended) <= LOGSIZE
    ensures forall o :: o in t.appended && t.appended[o] < MAXOPBLOCKS ==> |t.lh| < LOGSIZE
    ensures forall i :: 0 <= i < |t.lh| ==> ly.InLog(ly.Slot(i))
  {
    EveryRun(ly, d, acts, t);
    forall o | o in t.appended && t.appended[o] < MAXOPBLOCKS ensures |t.lh| < LOGSIZE {
      SumBounded(t.appended, o);
    }
  }

  lemma {:induction false} SumAtMost(m: map<nat, nat>)
    requires forall o :: o in m ==> m[o] <= MAXOPBLOCKS
    ensures Sum(m) <= MAXOPBLOCKS * |m|
    decreases |m|
  {
    if |m| > 0 { SumAtMost(m - {Pick(m)}); }
  }

  lemma SumBounded(m: map<nat, nat>, o: nat)
    requires o in m && m[o] < MAXOPBLOCKS && forall p :: p in m ==> m[p] <= MAXOPBLOCKS
    ensures Sum(m) < MAXOPBLOCKS * |m|
  {
    SumRemove(m, o);
    SumAtMost(m - {o});
    assert (m - {o}).Keys == m.Keys - {o};
    assert |m - {o}| == |m.Keys| - 1;
  }
}
