/** Two panics that calls within their budget of MAXOPBLOCKS new blocks can or
    cannot reach: log_write's "too big a transaction" and commit's lack of a buffer.

    begin_op reserves room against LOGSIZE, but log_write refuses at log.size - 1
    as well, and refuses before looking whether the block is logged already.  And
    the cache has only as many buffers as the log can pin. */
module LogCapacity {
  import opened BufferCache
  import opened RedoLog
  import opened GroupCommit
  import opened GroupCommitRuns

  /** Call `o`, with budget left, is about to pass a block it holds to log_write. */
  ghost predicate AboutToLog(s: State, o: nat, b: nat) {
    o in s.appended && s.appended[o] < MAXOPBLOCKS && b in s.holder && s.holder[b] == o && b in s.cache
  }

  /** No run lets a call with budget left hit log_write's panic. */
  ghost predicate LogWritesAreSafe(ly: Layout, d: Disk)
    requires GoodDisk(ly, d)
  {
    forall acts, t, o, b :: Steps(ly, Boot(ly, d), acts, t) && AboutToLog(t, o, b) ==> !TooBig(ly, t)
  }

  /** Call `o` is about to pass to log_write a block that is logged already. */
  ghost predicate AboutToAbsorb(s: State, o: nat, b: nat) {
    o in s.appended && b in s.holder && s.holder[b] == o && b in s.cache && b in s.lh
  }

  /** No run lets a call hit log_write's panic over a block logged already. */
  ghost predicate AbsorptionIsSafe(ly: Layout, d: Disk)
    requires GoodDisk(ly, d)
  {
    forall acts, t, o, b :: Steps(ly, Boot(ly, d), acts, t) && AboutToAbsorb(t, o, b) ==> !TooBig(ly, t)
  }

  /** No commit starts with every buffer of the cache pinned by the log. */
  ghost predicate CommitsHaveABuffer(ly: Layout, d: Disk)
    requires GoodDisk(ly, d)
  {
    forall acts, t :: Steps(ly, Boot(ly, d), acts, t) && t.phase.Committing? ==> |t.lh| < NBUF
  }

  /** Enough distinct file-system blocks to fill the log. */
  ghost predicate Homes(ly: Layout, d: Disk, hb: seq<nat>) {
    && |hb| >= LOGSIZE
    && (forall i :: 0 <= i < |hb| ==> IsHome(ly, d, hb[i]))
    && (forall i, j :: 0 <= i < j < |hb| ==> hb[i] != hb[j])
  }

  /** The blocks each of the three calls 0, 1, 2 has appended once `m` have been. */
  function Shares(m: nat): map<nat, nat> {
    map[0 := if m < 10 then m else 10,
        1 := if m < 10 then 0 else if m < 20 then m - 10 else 10,
        2 := if m < 20 then 0 else if m < 30 then m - 20 else 10]
  }

  ghost function PinnedCache(ly: Layout, d: Disk, hb: seq<nat>, m: nat): map<nat, Cached>
    requires m <= |hb| && forall i :: 0 <= i < |hb| ==> IsHome(ly, d, hb[i])
  {
    if m == 0 then map[] else PinnedCache(ly, d, hb, m - 1)[hb[m-1] := Cached(d[ly.Home(hb[m-1])], 1)]
  }

  /** Three calls in progress, `m` blocks logged between them. */
  ghost function Loaded(ly: Layout, d: Disk, fs: Disk, hb: seq<nat>, m: nat): State
    requires m <= |hb| && forall i :: 0 <= i < |hb| ==> IsHome(ly, d, hb[i])
  {
    State(d, PinnedCache(ly, d, hb, m), map[], {}, hb[..m], 3, false, Shares(m), m, Idle,
          [Begin(0), Begin(1), Begin(2)], 0, fs, fs)
  }

  lemma {:induction false} PinnedCacheKeys(ly: Layout, d: Disk, hb: seq<nat>, m: nat, b: nat)
    requires Homes(ly, d, hb) && m <= |hb|
    ensures b in PinnedCache(ly, d, hb, m) <==> b in hb[..m]
    ensures b in hb[..m] ==> PinnedCache(ly, d, hb, m)[b] == Cached(d[ly.Home(b)], 1)
  {
    if m > 0 {
      PinnedCacheKeys(ly, d, hb, m - 1, b);
      assert hb[..m] == hb[..m-1] + [hb[m-1]];
    }
  }

  lemma SharesNext(m: nat)
    requires m < LOGSIZE
    ensures m / 10 in Shares(m) && Shares(m)[m / 10] < MAXOPBLOCKS
    ensures Shares(m)[m / 10 := Shares(m)[m / 10] + 1] == Shares(m + 1)
  {
  }

  /** Call m / 10 appends the next block: bread, log_write, brelse. */
  lemma LoadOneEnabled(ly: Layout, d: Disk, fs: Disk, hb: seq<nat>, m: nat)
    requires Homes(ly, d, hb) && m < LOGSIZE && m < ly.size - 1
    ensures var o, b, s := m / 10, hb[m], Loaded(ly, d, fs, hb, m);
            && Enabled(ly, s, Acquire(o, b)) && b !in s.cache && b !in s.lh && o in s.appended
            && var s1 := DoAcquire(ly, s, o, b);
               Enabled(ly, s1, LogWrite(o, b)) && Enabled(ly, DoAppend(s1, o, b), Release(b))
  {
    hide Shares, PinnedCache;
    SharesNext(m);
    PinnedCacheKeys(ly, d, hb, m, hb[m]);
    assert hb[m] !in hb[..m];
  }

  lemma LoadOneReaches(ly: Layout, d: Disk, fs: Disk, hb: seq<nat>, m: nat)
    requires Homes(ly, d, hb) && m < LOGSIZE
    requires hb[m] !in hb[..m] && hb[m] !in PinnedCache(ly, d, hb, m) && m / 10 in Shares(m)
    ensures var o, b, s := m / 10, hb[m], Loaded(ly, d, fs, hb, m);
            var s1 := DoAcquire(ly, s, o, b);
            var s2 := DoAppend(s1, o, b);
            s2.(holder := s2.holder - {b}) == Loaded(ly, d, fs, hb, m + 1)
  {
    hide Shares;
    SharesNext(m);
    var o, b, s := m / 10, hb[m], Loaded(ly, d, fs, hb, m);
    var s2 := DoAppend(DoAcquire(ly, s, o, b), o, b);
    assert s2.lh == hb[..m + 1];
    assert s2.cache == PinnedCache(ly, d, hb, m + 1);
    assert s2.holder - {b} == map[];
    assert s2.unlogged == {};
  }

  lemma LoadOne(ly: Layout, d: Disk, fs: Disk, hb: seq<nat>, m: nat, s0: State, acts: seq<Action>)
    returns (more: seq<Action>)
    requires Homes(ly, d, hb) && m < LOGSIZE && m < ly.size - 1
    requires Steps(ly, s0, acts, Loaded(ly, d, fs, hb, m)) == true
    ensures Steps(ly, s0, more, Loaded(ly, d, fs, hb, m + 1)) == true
  {
    hide Steps, Enabled, Shares, PinnedCache;
    var o, b, s := m / 10, hb[m], Loaded(ly, d, fs, hb, m);
    LoadOneEnabled(ly, d, fs, hb, m);
    LoadOneReaches(ly, d, fs, hb, m);
    StepsThen(ly, s0, acts, s, Acquire(o, b));
    var s1 := Do(ly, s, Acquire(o, b));
    StepsThen(ly, s0, acts + [Acquire(o, b)], s1, LogWrite(o, b));
    var s2 := Do(ly, s1, LogWrite(o, b));
    StepsThen(ly, s0, acts + [Acquire(o, b)] + [LogWrite(o, b)], s2, Release(b));
    more := acts + [Acquire(o, b)] + [LogWrite(o, b)] + [Release(b)];
  }

  /** The booted system with an empty log, after recovery. */
  lemma BootRecovers(ly: Layout, d: Disk) returns (acts: seq<Action>, t: State)
    requires GoodDisk(ly, d) && Entries(d[ly.Header()]) == []
    ensures Steps(ly, Boot(ly, d), acts, t)
    ensures t == Boot(ly, d).(disk := d[ly.Header() := PutEntries(d[ly.Header()], [])], phase := Idle)
  {
    var s := Boot(ly, d);
    StepsThen(ly, s, [], s, RecoverWrite);
    var s1 := Do(ly, s, RecoverWrite);
    StepsThen(ly, s, [] + [RecoverWrite], s1, RecoverDone);
    acts, t := [] + [RecoverWrite] + [RecoverDone], Do(ly, s1, RecoverDone);
  }

  lemma ThreeBegin(ly: Layout, s0: State, acts: seq<Action>, s: State) returns (more: seq<Action>)
    requires Steps(ly, s0, acts, s)
    requires s.phase.Idle? && !s.committing && s.lh == [] && s.outstanding == 0 && s.appended == map[]
            && s.history == []
    ensures Steps(ly, s0, more,
                  s.(outstanding := 3, appended := Shares(0), history := [Begin(0), Begin(1), Begin(2)]))
  {
    hide Steps;
    StepsThen(ly, s0, acts, s, BeginOp(0));
    var s1 := Do(ly, s, BeginOp(0));
    StepsThen(ly, s0, acts + [BeginOp(0)], s1, BeginOp(1));
    var s2 := Do(ly, s1, BeginOp(1));
    StepsThen(ly, s0, acts + [BeginOp(0)] + [BeginOp(1)], s2, BeginOp(2));
    more := acts + [BeginOp(0)] + [BeginOp(1)] + [BeginOp(2)];
    var s3 := Do(ly, s2, BeginOp(2));
    assert s3.history == [Begin(0), Begin(1), Begin(2)] && s3.appended == Shares(0);
  }

  /** Three calls in progress and nothing logged yet. */
  lemma LoadNone(ly: Layout, d: Disk, hb: seq<nat>) returns (acts: seq<Action>, d1: Disk)
    requires GoodDisk(ly, d) && Entries(d[ly.Header()]) == [] && Homes(ly, d, hb)
    ensures Homes(ly, d1, hb)
    ensures Steps(ly, Boot(ly, d), acts, Loaded(ly, d1, Logical(ly, d), hb, 0))
  {
    d1 := d[ly.Header() := PutEntries(d[ly.Header()], [])];
    assert forall i :: 0 <= i < |hb| ==> IsHome(ly, d1, hb[i]);
    var t;
    acts, t := BootRecovers(ly, d);
    acts := ThreeBegin(ly, Boot(ly, d), acts, t);
  }

  lemma {:induction false} LoadMany(ly: Layout, d: Disk, hb: seq<nat>, m: nat) returns (acts: seq<Action>, d1: Disk)
    requires GoodDisk(ly, d) && Entries(d[ly.Header()]) == [] && Homes(ly, d, hb)
    requires m <= LOGSIZE && m <= ly.size - 1
    ensures Homes(ly, d1, hb)
    ensures Steps(ly, Boot(ly, d), acts, Loaded(ly, d1, Logical(ly, d), hb, m))
  {
    if m == 0 {
      acts, d1 := LoadNone(ly, d, hb);
    } else {
      acts, d1 := LoadMany(ly, d, hb, m - 1);
      acts := LoadOne(ly, d1, Logical(ly, d), hb, m - 1, Boot(ly, d), acts);
    }
  }

  /** The log filled with `m` blocks, and call `o` holding block `b`. */
  lemma LoadAndHold(ly: Layout, d: Disk, hb: seq<nat>, m: nat, o: nat, b: nat) returns (acts: seq<Action>, t: State)
    requires GoodDisk(ly, d) && Entries(d[ly.Header()]) == [] && Homes(ly, d, hb)
    requires m <= LOGSIZE && m <= ly.size - 1 && b in hb
    ensures Steps(ly, Boot(ly, d), acts, t)
    ensures t.holder == map[b := o] && t.appended == Shares(m) && t.lh == hb[..m] && b in t.cache
  {
    var d1;
    acts, d1 := LoadMany(ly, d, hb, m);
    hide Steps, GoodDisk;
    var s := Loaded(ly, d1, Logical(ly, d), hb, m);
    StepsThen(ly, Boot(ly, d), acts, s, Acquire(o, b));
    acts, t := acts + [Acquire(o, b)], Do(ly, s, Acquire(o, b));
  }

  /** With log.size <= LOGSIZE, as mkfs makes it, a call within its budget can be
      refused: the run fills the log to log.size - 1 and asks for one more. */
  lemma UnsafeWhenSmall(ly: Layout, d: Disk, hb: seq<nat>)
    requires GoodDisk(ly, d) && Entries(d[ly.Header()]) == [] && Homes(ly, d, hb)
    requires ly.size <= LOGSIZE
    ensures !LogWritesAreSafe(ly, d)
  {
    hide Steps, GoodDisk, Entries;
    HasSize(ly, d);
    var m := ly.size - 1;
    var acts, t := LoadAndHold(ly, d, hb, m, m / 10, hb[m]);
    assert AboutToLog(t, m / 10, hb[m]) && TooBig(ly, t);
  }

  /** Calls with budget left are never refused exactly when the log area has one
      block more than LOGSIZE. */
  lemma LogWritesAreSafeIff(ly: Layout, d: Disk, hb: seq<nat>)
    requires GoodDisk(ly, d) && OneDevice(ly, d) && Entries(d[ly.Header()]) == [] && Homes(ly, d, hb)
    ensures LogWritesAreSafe(ly, d) <==> ly.size > LOGSIZE
  {
    if ly.size > LOGSIZE {
      forall acts, t, o, b | Steps(ly, Boot(ly, d), acts, t) && AboutToLog(t, o, b) ensures !TooBig(ly, t) {
        LogHasRoom(ly, d, acts, t);
      }
    } else {
      UnsafeWhenSmall(ly, d, hb);
    }
  }

  /** However large the log area, a call can be refused a block that is logged
      already: the run fills the log and locks its first block again.  Only a log
      area too small to log any block is free of it. */
  lemma AbsorptionIsSafeIff(ly: Layout, d: Disk, hb: seq<nat>)
    requires GoodDisk(ly, d) && OneDevice(ly, d) && Entries(d[ly.Header()]) == [] && Homes(ly, d, hb)
    ensures AbsorptionIsSafe(ly, d) <==> ly.size == 1
  {
    hide Steps, GoodDisk, Entries;
    if ly.size == 1 {
      forall acts, t, o, b ensures Steps(ly, Boot(ly, d), acts, t) && AboutToAbsorb(t, o, b) ==> !TooBig(ly, t) {
        if Steps(ly, Boot(ly, d), acts, t) { LoggedFits(ly, d, acts, t); }
      }
    } else {
      HasSize(ly, d);
      var m := ly.Capacity();
      var acts, t := LoadAndHold(ly, d, hb, m, 0, hb[0]);
      assert t.lh[0] == hb[0];
      assert AboutToAbsorb(t, 0, hb[0]) && TooBig(ly, t);
    }
  }

  lemma HasSize(ly: Layout, d: Disk)
    requires GoodDisk(ly, d)
    ensures ly.size > 0
  {
  }

  lemma LoggedFits(ly: Layout, d: Disk, acts: seq<Action>, t: State)
    requires GoodDisk(ly, d) && OneDevice(ly, d) && Steps(ly, Boot(ly, d), acts, t)
    ensures |t.lh| <= ly.Capacity()
  {
    EveryRun(ly, d, acts, t);
  }

  /** The last of the three calls ends: commit starts with all they logged. */
  lemma ThreeEnd(ly: Layout, s0: State, acts: seq<Action>, s: State) returns (more: seq<Action>, t: State)
    requires Steps(ly, s0, acts, s) == true
    requires s.outstanding == 3 && s.appended.Keys == {0, 1, 2} && s.holder == map[]
    ensures Steps(ly, s0, more, t) == true && t.phase.Committing? && t.lh == s.lh
  {
    hide Steps;
    StepsThen(ly, s0, acts, s, EndOp(0));
    var s1 := Do(ly, s, EndOp(0));
    StepsThen(ly, s0, acts + [EndOp(0)], s1, EndOp(1));
    var s2 := Do(ly, s1, EndOp(1));
    StepsThen(ly, s0, acts + [EndOp(0)] + [EndOp(1)], s2, EndOp(2));
    more, t := acts + [EndOp(0)] + [EndOp(1)] + [EndOp(2)], Do(ly, s2, EndOp(2));
  }

  /** The log never pins the whole cache exactly when the log area is no larger
      than LOGSIZE, which is NBUF: the sizes that make log_write safe are those
      that can leave commit without a buffer for its log block. */
  lemma CommitsHaveABufferIff(ly: Layout, d: Disk, hb: seq<nat>)
    requires GoodDisk(ly, d) && OneDevice(ly, d) && Entries(d[ly.Header()]) == [] && Homes(ly, d, hb)
    ensures CommitsHaveABuffer(ly, d) <==> ly.size <= LOGSIZE
    ensures CommitsHaveABuffer(ly, d) <==> !LogWritesAreSafe(ly, d)
  {
    hide Steps, GoodDisk, Entries;
    LogWritesAreSafeIff(ly, d, hb);
    if ly.size <= LOGSIZE {
      forall acts, t | Steps(ly, Boot(ly, d), acts, t) && t.phase.Committing? ensures |t.lh| < NBUF {
        LoggedFits(ly, d, acts, t);
      }
    } else {
      var acts, d1 := LoadMany(ly, d, hb, LOGSIZE);
      var s := Loaded(ly, d1, Logical(ly, d), hb, LOGSIZE);
      var more, t := ThreeEnd(ly, Boot(ly, d), acts, s);
      assert |t.lh| == NBUF;
    }
  }
}
