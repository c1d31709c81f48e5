/** What the logging system can always go on to do: a commit or a recovery that has
    begun can be finished by its own steps alone, the next call is then admitted, and
    what a call writes reaches its home on disk. */
module GroupProgress {
  import opened Blocks
  import opened BufferCache
  import opened RedoLog
  import opened GroupCommit
  import opened GroupCommitRuns

  /** The disk writes a commit has yet to make. */
  function WritesLeft(s: State): int
    requires s.phase.Committing?
  {
    if |s.lh| == 0 then 0 else 2 * |s.lh| + 2 - s.phase.k
  }

  predicate OnlyCommit(acts: seq<Action>) { forall i :: 0 <= i < |acts| ==> acts[i].DiskWrite? || acts[i].CommitDone? }

  predicate OnlyRecover(acts: seq<Action>) {
    forall i :: 0 <= i < |acts| ==> acts[i].RecoverWrite? || acts[i].RecoverDone?
  }

  /** Nothing is under way: no call, no commit, nothing logged. */
  predicate Quiet(s: State) {
    s.phase.Idle? && !s.committing && s.lh == [] && s.outstanding == 0 && s.appended == map[]
  }

  // ------------------------------------------------------------------ commit

  lemma CommitFacts(ly: Layout, fs0: Disk, s: State)
    requires Inv(ly, fs0, s) == true && s.phase.Committing?
    ensures s.appended == map[] && s.outstanding == 0 && s.committing && s.cut <= |s.history|
    ensures s.lh == [] && s.phase.es != [] ==> s.cut == |s.history|
    ensures s.lh != [] ==> s.lh == s.phase.es && s.phase.k < 2 * |s.lh| + 2
  {
  }

  /** The next write of a commit is never held up. */
  lemma CommitCanWrite(ly: Layout, fs0: Disk, s: State)
    requires Inv(ly, fs0, s) == true && s.phase.Committing? && s.lh != []
    ensures Enabled(ly, s, DiskWrite) == true
  {
    hide Inv, DiskOK, GoodEntries, IsHome;
    CommitFacts(ly, fs0, s);
    LoggedIsGood(ly, fs0, s);
    LoggedAreHomes(ly, s.disk, s.lh, s.now);
  }

  lemma LoggedIsGood(ly: Layout, fs0: Disk, s: State)
    requires Inv(ly, fs0, s) == true && s.phase.Committing? && s.lh != []
    ensures DiskOK(ly, s.disk, s.now) == true && GoodEntries(ly, s.disk, s.lh) == true
  {
    hide InMemory, Books, Told, SpentIsSum;
  }

  lemma LoggedAreHomes(ly: Layout, d: Disk, es: seq<nat>, now: Disk)
    requires DiskOK(ly, d, now) == true && GoodEntries(ly, d, es) == true
    ensures Encodable(es) && ly.Header() in d
    ensures forall i :: 0 <= i < |es| ==> IsHome(ly, d, es[i]) && ly.Slot(i) in d
  {
  }

  lemma WriteLeavesFewer(ly: Layout, s: State)
    requires Enabled(ly, s, DiskWrite)
    ensures var t := Do(ly, s, DiskWrite);
            && t.phase.Committing? && t.phase.es == s.phase.es && WritesLeft(t) == WritesLeft(s) - 1
            && t.history == s.history && t.now == s.now && t.holder == s.holder
  {
  }

  /** From every state in which a commit is under way, its own steps alone, exactly the
      writes it has left and one more, bring it to an end. */
  lemma {:induction false} CommitFinishes(ly: Layout, fs0: Disk, s: State) returns (acts: seq<Action>, t: State)
    requires Inv(ly, fs0, s) == true && s.phase.Committing?
    ensures Steps(ly, s, acts, t) == true && Inv(ly, fs0, t) == true
    ensures OnlyCommit(acts) && |acts| == WritesLeft(s) + 1
    ensures Quiet(t) && t.history == s.history && t.now == s.now && t.holder == s.holder
    ensures s.phase.es != [] ==> t.cut == |t.history|
    decreases WritesLeft(s)
  {
    hide Inv;
    CommitFacts(ly, fs0, s);
    if s.lh == [] {
      acts, t := [CommitDone], Do(ly, s, CommitDone);
      InvStep(ly, fs0, s, CommitDone);
      StepsThen(ly, s, [], s, CommitDone);
    } else {
      CommitCanWrite(ly, fs0, s);
      InvStep(ly, fs0, s, DiskWrite);
      WriteLeavesFewer(ly, s);
      hide Enabled, Do;
      var more;
      more, t := CommitFinishes(ly, fs0, Do(ly, s, DiskWrite));
      acts := [DiskWrite] + more;
      assert acts[1..] == more;
    }
  }

  // ---------------------------------------------------------------- recovery

  lemma RecoverFacts(ly: Layout, fs0: Disk, s: State)
    requires Inv(ly, fs0, s) == true && s.phase.Recovering?
    ensures GoodDisk(ly, s.phase.d0) && s.phase.k <= |Entries(s.phase.d0[ly.Header()])| + 1
    ensures s.appended == map[] && s.outstanding == 0 && !s.committing && s.lh == []
    ensures s.cut == |s.history|
  {
  }

  lemma {:induction false} RecoveryFinishes(ly: Layout, fs0: Disk, s: State) returns (acts: seq<Action>, t: State)
    requires Inv(ly, fs0, s) == true && s.phase.Recovering?
    ensures Steps(ly, s, acts, t) == true && Inv(ly, fs0, t) == true && OnlyRecover(acts)
    ensures Quiet(t) && t.history == s.history && t.now == s.now && t.holder == s.holder && t.cut == |t.history|
    ensures GoodDisk(ly, s.phase.d0) && |acts| == |Entries(s.phase.d0[ly.Header()])| + 2 - s.phase.k
    decreases if GoodDisk(ly, s.phase.d0) then |Entries(s.phase.d0[ly.Header()])| + 1 - s.phase.k else 0
  {
    hide Inv;
    RecoverFacts(ly, fs0, s);
    if s.phase.k == |Entries(s.phase.d0[ly.Header()])| + 1 {
      acts, t := [RecoverDone], Do(ly, s, RecoverDone);
      InvStep(ly, fs0, s, RecoverDone);
      StepsThen(ly, s, [], s, RecoverDone);
    } else {
      InvStep(ly, fs0, s, RecoverWrite);
      var more;
      more, t := RecoveryFinishes(ly, fs0, Do(ly, s, RecoverWrite));
      acts := [RecoverWrite] + more;
      assert acts[1..] == more;
    }
  }

  // ---------------------------------------------------------- when nothing is under way

  /** Then the home blocks are what the calls have made of the file system. */
  lemma QuietIsHome(ly: Layout, fs0: Disk, s: State)
    requires Inv(ly, fs0, s) == true && Quiet(s)
    ensures HomeBlocks(ly, s.disk) == s.now
  {
    forall key | key in s.now ensures HomeBlocks(ly, s.disk)[key] == s.now[key] {
      assert key in HomeBlocks(ly, s.disk);
      assert IsHome(ly, s.disk, key.blockno) && key == ly.Home(key.blockno);
    }
  }

  predicate NewCall(s: State, o: nat) {
    (forall i :: 0 <= i < |s.history| ==> s.history[i].op != o) && o !in s.appended
  }

  /** And any new call is admitted. */
  lemma QuietAdmits(ly: Layout, s: State, o: nat)
    requires Quiet(s) && NewCall(s, o)
    ensures Enabled(ly, s, BeginOp(o)) == true
  {
  }

  /** At rest: the home blocks are up to date and any new call is admitted. */
  ghost predicate AtRest(ly: Layout, s: State) {
    && Quiet(s) && HomeBlocks(ly, s.disk) == s.now
    && (forall o :: NewCall(s, o) ==> Enabled(ly, s, BeginOp(o)))
  }

  lemma QuietIsRest(ly: Layout, fs0: Disk, s: State)
    requires Inv(ly, fs0, s) == true && Quiet(s)
    ensures AtRest(ly, s) == true
  {
    QuietIsHome(ly, fs0, s);
    forall o | NewCall(s, o) ensures Enabled(ly, s, BeginOp(o)) { QuietAdmits(ly, s, o); }
  }

  /** end_op's commit always comes to an end: from every reachable state in which one is
      under way, exactly the writes it has left and the end of end_op lead to rest, with
      everything the group wrote durable. */
  lemma CommitsEnd(ly: Layout, d: Disk, acts: seq<Action>, s: State) returns (more: seq<Action>, t: State)
    requires GoodDisk(ly, d) && OneDevice(ly, d) && Steps(ly, Boot(ly, d), acts, s) == true && s.phase.Committing?
    ensures Steps(ly, s, more, t) == true && OnlyCommit(more) && |more| == WritesLeft(s) + 1
    ensures AtRest(ly, t) == true && t.history == s.history && t.now == s.now
    ensures s.phase.es != [] ==> t.cut == |t.history|
  {
    EveryRun(ly, d, acts, s);
    hide Inv, Steps, AtRest;
    more, t := CommitFinishes(ly, Logical(ly, d), s);
    QuietIsRest(ly, Logical(ly, d), t);
  }

  /** And so does every recovery. */
  lemma RecoveriesEnd(ly: Layout, d: Disk, acts: seq<Action>, s: State) returns (more: seq<Action>, t: State)
    requires GoodDisk(ly, d) && OneDevice(ly, d) && Steps(ly, Boot(ly, d), acts, s) == true && s.phase.Recovering?
    ensures Steps(ly, s, more, t) == true && OnlyRecover(more)
    ensures GoodDisk(ly, s.phase.d0) && |more| == |Entries(s.phase.d0[ly.Header()])| + 2 - s.phase.k
    ensures AtRest(ly, t) == true && t.history == s.history && t.now == s.now && t.cut == |t.history|
  {
    EveryRun(ly, d, acts, s);
    hide Inv, Steps, AtRest;
    more, t := RecoveryFinishes(ly, Logical(ly, d), s);
    QuietIsRest(ly, Logical(ly, d), t);
  }

  // ------------------------------------------------------------- a call from end to end

  /** begin_op, bread, a change, log_write, brelse, end_op. */
  function OneCall(o: nat, b: nat, data: Block): seq<Action> {
    [BeginOp(o), Acquire(o, b), Modify(o, b, data), LogWrite(o, b), Release(b), EndOp(o)]
  }

  lemma NoSteps(ly: Layout, s: State)
    ensures Steps(ly, s, [], s) == true
  {
  }

  /** The first half: the block is locked and changed. */
  lemma OneCallBegins(ly: Layout, s: State, o: nat, b: nat, data: Block) returns (acts: seq<Action>, t: State)
    requires Quiet(s) && NewCall(s, o) && IsHome(ly, s.disk, b) && b !in s.holder
    ensures acts == [BeginOp(o), Acquire(o, b), Modify(o, b, data)] && Steps(ly, s, acts, t) == true
    ensures t == DoModify(ly, DoAcquire(ly, DoBeginOp(s, o), o, b), o, b, data)
  {
    hide Steps;
    var s1 := DoBeginOp(s, o);
    var s2 := DoAcquire(ly, s1, o, b);
    NoSteps(ly, s);
    StepsThen(ly, s, [], s, BeginOp(o));
    StepsThen(ly, s, [] + [BeginOp(o)], s1, Acquire(o, b));
    StepsThen(ly, s, [] + [BeginOp(o)] + [Acquire(o, b)], s2, Modify(o, b, data));
    acts, t := [] + [BeginOp(o)] + [Acquire(o, b)] + [Modify(o, b, data)], DoModify(ly, s2, o, b, data);
  }

  /** The second half: it is logged and released, and the call ends. */
  lemma OneCallEnds(ly: Layout, s0: State, acts: seq<Action>, s: State, o: nat, b: nat)
    returns (more: seq<Action>, t: State)
    requires Steps(ly, s0, acts, s) == true && s.phase.Idle? && !s.committing && s.lh == [] && ly.size >= 2
    requires s.outstanding == 1 && s.appended == map[o := 0] && b in s.cache && b in s.holder && s.holder[b] == o
    requires forall c :: c in s.holder && c != b ==> s.holder[c] != o
    ensures more == acts + [LogWrite(o, b), Release(b), EndOp(o)] && Steps(ly, s0, more, t) == true
    ensures t.phase.Committing? && t.phase.es == [b] && t.history == s.history + [End(o)] && t.now == s.now
  {
    hide Steps;
    var s1 := DoAppend(s, o, b);
    var s2 := s1.(holder := s1.holder - {b});
    StepsThen(ly, s0, acts, s, LogWrite(o, b));
    StepsThen(ly, s0, acts + [LogWrite(o, b)], s1, Release(b));
    StepsThen(ly, s0, acts + [LogWrite(o, b)] + [Release(b)], s2, EndOp(o));
    more, t := acts + [LogWrite(o, b)] + [Release(b)] + [EndOp(o)], DoEndOp(ly, s2, o);
  }

  lemma OneCallRuns(ly: Layout, s: State, o: nat, b: nat, data: Block) returns (t: State)
    requires Quiet(s) && NewCall(s, o) && IsHome(ly, s.disk, b) && b !in s.holder && ly.size >= 2
    requires forall c :: c in s.holder ==> s.holder[c] != o
    ensures Steps(ly, s, OneCall(o, b, data), t) == true && t.phase.Committing? && t.phase.es == [b]
    ensures t.history == s.history + [Begin(o), Wrote(o, b, data), End(o)] && t.now == s.now[ly.Home(b) := data]
  {
    hide Steps, IsHome;
    var acts, u := OneCallBegins(ly, s, o, b, data);
    var more;
    more, t := OneCallEnds(ly, s, acts, u, o, b);
    assert more == OneCall(o, b, data);
  }

  predicate NoCrash(acts: seq<Action>) { forall i :: 0 <= i < |acts| ==> !acts[i].Crash? }

  lemma QuietWrite(ly: Layout, fs0: Disk, s: State, o: nat, b: nat, data: Block) returns (acts: seq<Action>, t: State)
    requires Inv(ly, fs0, s) == true && Quiet(s) && NewCall(s, o) && IsHome(ly, s.disk, b) == true && b !in s.holder
    requires ly.size >= 2 && forall c :: c in s.holder ==> s.holder[c] != o
    ensures Steps(ly, s, acts, t) == true && NoCrash(acts) && Quiet(t)
    ensures t.history == s.history + [Begin(o), Wrote(o, b, data), End(o)] && t.cut == |t.history|
    ensures t.now == s.now[ly.Home(b) := data] && HomeBlocks(ly, t.disk) == t.now
  {
    hide Inv, Steps, HomeBlocks, IsHome;
    var u := OneCallRuns(ly, s, o, b, data);
    InvSteps(ly, fs0, s, OneCall(o, b, data), u);
    var last;
    last, t := CommitFinishes(ly, fs0, u);
    QuietIsHome(ly, fs0, t);
    StepsJoin(ly, s, OneCall(o, b, data), u, last, t);
    acts := OneCall(o, b, data) + last;
  }

  /** From every reachable state with no call in progress, whatever else is going on: a
      new call's change of a block that nobody holds is carried all the way to its home
      on disk, and is durable there, by steps that are never held up. */
  lemma WriteGoesHome(ly: Layout, d: Disk, acts: seq<Action>, s: State, o: nat, b: nat, data: Block)
    returns (more: seq<Action>, t: State)
    requires GoodDisk(ly, d) && OneDevice(ly, d) && Steps(ly, Boot(ly, d), acts, s) == true && ly.size >= 2
    requires s.appended == map[] && NewCall(s, o) && IsHome(ly, s.disk, b) == true && b !in s.holder
    requires forall c :: c in s.holder ==> s.holder[c] != o
    ensures Steps(ly, s, more, t) == true && NoCrash(more) && Quiet(t)
    ensures t.history == s.history + [Begin(o), Wrote(o, b, data), End(o)] && t.cut == |t.history|
    ensures t.now == s.now[ly.Home(b) := data] && HomeBlocks(ly, t.disk) == t.now
  {
    hide Inv, Steps, GoodDisk, HomeBlocks, IsHome, OneDevice;
    EveryRun(ly, d, acts, s);
    var first, q := BecomesQuiet(ly, d, acts, s);
    HomeIff(ly, Logical(ly, d), s, b);
    HomeIff(ly, Logical(ly, d), q, b);
    var last;
    last, t := QuietWrite(ly, Logical(ly, d), q, o, b, data);
    StepsJoin(ly, s, first, q, last, t);
    more := first + last;
  }

  /** No call, no commit and no recovery: nothing is logged. */
  ghost predicate LogEmptied(s: State) { s.phase.Idle? && s.appended == map[] ==> s.lh == [] }

  lemma LogEmptiedStep(ly: Layout, s: State, a: Action)
    requires LogEmptied(s) && Enabled(ly, s, a) && (s.phase.Recovering? ==> s.lh == [])
    requires s.outstanding == |s.appended|
    ensures LogEmptied(Do(ly, s, a))
  {
    if a.EndOp? { LastCall(s.appended, a.o); }
    if a.BeginOp? || a.LogWrite? { assert a.o in Do(ly, s, a).appended; }
  }

  lemma LastCall(appended: map<nat, nat>, o: nat)
    requires o in appended
    ensures appended - {o} == map[] ==> |appended| == 1
  {
    assert (appended - {o}).Keys == appended.Keys - {o} && |appended| == |appended.Keys|;
    assert appended.Keys - {o} == {} ==> appended.Keys == {o};
  }

  lemma BooksSay(ly: Layout, fs0: Disk, s: State)
    requires Inv(ly, fs0, s) == true
    ensures s.outstanding == |s.appended| && (s.phase.Recovering? ==> s.lh == [])
  {
  }

  lemma {:induction false} LogEmptiedSteps(ly: Layout, fs0: Disk, s: State, acts: seq<Action>, t: State)
    requires Inv(ly, fs0, s) == true && LogEmptied(s) && Steps(ly, s, acts, t)
    ensures LogEmptied(t)
    decreases |acts|
  {
    hide Inv, Enabled, Do;
    if acts != [] {
      BooksSay(ly, fs0, s);
      LogEmptiedStep(ly, s, acts[0]);
      InvStep(ly, fs0, s, acts[0]);
      LogEmptiedSteps(ly, fs0, Do(ly, s, acts[0]), acts[1..], t);
    }
  }

  /** A state with no call in progress can be brought to rest. */
  lemma BecomesQuiet(ly: Layout, d: Disk, acts: seq<Action>, s: State) returns (more: seq<Action>, t: State)
    requires GoodDisk(ly, d) && OneDevice(ly, d) && Steps(ly, Boot(ly, d), acts, s) == true && s.appended == map[]
    ensures Steps(ly, s, more, t) == true && Inv(ly, Logical(ly, d), t) == true && Quiet(t) && NoCrash(more)
    ensures t.history == s.history && t.now == s.now && t.holder == s.holder
  {
    EveryRun(ly, d, acts, s);
    hide Inv, Steps, Enabled, Do;
    if s.phase.Committing? {
      more, t := CommitFinishes(ly, Logical(ly, d), s);
    } else if s.phase.Recovering? {
      more, t := RecoveryFinishes(ly, Logical(ly, d), s);
    } else {
      EmptyAtRest(ly, d, acts, s);
      NoSteps(ly, s);
      more, t := [], s;
    }
  }

  lemma EmptyAtRest(ly: Layout, d: Disk, acts: seq<Action>, s: State)
    requires GoodDisk(ly, d) && OneDevice(ly, d) && Steps(ly, Boot(ly, d), acts, s) == true
    requires s.appended == map[] && s.phase.Idle?
    ensures Quiet(s)
  {
    BootInv(ly, d);
    EveryRun(ly, d, acts, s);
    hide OnDisk, InMemory, Told, SpentIsSum;
    LogEmptiedSteps(ly, Logical(ly, d), Boot(ly, d), acts, s);
  }

  /** The blocks outside the log area are those of the file system. */
  lemma HomeIff(ly: Layout, fs0: Disk, s: State, b: nat)
    requires Inv(ly, fs0, s) == true
    ensures IsHome(ly, s.disk, b) <==> ly.Home(b) in s.now && b < UINT_MAX
  {
    assert ly.Home(b) in HomeBlocks(ly, s.disk) <==> ly.Home(b) in s.disk && !ly.InLog(ly.Home(b));
    hide InMemory, Books, Told, SpentIsSum, InPhase, Durable;
  }

  // ------------------------------------------------------------------- readers

  /** Outside recovery whoever reads a block, locked by nobody or by themselves, finds
      what the calls so far have made of it. */
  lemma ReadersSeeTheCalls(ly: Layout, d: Disk, acts: seq<Action>, s: State, p: nat, b: nat)
    requires GoodDisk(ly, d) && OneDevice(ly, d) && Steps(ly, Boot(ly, d), acts, s) && !s.phase.Recovering?
    requires IsHome(ly, s.disk, b) && b !in s.holder
    ensures Enabled(ly, s, Acquire(p, b))
    ensures var t := Do(ly, s, Acquire(p, b)); var fs := Replay(ly, Logical(ly, d), s.history);
            && b in t.cache && ly.Home(b) in fs && t.cache[b].data == fs[ly.Home(b)]
            && t.holder == s.holder[b := p] && Enabled(ly, t, Release(b))
  {
    EveryRun(ly, d, acts, s);
    hide OnDisk, Books, SpentIsSum;
  }

  /** Any cached block that nobody holds and the log does not pin can be recycled, and
      no reader can tell. */
  lemma RecyclingLosesNothing(ly: Layout, d: Disk, acts: seq<Action>, s: State, b: nat, c: nat)
    requires GoodDisk(ly, d) && OneDevice(ly, d) && Steps(ly, Boot(ly, d), acts, s) && s.phase.Idle?
    requires b in s.cache && b !in s.holder && b !in s.lh && IsHome(ly, s.disk, c)
    ensures Enabled(ly, s, Evict(b))
    ensures var t := Do(ly, s, Evict(b)); b !in t.cache && t.disk == s.disk && Bread(ly, t, c) == Bread(ly, s, c)
  {
    hide Steps, OnDisk, Books, SpentIsSum, Told, InMemory;
    EveryRun(ly, d, acts, s);
    RecycleOne(ly, s, b, c);
  }

  lemma RecycleOne(ly: Layout, s: State, b: nat, c: nat)
    requires InMemory(ly, s) == true && s.phase.Idle?
    requires b in s.cache && b !in s.holder && b !in s.lh && IsHome(ly, s.disk, c)
    ensures Enabled(ly, s, Evict(b))
    ensures var t := Do(ly, s, Evict(b)); b !in t.cache && t.disk == s.disk && Bread(ly, t, c) == Bread(ly, s, c)
  {
    hide Current, PinsAgree;
    Unpinned(ly, s.disk, s.cache, s.unlogged, s.lh, b);
  }

  lemma Unpinned(ly: Layout, disk: Disk, cache: map<nat, Cached>, unlogged: set<nat>, lh: seq<nat>, b: nat)
    requires PinsAgree(ly, disk, cache, unlogged, lh) == true && b in cache && b !in lh && b !in unlogged
    ensures cache[b].pins == 0 && ly.Home(b) in disk && cache[b].data == disk[ly.Home(b)]
  {
  }

  // -------------------------------------------------------------- crashes, and calls at work

  /** A crash can come at any moment of any run, and recovery then leaves exactly what
      the durable calls wrote. */
  lemma CrashThenRecovers(ly: Layout, d: Disk, acts: seq<Action>, s: State) returns (more: seq<Action>, t: State)
    requires GoodDisk(ly, d) && OneDevice(ly, d) && Steps(ly, Boot(ly, d), acts, s) == true
    ensures Steps(ly, s, [Crash] + more, t) == true && OnlyRecover(more) && AtRest(ly, t) == true
    ensures s.cut <= |s.history| && t.history == s.history[..s.cut]
    ensures HomeBlocks(ly, t.disk) == Replay(ly, Logical(ly, d), s.history[..s.cut])
  {
    EveryRun(ly, d, acts, s);
    DurableIsReplay(ly, Logical(ly, d), s);
    CrashHappens(ly, s);
    hide Inv, Steps, AtRest, Do, Enabled;
    var u := Do(ly, s, Crash);
    StepsThen(ly, Boot(ly, d), acts, s, Crash);
    more, t := RecoveriesEnd(ly, d, acts + [Crash], u);
    NoSteps(ly, s);
    StepsThen(ly, s, [], s, Crash);
    assert [] + [Crash] == [Crash];
    StepsJoin(ly, s, [Crash], u, more, t);
    RestIsHome(ly, t);
  }

  lemma RestIsHome(ly: Layout, s: State)
    requires AtRest(ly, s) == true
    ensures HomeBlocks(ly, s.disk) == s.now
  {
  }

  lemma DurableIsReplay(ly: Layout, fs0: Disk, s: State)
    requires Inv(ly, fs0, s) == true
    ensures s.cut <= |s.history| && s.durable == Replay(ly, fs0, s.history[..s.cut])
  {
  }

  lemma CrashHappens(ly: Layout, s: State)
    requires s.cut <= |s.history|
    ensures Enabled(ly, s, Crash) == true
    ensures var u := Do(ly, s, Crash);
            && u.phase.Recovering? && u.disk == s.disk && u.history == s.history[..s.cut] && u.now == s.durable
            && u.cache == map[] && u.lh == [] && u.outstanding == 0
  {
  }

  /** What a call can do with a block it holds, in every reachable state: change it, then
      log it, for which it takes room or the block being logged already, and only then
      let it go. */
  lemma CallAtWork(ly: Layout, d: Disk, acts: seq<Action>, s: State, o: nat, b: nat, data: Block)
    requires GoodDisk(ly, d) && OneDevice(ly, d) && Steps(ly, Boot(ly, d), acts, s) == true
    requires o in s.appended && b in s.holder && s.holder[b] == o
    ensures Enabled(ly, s, Modify(o, b, data)) == true
    ensures var t := Do(ly, s, Modify(o, b, data));
            && t.now == s.now[ly.Home(b) := data] && t.disk == s.disk && t.history == s.history + [Wrote(o, b, data)]
            && Enabled(ly, t, Release(b)) == false
            && (Enabled(ly, t, LogWrite(o, b)) == true <==>
                |s.lh| < 30 && |s.lh| + 1 < ly.size && (b in s.lh || s.appended[o] < 10))
            && (Enabled(ly, t, LogWrite(o, b)) == true ==>
                  var u := Do(ly, t, LogWrite(o, b));
                  && u.lh == (if b in s.lh then s.lh else s.lh + [b]) && Enabled(ly, u, Release(b)) == true
                  && u.appended == s.appended[o := s.appended[o] + if b in s.lh then 0 else 1])
  {
    hide Inv, Steps, GoodDisk, Enabled, Do;
    EveryRun(ly, d, acts, s);
    HeldIsCached(ly, Logical(ly, d), s, b);
    WorkModify(ly, s, o, b, data);
    WorkLog(ly, Do(ly, s, Modify(o, b, data)), o, b);
  }

  lemma WorkModify(ly: Layout, s: State, o: nat, b: nat, data: Block)
    requires o in s.appended && b in s.holder && s.holder[b] == o && b in s.cache
    ensures Enabled(ly, s, Modify(o, b, data)) == true
    ensures var t := Do(ly, s, Modify(o, b, data));
            && t.now == s.now[ly.Home(b) := data] && t.disk == s.disk && t.history == s.history + [Wrote(o, b, data)]
            && t.appended == s.appended && t.holder == s.holder && t.lh == s.lh && b in t.cache && b in t.unlogged
  {
  }

  lemma WorkLog(ly: Layout, t: State, o: nat, b: nat)
    requires o in t.appended && b in t.holder && t.holder[b] == o && b in t.cache && b in t.unlogged
    ensures Enabled(ly, t, Release(b)) == false
    ensures Enabled(ly, t, LogWrite(o, b)) == true <==>
            |t.lh| < 30 && |t.lh| + 1 < ly.size && (b in t.lh || t.appended[o] < 10)
    ensures Enabled(ly, t, LogWrite(o, b)) == true ==>
              var u := Do(ly, t, LogWrite(o, b));
              && u.lh == (if b in t.lh then t.lh else t.lh + [b]) && Enabled(ly, u, Release(b)) == true
              && u.appended == t.appended[o := t.appended[o] + if b in t.lh then 0 else 1]
  {
    assert t.appended[o := t.appended[o] + 0] == t.appended;
  }

  lemma HeldIsCached(ly: Layout, fs0: Disk, s: State, b: nat)
    requires Inv(ly, fs0, s) == true && b in s.holder
    ensures b in s.cache
  {
  }

  /** Where nothing is under way three calls can begin and no fourth; they can end in an
      order of their own, and with the last the commit begins. */
  lemma ThreeAtOnce(ly: Layout, s: State, o1: nat, o2: nat, o3: nat) returns (t: State, u: State)
    requires Quiet(s) && NewCall(s, o1) && NewCall(s, o2) && NewCall(s, o3) && o1 != o2 && o2 != o3 && o1 != o3
    requires forall c :: c in s.holder ==> s.holder[c] != o1 && s.holder[c] != o2 && s.holder[c] != o3
    ensures Steps(ly, s, [BeginOp(o1), BeginOp(o2), BeginOp(o3)], t) == true && t.appended.Keys == {o1, o2, o3}
    ensures forall o :: !Enabled(ly, t, BeginOp(o))
    ensures Steps(ly, t, [EndOp(o2), EndOp(o1), EndOp(o3)], u) == true && u.phase.Committing? && u.appended == map[]
  {
    hide Steps;
    var t1 := Do(ly, s, BeginOp(o1));
    var t2 := Do(ly, t1, BeginOp(o2));
    t := Do(ly, t2, BeginOp(o3));
    NoSteps(ly, s);
    StepsThen(ly, s, [], s, BeginOp(o1));
    StepsThen(ly, s, [] + [BeginOp(o1)], t1, BeginOp(o2));
    StepsThen(ly, s, [] + [BeginOp(o1)] + [BeginOp(o2)], t2, BeginOp(o3));
    assert [] + [BeginOp(o1)] + [BeginOp(o2)] + [BeginOp(o3)] == [BeginOp(o1), BeginOp(o2), BeginOp(o3)];
    u := ThreeEnd(ly, t, o2, o1, o3);
  }

  lemma ThreeEnd(ly: Layout, t: State, o1: nat, o2: nat, o3: nat) returns (u: State)
    requires t.outstanding == 3 && t.appended == map[o1 := 0, o2 := 0, o3 := 0]
    requires o1 != o2 && o2 != o3 && o1 != o3
    requires forall c :: c in t.holder ==> t.holder[c] != o1 && t.holder[c] != o2 && t.holder[c] != o3
    ensures Steps(ly, t, [EndOp(o1), EndOp(o2), EndOp(o3)], u) == true && u.phase.Committing? && u.appended == map[]
  {
    hide Steps;
    var t1 := Do(ly, t, EndOp(o1));
    var t2 := Do(ly, t1, EndOp(o2));
    u := Do(ly, t2, EndOp(o3));
    NoSteps(ly, t);
    StepsThen(ly, t, [], t, EndOp(o1));
    StepsThen(ly, t, [] + [EndOp(o1)], t1, EndOp(o2));
    StepsThen(ly, t, [] + [EndOp(o1)] + [EndOp(o2)], t2, EndOp(o3));
    assert [] + [EndOp(o1)] + [EndOp(o2)] + [EndOp(o3)] == [EndOp(o1), EndOp(o2), EndOp(o3)];
  }
}
