/** fork, exit and wait of kernel/proc.c: what every step keeps. */
module ProcWait {
  import opened Proc

  /** What a scheduler step leaves alone. */
  lemma SchedulerFrame(s: State, a: Action)
    requires Enabled(s, a) && SchedulerStep(a)
    ensures var t, p := Do(s, a), SchedulerSubject(s, a);
            && p < |s.procs| == |t.procs| && t.waitLock == s.waitLock && t.nextpid == s.nextpid && t.reaped == s.reaped
            && (forall r :: 0 <= r < |s.procs| && r != p ==> t.procs[r] == s.procs[r])
            && var x, y := s.procs[p], t.procs[p];
               && y.parent == x.parent && y.pid == x.pid && y.chan == x.chan && y.killed == x.killed
               && y.maker == x.maker
               && (y.state == x.state || (x.state == RUNNABLE && y.state == RUNNING))
               && Core(y.pc) == (if x.pc == Leaving(Dead) then Dead else Core(x.pc))
               && (y.pc == x.pc || x.pc.Leaving? || x.pc.Out?)
               && (y.pc == x.pc || y.pc.Out? || y.pc.Resumed? || y.pc.Dead?)
  {
  }

  // ------------------------------------------------------------------------ wait_lock

  lemma WaitLockedByScheduler(s: State, a: Action)
    requires WaitLocked(s) && Enabled(s, a) && SchedulerStep(a)
    ensures WaitLocked(Do(s, a))
  {
    SchedulerFrame(s, a);
    var t := Do(s, a);
    hide Do, Enabled;
    forall r | 0 <= r < |t.procs| ensures t.waitLock == r <==> HoldsWait(t.procs[r].pc) {
      assert s.waitLock == r <==> HoldsWait(s.procs[r].pc);
    }
  }

  /** A thread that holds wait_lock, or takes it free, is alone with it. */
  lemma WaitLockedByThread(s: State, a: Action)
    requires WaitLocked(s) && Threads(s) && Forks(s) && Enabled(s, a) && !SchedulerStep(a)
    ensures WaitLocked(Do(s, a))
  {
    ThreadFrame(s, a);
    var t, p, q := Do(s, a), Actor(a), Other(s, a);
    assert s.waitLock == p <==> HoldsWait(s.procs[p].pc);
    assert s.waitLock == q <==> HoldsWait(s.procs[q].pc);
    assert ThreadOK(s.procs[q], CpuOf(s, q));
    if a.StartChild? || a.SetParent? { ChildOf(s, p); }
    if PairStep(a) { WaitLockOfPair(s, a); } else { WaitLockOfOne(s, a); }
    hide Threads, Forks, Do, Enabled;
    forall r | 0 <= r < |t.procs| && r != p && r != q ensures t.waitLock == r <==> HoldsWait(t.procs[r].pc) {
      assert s.waitLock == r <==> HoldsWait(s.procs[r].pc);
    }
  }

  /** wait_lock stays with its holder, is taken free by the actor, or is given back by it. */
  predicate LockMoves(s: State, t: State, p: nat) {
    t.waitLock == s.waitLock || (s.waitLock < 0 && t.waitLock == p) || (s.waitLock == p && t.waitLock == -1)
  }

  lemma WaitLockOfOne(s: State, a: Action)
    requires Enabled(s, a) && !SchedulerStep(a) && !PairStep(a) && Actor(a) < |s.procs| == |Do(s, a).procs|
    requires s.waitLock == Actor(a) <==> HoldsWait(s.procs[Actor(a)].pc)
    requires ThreadOK(s.procs[Actor(a)], CpuOf(s, Actor(a)))
    ensures LockMoves(s, Do(s, a), Actor(a))
    ensures Do(s, a).waitLock == Actor(a) <==> HoldsWait(Do(s, a).procs[Actor(a)].pc)
  {
  }

  lemma WaitLockOfPair(s: State, a: Action)
    requires Enabled(s, a) && PairStep(a) && Actor(a) < |s.procs| && Other(s, a) < |s.procs| == |Do(s, a).procs|
    requires s.waitLock == Actor(a) <==> HoldsWait(s.procs[Actor(a)].pc)
    requires s.waitLock == Other(s, a) <==> HoldsWait(s.procs[Other(s, a)].pc)
    requires ThreadOK(s.procs[Other(s, a)], CpuOf(s, Other(s, a)))
    requires a.StartChild? || a.SetParent? ==> Actor(a) != Other(s, a) && s.procs[Other(s, a)].pc == NoThread
    ensures LockMoves(s, Do(s, a), Actor(a))
    ensures Do(s, a).waitLock == Actor(a) <==> HoldsWait(Do(s, a).procs[Actor(a)].pc)
    ensures Do(s, a).waitLock == Other(s, a) <==> HoldsWait(Do(s, a).procs[Other(s, a)].pc)
  {
  }

  // --------------------------------------------------------------------- children being made

  lemma ForksByScheduler(s: State, a: Action)
    requires Forks(s) && Threads(s) && Enabled(s, a) && SchedulerStep(a)
    ensures Forks(Do(s, a))
  {
    SchedulerFrame(s, a);
    var t, p := Do(s, a), SchedulerSubject(s, a);
    assert ThreadOK(s.procs[p], CpuOf(s, p));
    hide Do, Enabled, Threads;
    forall r: nat | r < |t.procs| ensures ChildReady(t, r) && Vacant(t.procs[r]) {
      assert ChildReady(s, r) && Vacant(s.procs[r]);
    }
  }

  /** Both processes of a thread's step are as threads should be, and so is a child. */
  predicate PairReady(s: State, a: Action)
    requires Enabled(s, a) && !SchedulerStep(a)
  {
    && Actor(a) < |s.procs| && Other(s, a) < |s.procs| == |Do(s, a).procs|
    && ThreadOK(s.procs[Actor(a)], CpuOf(s, Actor(a))) && ThreadOK(s.procs[Other(s, a)], CpuOf(s, Other(s, a)))
    && ChildReady(s, Actor(a)) && Vacant(s.procs[Other(s, a)])
  }

  lemma ForksByThread(s: State, a: Action)
    requires Forks(s) && Threads(s) && Enabled(s, a) && !SchedulerStep(a)
    ensures Forks(Do(s, a))
  {
    ThreadFrame(s, a);
    var t, p, q := Do(s, a), Actor(a), Other(s, a);
    assert ThreadOK(s.procs[p], CpuOf(s, p)) && ThreadOK(s.procs[q], CpuOf(s, q)) && ChildReady(s, p)
            && Vacant(s.procs[q]);
    assert PairReady(s, a);
    forall r: nat | r < |t.procs| ensures ChildReady(t, r) && Vacant(t.procs[r]) {
      assert ChildReady(s, r) && ThreadOK(s.procs[r], CpuOf(s, r)) && Vacant(s.procs[r]);
      ReadyByThread(s, a, r);
      if PairStep(a) { VacantByPair(s, a, r); } else { VacantByOne(s, a, r); }
    }
  }

  lemma ReadyByThread(s: State, a: Action, r: nat)
    requires Enabled(s, a) && !SchedulerStep(a) && r < |s.procs| && PairReady(s, a) && ChildReady(s, r)
    ensures ChildReady(Do(s, a), r) == true
  {
    if r == Actor(a) { ReadyByActor(s, a, r); }
    else if ForkStep(a) { ReadyByFork(s, a, r); }
    else if PairStep(a) { ReadyByPair(s, a, r); }
    else { ReadyByOne(s, a, r); }
  }

  lemma ReadyByActor(s: State, a: Action, r: nat)
    requires Enabled(s, a) && !SchedulerStep(a) && r == Actor(a) && PairReady(s, a)
    ensures ChildReady(Do(s, a), r) == true
  {
  }

  predicate ForkStep(a: Action) { a.NewChild? || a.SetParent? || a.StartChild? }

  lemma ReadyByFork(s: State, a: Action, r: nat)
    requires Enabled(s, a) && ForkStep(a) && r < |s.procs| && r != Actor(a) && PairReady(s, a) && ChildReady(s, r)
    ensures ChildReady(Do(s, a), r) == true
  {
  }

  lemma ReadyByPair(s: State, a: Action, r: nat)
    requires Enabled(s, a) && PairStep(a) && !ForkStep(a) && r < |s.procs| && r != Actor(a) && PairReady(s, a)
            && ChildReady(s, r)
    ensures ChildReady(Do(s, a), r) == true
  {
  }

  lemma ReadyByOne(s: State, a: Action, r: nat)
    requires Enabled(s, a) && !SchedulerStep(a) && !PairStep(a) && r < |s.procs| && r != Actor(a) && PairReady(s, a)
            && ChildReady(s, r)
    ensures ChildReady(Do(s, a), r) == true
  {
  }

  lemma VacantByOne(s: State, a: Action, r: nat)
    requires Enabled(s, a) && !SchedulerStep(a) && !PairStep(a) && r < |s.procs| && PairReady(s, a)
    requires Vacant(s.procs[r]) && ThreadOK(s.procs[r], CpuOf(s, r))
    ensures Vacant(Do(s, a).procs[r])
  {
  }

  lemma VacantByPair(s: State, a: Action, r: nat)
    requires Enabled(s, a) && PairStep(a) && r < |s.procs| && PairReady(s, a)
    requires Vacant(s.procs[r]) && ThreadOK(s.procs[r], CpuOf(s, r))
    ensures Vacant(Do(s, a).procs[r])
  {
  }

  // -------------------------------------------------------------------------- parents

  lemma ParentsByScheduler(s: State, a: Action)
    requires Parents(s) && Enabled(s, a) && SchedulerStep(a)
    ensures Parents(Do(s, a))
  {
    SchedulerFrame(s, a);
    var t, p := Do(s, a), SchedulerSubject(s, a);
    hide Do, Enabled;
    forall i: nat | i < |t.procs| ensures ParentOK(t, i) { assert ParentOK(s, i); }
    forall e: nat, i: nat | e < |t.procs| && i < |t.procs| ensures NotLeftBehind(t, e, i) {
      assert NotLeftBehind(s, e, i);
    }
  }

  lemma ParentsByThread(s: State, a: Action)
    requires Parents(s) && Threads(s) && Forks(s) && Enabled(s, a) && !SchedulerStep(a)
    ensures Parents(Do(s, a))
  {
    ThreadFrame(s, a);
    var t, p, q := Do(s, a), Actor(a), Other(s, a);
    assert ThreadOK(s.procs[p], CpuOf(s, p)) && ThreadOK(s.procs[q], CpuOf(s, q))
            && ThreadOK(s.procs[INIT], CpuOf(s, INIT));
    if a.StartChild? || a.SetParent? { ChildOf(s, p); }
    InitByThread(s, a);
    forall i: nat | i < |t.procs| ensures ParentOK(t, i) {
      assert ParentOK(s, i) && ParentOK(s, q) && (a.BecomeZombie? ==> NotLeftBehind(s, p, i));
      if PairStep(a) { ParentByPair(s, a, i); } else { ParentByOne(s, a, i); }
    }
    forall e: nat, i: nat | e < |t.procs| && i < |t.procs| ensures NotLeftBehind(t, e, i) {
      assert NotLeftBehind(s, e, i) && ParentOK(s, i);
      if PairStep(a) { BehindByPair(s, a, e, i); } else { BehindByOne(s, a, e, i); }
    }
  }

  predicate Settled(s: State, a: Action)
    requires Enabled(s, a) && !SchedulerStep(a)
  {
    && Actor(a) < |s.procs| && Other(s, a) < |s.procs| == |Do(s, a).procs| && INIT < |s.procs|
    && ThreadOK(s.procs[Actor(a)], CpuOf(s, Actor(a))) && ThreadOK(s.procs[Other(s, a)], CpuOf(s, Other(s, a)))
    && Alive(s.procs[INIT]) && !Exiting(s.procs[INIT].pc) && s.procs[INIT].parent == -1
    && (a.StartChild? || a.SetParent? ==> s.procs[Other(s, a)].state == USED && s.procs[Other(s, a)].pc == NoThread)
  }

  lemma InitByThread(s: State, a: Action)
    requires Enabled(s, a) && !SchedulerStep(a) && Settled(s, a) && ThreadOK(s.procs[INIT], CpuOf(s, INIT))
    ensures var x := Do(s, a).procs[INIT]; Alive(x) && !Exiting(x.pc) && x.parent == -1
  {
  }

  lemma ParentByOne(s: State, a: Action, i: nat)
    requires Enabled(s, a) && !SchedulerStep(a) && !PairStep(a) && i < |s.procs| && Settled(s, a) && ParentOK(s, i)
    requires a.BecomeZombie? ==> NotLeftBehind(s, Actor(a), i)
    ensures ParentOK(Do(s, a), i) == true
  {
  }

  lemma ParentByPair(s: State, a: Action, i: nat)
    requires Enabled(s, a) && PairStep(a) && i < |s.procs| && Settled(s, a) && ParentOK(s, i)
    ensures ParentOK(Do(s, a), i) == true
  {
  }

  lemma BehindByOne(s: State, a: Action, e: nat, i: nat)
    requires Enabled(s, a) && !SchedulerStep(a) && !PairStep(a) && e < |s.procs| && i < |s.procs| && Settled(s, a)
    requires NotLeftBehind(s, e, i) && ParentOK(s, i)
    ensures NotLeftBehind(Do(s, a), e, i) == true
  {
  }

  lemma BehindByPair(s: State, a: Action, e: nat, i: nat)
    requires Enabled(s, a) && PairStep(a) && e < |s.procs| && i < |s.procs| && Settled(s, a)
    requires NotLeftBehind(s, e, i) && ParentOK(s, i)
    ensures NotLeftBehind(Do(s, a), e, i) == true
  {
  }

  // ------------------------------------------------------------------- zombies and wait

  lemma WaitsByScheduler(s: State, a: Action)
    requires Waits(s) && Enabled(s, a) && SchedulerStep(a)
    ensures Waits(Do(s, a))
  {
    SchedulerFrame(s, a);
    var t, p := Do(s, a), SchedulerSubject(s, a);
    hide Do, Enabled;
    assert forall r: nat :: r < |t.procs| ==> Committed(t.procs[r]) == Committed(s.procs[r]);
    assert InitDueToWake(t) == InitDueToWake(s);
    forall r: nat | r < |t.procs| ensures ChanOK(t, r) { assert ChanOK(s, r); }
    forall r: nat | r < |t.procs| ensures ZombieOK(t, r) { assert ZombieOK(s, r); }
    forall r: nat | r < |t.procs| ensures DieOK(t, r) { assert DieOK(s, r); }
    forall r: nat, i: nat | r < |t.procs| && i < |t.procs| ensures ScanOK(t, r, i) { assert ScanOK(s, r, i); }
  }

  /** The facts about the acting thread that the steps of fork, exit and wait rest on. */
  predicate Ordered(s: State, a: Action)
    requires Enabled(s, a) && !SchedulerStep(a)
  {
    && Settled(s, a) && (HoldsWait(s.procs[Actor(a)].pc) ==> s.waitLock == Actor(a))
    && ThreadOK(s.procs[INIT], CpuOf(s, INIT)) && ChanOK(s, INIT) && ChanOK(s, Other(s, a)) && DieOK(s, Actor(a))
    && ParentOK(s, Actor(a))
  }

  lemma WaitsByThread(s: State, a: Action)
    requires Waits(s) && Parents(s) && Threads(s) && Forks(s) && WaitLocked(s) && Enabled(s, a) && !SchedulerStep(a)
    ensures Waits(Do(s, a))
  {
    ThreadFrame(s, a);
    var t, p, q := Do(s, a), Actor(a), Other(s, a);
    assert ThreadOK(s.procs[p], CpuOf(s, p)) && ThreadOK(s.procs[q], CpuOf(s, q))
            && ThreadOK(s.procs[INIT], CpuOf(s, INIT));
    if a.StartChild? || a.SetParent? { ChildOf(s, p); }
    assert HoldsWait(s.procs[p].pc) <==> s.waitLock == p;
    assert ChanOK(s, INIT) && ChanOK(s, q) && DieOK(s, p) && ParentOK(s, p);
    assert Ordered(s, a);
    forall r: nat | r < |t.procs| ensures ChanOK(t, r) { assert ChanOK(s, r); ChanByThread(s, a, r); }
    forall r: nat | r < |t.procs| ensures ZombieOK(t, r) {
      assert ZombieOK(s, r) && ScanOK(s, p, r) && ParentOK(s, r);
      ZombieByThread(s, a, r);
    }
    forall r: nat | r < |t.procs| ensures DieOK(t, r) {
      assert DieOK(s, r) && ParentOK(s, r) && (HoldsWait(s.procs[r].pc) <==> s.waitLock == r);
      if PairStep(a) { DieByPair(s, a, r); } else { DieByOne(s, a, r); }
    }
    forall r: nat, i: nat | r < |t.procs| && i < |t.procs| ensures ScanOK(t, r, i) {
      assert ScanOK(s, r, i) && (HoldsWait(s.procs[r].pc) <==> s.waitLock == r);
      ScanByThread(s, a, r, i);
    }
  }

  lemma ChanByThread(s: State, a: Action, r: nat)
    requires Enabled(s, a) && !SchedulerStep(a) && r < |s.procs| && Ordered(s, a) && ChanOK(s, r)
    ensures r < |Do(s, a).procs| && ChanOK(Do(s, a), r) == true
  {
  }

  lemma ZombieByThread(s: State, a: Action, r: nat)
    requires Enabled(s, a) && !SchedulerStep(a) && r < |s.procs| && Ordered(s, a) && ZombieOK(s, r)
            && ScanOK(s, Actor(a), r) && ParentOK(s, r)
    ensures r < |Do(s, a).procs| && ZombieOK(Do(s, a), r) == true
  {
    if ForkStep(a) { ZombieByFork(s, a, r); }
    else if ExitStep(a) { ZombieByExit(s, a, r); }
    else if PairStep(a) { ZombieByPair(s, a, r); }
    else { ZombieByOne(s, a, r); }
  }

  lemma ZombieByFork(s: State, a: Action, r: nat)
    requires Enabled(s, a) && ForkStep(a) && r < |s.procs| && Ordered(s, a) && ZombieOK(s, r) && ParentOK(s, r)
    ensures r < |Do(s, a).procs| && ZombieOK(Do(s, a), r) == true
  {
  }

  predicate ExitStep(a: Action) { a.AdoptOne? || a.WakeTheInit? || a.WakeTheParent? }

  lemma ZombieByExit(s: State, a: Action, r: nat)
    requires Enabled(s, a) && ExitStep(a) && r < |s.procs| && Ordered(s, a) && ZombieOK(s, r) && ParentOK(s, r)
    ensures r < |Do(s, a).procs| && ZombieOK(Do(s, a), r) == true
  {
  }

  lemma ZombieByPair(s: State, a: Action, r: nat)
    requires Enabled(s, a) && PairStep(a) && !ForkStep(a) && !ExitStep(a)
    requires r < |s.procs| && Ordered(s, a) && ZombieOK(s, r) && ParentOK(s, r)
    ensures r < |Do(s, a).procs| && ZombieOK(Do(s, a), r) == true
  {
  }

  lemma ZombieByOne(s: State, a: Action, r: nat)
    requires Enabled(s, a) && !SchedulerStep(a) && !PairStep(a) && r < |s.procs| && Ordered(s, a) && ZombieOK(s, r)
            && ScanOK(s, Actor(a), r) && ParentOK(s, r)
    ensures r < |Do(s, a).procs| && ZombieOK(Do(s, a), r) == true
  {
  }

  lemma DieByOne(s: State, a: Action, r: nat)
    requires Enabled(s, a) && !SchedulerStep(a) && !PairStep(a) && r < |s.procs| && Ordered(s, a) && DieOK(s, r)
            && ParentOK(s, r)
    requires HoldsWait(s.procs[r].pc) <==> s.waitLock == r
    ensures r < |Do(s, a).procs| && DieOK(Do(s, a), r) == true
  {
  }

  lemma DieByPair(s: State, a: Action, r: nat)
    requires Enabled(s, a) && PairStep(a) && r < |s.procs| && Ordered(s, a) && DieOK(s, r) && ParentOK(s, r)
    requires HoldsWait(s.procs[r].pc) <==> s.waitLock == r
    ensures r < |Do(s, a).procs| && DieOK(Do(s, a), r) == true
  {
  }

  lemma ScanByThread(s: State, a: Action, r: nat, i: nat)
    requires Enabled(s, a) && !SchedulerStep(a) && r < |s.procs| && i < |s.procs| && Ordered(s, a) && ScanOK(s, r, i)
    requires HoldsWait(s.procs[r].pc) <==> s.waitLock == r
    ensures r < |Do(s, a).procs| == |s.procs| && ScanOK(Do(s, a), r, i) == true
  {
  }

  // ------------------------------------------------------------------------------ pids

  lemma PidsByScheduler(s: State, a: Action)
    requires Pids(s) && Enabled(s, a) && SchedulerStep(a)
    ensures Pids(Do(s, a))
  {
    SchedulerFrame(s, a);
    hide Do, Enabled;
  }

  lemma PidsByThread(s: State, a: Action)
    requires Pids(s) && Threads(s) && Forks(s) && Parents(s) && Enabled(s, a) && !SchedulerStep(a)
    ensures Pids(Do(s, a))
  {
    ThreadFrame(s, a);
    var t, p, q := Do(s, a), Actor(a), Other(s, a);
    assert ThreadOK(s.procs[p], CpuOf(s, p)) && ThreadOK(s.procs[q], CpuOf(s, q));
    if a.StartChild? || a.SetParent? { ChildOf(s, p); }
    if a.NewChild? || a.NoChild? {
      assert s.procs[INIT].pid < s.nextpid;
      PidsByFork(s, a);
    } else if a.ScanOne? {
      PidsByScan(s, a);
    } else {
      PidsChange(s, a);
      SamePids(s, t);
    }
  }

  /** Pids change only when a child is made and when one is reaped. */
  lemma PidsChange(s: State, a: Action)
    requires Enabled(s, a) && !SchedulerStep(a) && Settled(s, a)
    ensures var t := Do(s, a);
            && |t.procs| == |s.procs|
            && (!a.NewChild? && !a.NoChild? && !a.ScanOne? ==>
                  t.nextpid == s.nextpid && t.reaped == s.reaped
                          && (forall r: nat :: r < |s.procs| ==> SamePid(s, t, r)))
  {
    if PairStep(a) { PidsSameByPair(s, a); } else { PidsSameByOne(s, a); }
  }

  predicate SamePid(s: State, t: State, r: nat)
    requires r < |s.procs| == |t.procs|
  {
    t.procs[r].pid == s.procs[r].pid && (t.procs[r].state == UNUSED <==> s.procs[r].state == UNUSED)
  }

  lemma PidsSameByOne(s: State, a: Action)
    requires Enabled(s, a) && !SchedulerStep(a) && !PairStep(a) && Settled(s, a)
    ensures var t := Do(s, a);
            !a.NoChild? ==>
              t.nextpid == s.nextpid && t.reaped == s.reaped && (forall r: nat :: r < |s.procs| ==> SamePid(s, t, r))
  {
  }

  lemma PidsSameByPair(s: State, a: Action)
    requires Enabled(s, a) && PairStep(a) && Settled(s, a)
    ensures var t := Do(s, a);
            !a.NewChild? && !a.ScanOne? ==>
              t.nextpid == s.nextpid && t.reaped == s.reaped && (forall r: nat :: r < |s.procs| ==> SamePid(s, t, r))
  {
  }

  lemma SamePids(s: State, t: State)
    requires Pids(s) && |t.procs| == |s.procs| && t.nextpid == s.nextpid && t.reaped == s.reaped
    requires forall r: nat :: r < |s.procs| ==> SamePid(s, t, r)
    ensures Pids(t)
  {
    forall r | 0 <= r < |t.procs| ensures t.procs[r].pid == s.procs[r].pid
            && (t.procs[r].state != UNUSED ==> s.procs[r].state != UNUSED) {
      assert SamePid(s, t, r);
    }
  }

  lemma PidsByScan(s: State, a: Action)
    requires Pids(s) && Enabled(s, a) && a.ScanOne? && Settled(s, a)
    ensures Pids(Do(s, a))
  {
    var t, i := Do(s, a), s.procs[a.p].pc.i;
    if t.reaped != s.reaped {
      PidReaped(s, t, i);
    } else {
      forall r: nat | r < |s.procs| ensures SamePid(s, t, r) { }
      SamePids(s, t);
    }
  }

  lemma PidsByFork(s: State, a: Action)
    requires Pids(s) && Enabled(s, a) && (a.NewChild? || a.NoChild?) && Settled(s, a) && s.nextpid > 0
    ensures Pids(Do(s, a))
  {
    PidGiven(s, Do(s, a), a.np);
  }

  lemma PidGiven(s: State, t: State, np: nat)
    requires Pids(s) && np < |s.procs| == |t.procs| && t.nextpid == s.nextpid + 1 && t.reaped == s.reaped
    requires t.procs[np].pid == s.nextpid || t.procs[np] == s.procs[np]
    requires forall r :: 0 <= r < |s.procs| && r != np ==>
            t.procs[r].pid == s.procs[r].pid && (t.procs[r].state == UNUSED <==> s.procs[r].state == UNUSED)
    requires s.nextpid > 0
    ensures Pids(t)
  {
  }

  lemma PidReaped(s: State, t: State, i: nat)
    requires Pids(s) && i < |s.procs| == |t.procs| && t.nextpid == s.nextpid && s.procs[i].state == ZOMBIE
    requires t.reaped == s.reaped + [s.procs[i].pid] && t.procs[i].pid == 0 && t.procs[i].state == UNUSED
    requires forall r :: 0 <= r < |s.procs| && r != i ==>
            t.procs[r].pid == s.procs[r].pid && (t.procs[r].state == UNUSED <==> s.procs[r].state == UNUSED)
    ensures Pids(t)
  {
  }

  // ------------------------------------------------------------------------- whole runs

  ghost predicate Inv(s: State) {
    Seats(s) && Threads(s) && WaitLocked(s) && Forks(s) && Parents(s) && Waits(s) && Pids(s)
  }

  lemma StepKeeps(s: State, a: Action)
    requires Inv(s) == true && Enabled(s, a)
    ensures Inv(Do(s, a)) == true
  {
    hide Seats, Threads, WaitLocked, Forks, Parents, Waits, Pids, Enabled, Do;
    if SchedulerStep(a) {
      SchedulerStepKeeps(s, a);
    } else {
      ThreadStepKeepsAll(s, a);
    }
  }

  lemma SchedulerStepKeeps(s: State, a: Action)
    requires Inv(s) == true && Enabled(s, a) && SchedulerStep(a)
    ensures Inv(Do(s, a)) == true
  {
    SchedulerKeeps(s, a);
    WaitLockedByScheduler(s, a);
    ForksByScheduler(s, a);
    ParentsByScheduler(s, a);
    WaitsByScheduler(s, a);
    PidsByScheduler(s, a);
    hide *;
  }

  lemma ThreadStepKeepsAll(s: State, a: Action)
    requires Inv(s) == true && Enabled(s, a) && !SchedulerStep(a)
    ensures Inv(Do(s, a)) == true
  {
    ThreadStepKeeps(s, a);
    WaitLockedByThread(s, a);
    ForksByThread(s, a);
    ParentsByThread(s, a);
    WaitsByThread(s, a);
    PidsByThread(s, a);
    hide *;
  }

  lemma BootInv(s: State)
    requires Boot(s)
    ensures Inv(s) == true
  {
    hide Seats, Threads, WaitLocked, Forks, Parents, Waits, Pids;
    BootThreads(s);
    BootFamily(s);
  }

  lemma BootThreads(s: State)
    requires Boot(s)
    ensures Seats(s) == true && Threads(s) == true && WaitLocked(s) == true && Pids(s) == true
  {
    forall p: nat | p < |s.procs| ensures ThreadOK(s.procs[p], CpuOf(s, p)) { }
  }

  lemma BootFamily(s: State)
    requires Boot(s)
    ensures Forks(s) == true && Parents(s) == true && Waits(s) == true
  {
  }

  lemma {:induction false} EveryRun(s: State, acts: seq<Action>, t: State)
    requires Inv(s) == true && Steps(s, acts, t)
    ensures Inv(t) == true
    decreases |acts|
  {
    hide Inv, Enabled, Do;
    if acts != [] {
      StepKeeps(s, acts[0]);
      EveryRun(Do(s, acts[0]), acts[1..], t);
    }
  }

  /** In every reachable state no process is current on two CPUs, and one whose lock
      is free is RUNNING exactly when it is the current process of a CPU. */
  lemma SingleExecution(s: State, acts: seq<Action>, t: State)
    requires Boot(s) && Steps(s, acts, t)
    ensures forall c, d :: 0 <= c < d < |t.cpus| && !t.cpus[c].Looking? && !t.cpus[d].Looking? ==>
            t.cpus[c].p != t.cpus[d].p
    ensures forall p: nat :: p < |t.procs| && t.procs[p].lock == Free ==>
              (t.procs[p].state == RUNNING <==>
                      exists c :: 0 <= c < |t.cpus| && !t.cpus[c].Looking? && t.cpus[c].p == p)
  {
    BootInv(s);
    EveryRun(s, acts, t);
    forall p: nat | p < |t.procs| && t.procs[p].lock == Free
      ensures t.procs[p].state == RUNNING <==> exists c :: 0 <= c < |t.cpus| && !t.cpus[c].Looking? && t.cpus[c].p == p
    {
      assert ThreadOK(t.procs[p], CpuOf(t, p));
    }
  }

  /** In every reachable state with wait_lock free, no process asleep in wait has a
      zombie child, and every parent is alive. */
  lemma NoZombieForgotten(s: State, acts: seq<Action>, t: State)
    requires Boot(s) && Steps(s, acts, t) && t.waitLock < 0
    ensures forall i: nat :: i < |t.procs| && t.procs[i].parent != -1 ==>
              && 0 <= t.procs[i].parent < |t.procs| && Alive(t.procs[t.procs[i].parent])
              && (t.procs[i].state == ZOMBIE ==> !Committed(t.procs[t.procs[i].parent]))
  {
    BootInv(s);
    EveryRun(s, acts, t);
    forall i: nat | i < |t.procs| && t.procs[i].parent != -1
      ensures 0 <= t.procs[i].parent < |t.procs| && Alive(t.procs[t.procs[i].parent])
      ensures t.procs[i].state == ZOMBIE ==> !Committed(t.procs[t.procs[i].parent])
    {
      assert ParentOK(t, i) && ZombieOK(t, i);
    }
  }

  /** Over every run, wait returns no pid twice. */
  lemma ReapedOnce(s: State, acts: seq<Action>, t: State)
    requires Boot(s) && Steps(s, acts, t)
    ensures forall j, k :: 0 <= j < k < |t.reaped| ==> t.reaped[j] != t.reaped[k]
  {
    BootInv(s);
    EveryRun(s, acts, t);
  }
}
