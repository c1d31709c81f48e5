/** What the calls of kernel/proc.c do, as runs of their own steps: a wakeup or a kill
    gets its target to run, fork makes a child, exit hands its children over and wakes
    its parent, wait reaps a zombie, gives up, or goes to sleep. */
module ProcCalls {
  import opened Proc
  import opened ProcWait

  lemma {:induction false} StepsThen(s: State, acts: seq<Action>, t: State, a: Action)
    requires Steps(s, acts, t) == true && Enabled(t, a) == true
    ensures Steps(s, acts + [a], Do(t, a)) == true
    decreases |acts|
  {
    if acts == [] {
      assert acts + [a] == [a] && [a][1..] == [];
    } else {
      StepsThen(Do(s, acts[0]), acts[1..], t, a);
      assert (acts + [a])[1..] == acts[1..] + [a];
    }
  }

  lemma NoSteps(s: State)
    ensures Steps(s, [], s) == true
  {
  }

  /** Slot `p` of the table is `x`, and nothing else has changed but what `t` says of
      the CPUs and of wait_lock. */
  predicate OnlySlot(s: State, t: State, p: nat, x: Proc) {
    p < |s.procs| && t == s.(procs := s.procs[p := x], cpus := t.cpus, waitLock := t.waitLock)
  }

  // ---------------------------------------------------------------- giving up a CPU, and taking one

  /** A running process that holds no lock gives its CPU up. */
  lemma Yields(s: State, p: nat) returns (acts: seq<Action>, t: State)
    requires Running(s, p) && Resting(s.procs[p].pc) && Unlocked(s, p)
    ensures acts == [Yield(p), Swtch(p), Leave(s.procs[p].on)] && Steps(s, acts, t) == true
    ensures var x := s.procs[p];
            && OnlySlot(s, t, p, x.(state := RUNNABLE, pc := Out(x.pc), on := -1))
            && t.cpus == s.cpus[x.on := Looking] && t.waitLock == s.waitLock
  {
    hide Steps;
    var c := s.procs[p].on;
    var s1 := Do(s, Yield(p));
    var s2 := Do(s1, Swtch(p));
    NoSteps(s);
    StepsThen(s, [], s, Yield(p));
    StepsThen(s, [] + [Yield(p)], s1, Swtch(p));
    StepsThen(s, [] + [Yield(p)] + [Swtch(p)], s2, Leave(c));
    acts, t := [] + [Yield(p)] + [Swtch(p)] + [Leave(c)], Do(s2, Leave(c));
  }

  /** A CPU looking for work takes up any runnable process whose lock is free, which
      goes on where it left off. */
  lemma TakesUp(s: State, c: nat, q: nat) returns (acts: seq<Action>, t: State)
    requires c < |s.cpus| && s.cpus[c] == Looking && Unlocked(s, q)
    requires s.procs[q].state == RUNNABLE && s.procs[q].pc.Out?
    ensures acts == [Pick(c, q), Enter(c), Release(q)] && Steps(s, acts, t) == true
    ensures Running(t, q) && t.cpus == s.cpus[c := In(q)] && t.waitLock == s.waitLock
    ensures var x := s.procs[q];
            OnlySlot(s, t, q, x.(state := RUNNING, chan := NoChan, lock := Free, on := c, pc := x.pc.next))
  {
    hide Steps;
    var s1 := Do(s, Pick(c, q));
    var s2 := Do(s1, Enter(c));
    NoSteps(s);
    StepsThen(s, [], s, Pick(c, q));
    StepsThen(s, [] + [Pick(c, q)], s1, Enter(c));
    StepsThen(s, [] + [Pick(c, q)] + [Enter(c)], s2, Release(q));
    acts, t := [] + [Pick(c, q)] + [Enter(c)] + [Release(q)], Do(s2, Release(q));
  }

  lemma {:induction false} StepsJoin(s0: State, acts: seq<Action>, s: State, more: seq<Action>, t: State)
    requires Steps(s0, acts, s) == true && Steps(s, more, t) == true
    ensures Steps(s0, acts + more, t) == true
    decreases |acts|
  {
    hide Do, Enabled;
    if acts == [] {
      assert acts + more == more;
    } else {
      StepsJoin(Do(s0, acts[0]), acts[1..], s, more, t);
      assert (acts + more)[1..] == acts[1..] + more;
    }
  }

  // ------------------------------------------------------------------- wakeup and kill

  /** What is known of any process whose lock is free. */
  lemma AsleepIsOut(s: State, q: nat)
    requires Inv(s) == true && Unlocked(s, q) && (s.procs[q].state == SLEEPING || s.procs[q].state == RUNNABLE)
    ensures s.procs[q].on < 0 && s.procs[q].pc.Out? && Resting(s.procs[q].pc.next)
  {
    assert ThreadOK(s.procs[q], CpuOf(s, q));
    hide WaitLocked, Forks, Parents, Waits, Pids;
  }

  lemma RunningIsUnlocked(s: State, p: nat)
    requires Inv(s) == true && Running(s, p) && !HoldsOwn(s.procs[p].pc)
    ensures Unlocked(s, p) && s.procs[p].state == RUNNING
  {
    assert ThreadOK(s.procs[p], CpuOf(s, p));
    hide WaitLocked, Forks, Parents, Waits, Pids;
  }

  /** kill marks its target and, if that sleeps, makes it runnable; wakeup makes its
      target runnable. Nothing else changes. */
  lemma WakesItsTarget(s: State, a: Action)
    requires Enabled(s, a) && (a.Kill? || a.Wake?)
    ensures var t, q := Do(s, a), a.q; var x := s.procs[q];
            && q < |s.procs| && t.procs[q].state != SLEEPING
            && t == s.(procs := s.procs[q := x.(killed := x.killed || a.Kill?,
                                                state := if x.state == SLEEPING then RUNNABLE else x.state)])
  {
  }

  /** In every reachable state: after a wakeup or a kill of a sleeping process there is a
      run in which the CPU of whoever did it takes that process up, and it is back in
      the code that went to sleep. */
  lemma TargetRuns(s0: State, acts0: seq<Action>, s: State, a: Action) returns (acts: seq<Action>, t: State)
    requires Boot(s0) == true && Steps(s0, acts0, s) == true && Enabled(s, a)
            && (a.Kill? || a.Wake?) && s.procs[a.q].state == SLEEPING
    ensures Steps(s, [a] + acts, t) == true && Running(t, a.q) && s.procs[a.q].pc.Out?
    ensures var x := s.procs[a.q];
            t.procs[a.q] == x.(state := RUNNING, chan := NoChan, on := s.procs[a.p].on, pc := x.pc.next,
                               killed := x.killed || a.Kill?)
  {
    hide Inv, Steps, Boot;
    BootInv(s0);
    EveryRun(s0, acts0, s);
    AsleepIsOut(s, a.q);
    RunningIsUnlocked(s, a.p);
    WakesItsTarget(s, a);
    var s1 := Do(s, a);
    NoSteps(s);
    StepsThen(s, [], s, a);
    hide Do, Enabled;
    var give, u := Yields(s1, a.p);
    StepsJoin(s, [] + [a], s1, give, u);
    var take;
    take, t := TakesUp(u, s.procs[a.p].on, a.q);
    StepsJoin(s, [] + [a] + give, u, take, t);
    acts := give + take;
    assert [] + [a] + give + take == [a] + acts;
  }

  /** sleep: the process is off its CPU, asleep on `n`, and any thread that runs
      can wake it. */
  lemma Sleeps(s: State, p: nat, n: nat) returns (acts: seq<Action>, t: State)
    requires Running(s, p) && s.procs[p].pc == Run && Unlocked(s, p)
    ensures acts == [Sleep(p, n), Swtch(p), Leave(s.procs[p].on)] && Steps(s, acts, t) == true
    ensures var x := s.procs[p];
            && OnlySlot(s, t, p, x.(state := SLEEPING, chan := Obj(n), pc := Out(Run), on := -1))
            && t.cpus == s.cpus[x.on := Looking] && t.waitLock == s.waitLock
    ensures forall r: nat :: Running(t, r) && t.procs[r].pc == Run ==> Enabled(t, Wake(r, p, n))
  {
    hide Steps;
    var c := s.procs[p].on;
    var s1 := Do(s, Sleep(p, n));
    var s2 := Do(s1, Swtch(p));
    NoSteps(s);
    StepsThen(s, [], s, Sleep(p, n));
    StepsThen(s, [] + [Sleep(p, n)], s1, Swtch(p));
    StepsThen(s, [] + [Sleep(p, n)] + [Swtch(p)], s2, Leave(c));
    acts, t := [] + [Sleep(p, n)] + [Swtch(p)] + [Leave(c)], Do(s2, Leave(c));
  }

  // ------------------------------------------------------------------------------ fork

  /** fork: a free slot becomes a runnable child of the caller with the next pid, which
      will start where fork returns; nothing else changes. */
  lemma Fork(s: State, p: nat, np: nat) returns (acts: seq<Action>, t: State)
    requires Running(s, p) && s.procs[p].pc == Run && s.waitLock < 0 && p != np
    requires Unlocked(s, np) && s.procs[np].state == UNUSED
    ensures acts == [NewChild(p, np), SetParent(p), StartChild(p)] && Steps(s, acts, t) == true
    ensures t == s.(procs := s.procs[np := s.procs[np].(state := RUNNABLE, pid := s.nextpid, parent := p,
                                                        pc := Out(Run), maker := -1)],
                    nextpid := s.nextpid + 1)
  {
    hide Steps;
    var s1 := Do(s, NewChild(p, np));
    var s2 := Do(s1, SetParent(p));
    NoSteps(s);
    StepsThen(s, [], s, NewChild(p, np));
    StepsThen(s, [] + [NewChild(p, np)], s1, SetParent(p));
    StepsThen(s, [] + [NewChild(p, np)] + [SetParent(p)], s2, StartChild(p));
    acts, t := [] + [NewChild(p, np)] + [SetParent(p)] + [StartChild(p)], Do(s2, StartChild(p));
  }

  // ------------------------------------------------------------------------------ exit

  ghost predicate ChildBelow(s: State, p: nat, i: nat) {
    exists j: nat :: j < i && j < |s.procs| && s.procs[j].parent == p
  }

  /** Process `j` once exit of `p` has been through the slots below `i`: its parent is
      init if it was `p`; init itself is awake if anything has been handed to it. */
  ghost function HandedOn(s: State, p: nat, i: nat, j: nat): Proc
    requires j < |s.procs|
  {
    var x := s.procs[j];
    x.(parent := if x.parent == p && j < i then INIT else x.parent,
       state := if j == INIT && ChildBelow(s, p, i) && x.state == SLEEPING && x.chan == Addr(INIT) then RUNNABLE
                else x.state)
  }

  /** exit of `p`, begun in `s`, stands in `u` before slot `i`. */
  ghost predicate AtAdopt(s: State, u: State, p: nat, i: nat) {
    && p < |s.procs| && i <= |s.procs| == |u.procs| && p != INIT
    && u == s.(procs := u.procs, waitLock := p) && u.procs[p] == s.procs[p].(pc := Adopt(i))
    && (forall j: nat :: j < |s.procs| && j != p ==> u.procs[j] == HandedOn(s, p, i, j))
  }

  lemma ChildBelowNext(s: State, p: nat, i: nat)
    requires i < |s.procs|
    ensures ChildBelow(s, p, i + 1) <==> ChildBelow(s, p, i) || s.procs[i].parent == p
    ensures !ChildBelow(s, p, 0)
  {
  }

  lemma AdoptsNext(s0: State, acts: seq<Action>, s: State, u: State, p: nat, i: nat)
    returns (more: seq<Action>, t: State)
    requires Steps(s0, acts, u) == true && AtAdopt(s, u, p, i) && i < |s.procs| && Running(s, p)
    requires Unlocked(s, INIT) && s.procs[p].parent != p && s.procs[INIT].parent != p
    ensures Steps(s0, more, t) == true && AtAdopt(s, t, p, i + 1)
  {
    hide Steps;
    ChildBelowNext(s, p, i);
    StepsThen(s0, acts, u, AdoptOne(p));
    var u1 := Do(u, AdoptOne(p));
    more, t := acts + [AdoptOne(p)], u1;
    if i != p && s.procs[i].parent == p {
      hide ChildBelow;
      StepsThen(s0, more, u1, WakeTheInit(p));
      more, t := more + [WakeTheInit(p)], Do(u1, WakeTheInit(p));
    }
  }

  lemma {:induction false} AdoptsAll(s0: State, acts: seq<Action>, s: State, u: State, p: nat, i: nat)
    returns (more: seq<Action>, t: State)
    requires Steps(s0, acts, u) == true && AtAdopt(s, u, p, i) == true && Running(s, p)
    requires Unlocked(s, INIT) && s.procs[p].parent != p && s.procs[INIT].parent != p
    ensures Steps(s0, more, t) == true && AtAdopt(s, t, p, |s.procs|) == true
    decreases |s.procs| - i
  {
    if i == |s.procs| {
      more, t := acts, u;
    } else {
      more, t := AdoptsNext(s0, acts, s, u, p, i);
      hide AtAdopt, Steps;
      more, t := AdoptsAll(s0, more, s, t, p, i + 1);
    }
  }

  /** What exit of `p` has made of process `j`: a child of `p` is init's; whoever waits
      for a child on its own address is runnable if it is the parent of `p`, or init and
      something has been handed to it. */
  ghost function LeftBehind(s: State, p: nat, j: nat): Proc
    requires p < |s.procs| && j < |s.procs|
  {
    var x := s.procs[j];
    x.(parent := if x.parent == p then INIT else x.parent,
       state := if && x.state == SLEEPING && x.chan == Addr(j)
                   && (j == s.procs[p].parent || (j == INIT && ChildBelow(s, p, |s.procs|)))
                then RUNNABLE else x.state)
  }

  /** exit of `p` is over: it is a zombie, off its CPU for ever. */
  ghost predicate Exited(s: State, t: State, p: nat) {
    && p < |s.procs| == |t.procs| && 0 <= s.procs[p].on < |s.cpus|
    && t == s.(procs := t.procs, cpus := s.cpus[s.procs[p].on := Looking], waitLock := -1)
    && t.procs[p] == s.procs[p].(state := ZOMBIE, lock := Free, pc := Dead, on := -1)
    && (forall j: nat :: j < |s.procs| && j != p ==> t.procs[j] == LeftBehind(s, p, j))
  }

  lemma ExitEnds(s0: State, acts: seq<Action>, s: State, u: State, p: nat) returns (more: seq<Action>, t: State)
    requires Steps(s0, acts, u) == true && AtAdopt(s, u, p, |s.procs|) && Running(s, p) && Unlocked(s, p)
    requires s.procs[p].parent == -1 || (s.procs[p].parent != p && Unlocked(s, s.procs[p].parent))
    ensures Steps(s0, more, t) == true && Exited(s, t, p) == true
  {
    hide Steps, ChildBelow;
    var c := s.procs[p].on;
    var u1 := Do(u, AdoptOne(p));
    StepsThen(s0, acts, u, AdoptOne(p));
    var u2 := Do(u1, WakeTheParent(p));
    StepsThen(s0, acts + [AdoptOne(p)], u1, WakeTheParent(p));
    more := acts + [AdoptOne(p)] + [WakeTheParent(p)];
    more, t := Dies(s0, more, u2, p);
  }

  lemma Dies(s0: State, acts: seq<Action>, u: State, p: nat) returns (more: seq<Action>, t: State)
    requires Steps(s0, acts, u) == true && Running(u, p) && Unlocked(u, p) && u.procs[p].pc == Die
    ensures Steps(s0, more, t) == true
    ensures var x := u.procs[p];
            && OnlySlot(u, t, p, x.(state := ZOMBIE, pc := Dead, on := -1))
            && t.cpus == u.cpus[x.on := Looking] && t.waitLock == -1
  {
    hide Steps;
    var c := u.procs[p].on;
    var u1 := Do(u, BecomeZombie(p));
    StepsThen(s0, acts, u, BecomeZombie(p));
    var u2 := Do(u1, Swtch(p));
    StepsThen(s0, acts + [BecomeZombie(p)], u1, Swtch(p));
    StepsThen(s0, acts + [BecomeZombie(p)] + [Swtch(p)], u2, Leave(c));
    more, t := acts + [BecomeZombie(p)] + [Swtch(p)] + [Leave(c)], Do(u2, Leave(c));
  }

  /** exit, from any reachable state in which the locks it takes are free. */
  lemma Exit(s0: State, acts0: seq<Action>, s: State, p: nat) returns (acts: seq<Action>, t: State)
    requires Boot(s0) == true && Steps(s0, acts0, s) == true && Running(s, p) && s.procs[p].pc == Run
    requires p != INIT && s.waitLock < 0
    requires Unlocked(s, INIT) && (s.procs[p].parent == -1 || Unlocked(s, s.procs[p].parent))
    ensures Steps(s, acts, t) == true && Exited(s, t, p) == true
  {
    hide Inv, Steps, Boot;
    BootInv(s0);
    EveryRun(s0, acts0, s);
    FamilyFacts(s, p);
    RunningIsUnlocked(s, p);
    NoSteps(s);
    StepsThen(s, [], s, BeginExit(p));
    var u := Do(s, BeginExit(p));
    ExitBegins(s, p);
    hide AtAdopt, Exited, Do, Enabled;
    acts, u := AdoptsAll(s, [] + [BeginExit(p)], s, u, p, 0);
    acts, t := ExitEnds(s, acts, s, u, p);
  }

  lemma ExitBegins(s: State, p: nat)
    requires Enabled(s, BeginExit(p))
    ensures AtAdopt(s, Do(s, BeginExit(p)), p, 0) == true
  {
    assert !ChildBelow(s, p, 0);
  }

  lemma FamilyFacts(s: State, p: nat)
    requires Inv(s) == true && p < |s.procs|
    ensures INIT < |s.procs| && s.procs[INIT].parent == -1 && s.procs[p].parent != p
  {
    assert ParentOK(s, p);
    hide Seats, Threads, WaitLocked, Forks, Waits, Pids;
  }

  // ------------------------------------------------------------------------------ wait

  /** wait of `p`, begun in `s`, stands in `u` before slot `i`, having seen a child or not. */
  ghost predicate AtScan(s: State, u: State, p: nat, i: nat) {
    && p < |s.procs| && i <= |s.procs|
    && u == s.(procs := s.procs[p := s.procs[p].(pc := Scan(i, ChildBelow(s, p, i)))], waitLock := p)
  }

  /** The children of `p` below `i` can be looked at, and none is a zombie. */
  ghost predicate NoneToReap(s: State, p: nat, i: nat) {
    forall j: nat :: j < i && j < |s.procs| && s.procs[j].parent == p ==> Unlocked(s, j) && s.procs[j].state != ZOMBIE
  }

  predicate CanWait(s: State, p: nat) {
    Running(s, p) && (s.procs[p].pc == Run || s.procs[p].pc == WantWait) && s.waitLock < 0 && s.procs[p].parent != p
  }

  lemma {:induction false} ScansTo(s: State, p: nat, i: nat) returns (acts: seq<Action>, u: State)
    requires CanWait(s, p) && i <= |s.procs| && NoneToReap(s, p, i)
    ensures Steps(s, acts, u) == true && AtScan(s, u, p, i) == true
  {
    hide Steps;
    if i == 0 {
      NoSteps(s);
      StepsThen(s, [], s, TakeWait(p));
      acts, u := [] + [TakeWait(p)], Do(s, TakeWait(p));
      assert !ChildBelow(s, p, 0);
    } else {
      acts, u := ScansTo(s, p, i - 1);
      acts, u := ScansOne(s, acts, u, p, i - 1);
    }
  }

  lemma ScansOne(s: State, acts: seq<Action>, u: State, p: nat, i: nat) returns (more: seq<Action>, t: State)
    requires CanWait(s, p) && i < |s.procs| && NoneToReap(s, p, i + 1)
            && Steps(s, acts, u) == true && AtScan(s, u, p, i)
    ensures Steps(s, more, t) == true && AtScan(s, t, p, i + 1) == true
  {
    hide Steps;
    ChildBelowNext(s, p, i);
    hide ChildBelow;
    StepsThen(s, acts, u, ScanOne(p, false));
    more, t := acts + [ScanOne(p, false)], Do(u, ScanOne(p, false));
  }

  /** wait with a zombie child, the first of them at `i`: its pid is returned, or, if it
      cannot be copied out, nothing has happened. */
  lemma WaitReaps(s: State, p: nat, i: nat, fault: bool) returns (acts: seq<Action>, t: State)
    requires CanWait(s, p) && i < |s.procs| && NoneToReap(s, p, i)
    requires s.procs[i].parent == p && s.procs[i].state == ZOMBIE && Unlocked(s, i)
    ensures Steps(s, acts, t) == true
    ensures var x := s.procs[i];
            t == s.(procs := if fault then s.procs[p := s.procs[p].(pc := Run)]
                             else s.procs[p := s.procs[p].(pc := Run)]
                                         [i := Proc(UNUSED, NoChan, false, -1, 0, Free, NoThread, x.on, -1)],
                    waitLock := -1, reaped := if fault then s.reaped else s.reaped + [x.pid])
  {
    var u;
    acts, u := ScansTo(s, p, i);
    hide Steps, NoneToReap, ChildBelow;
    StepsThen(s, acts, u, ScanOne(p, fault));
    acts, t := acts + [ScanOne(p, fault)], Do(u, ScanOne(p, fault));
  }

  /** wait without children, or killed with none to reap: it returns -1 and nothing else
      has changed. */
  lemma WaitGivesUp(s: State, p: nat) returns (acts: seq<Action>, t: State)
    requires CanWait(s, p) && NoneToReap(s, p, |s.procs|)
    requires s.procs[p].killed || forall j: nat :: j < |s.procs| ==> s.procs[j].parent != p
    ensures Steps(s, acts, t) == true && t == s.(procs := s.procs[p := s.procs[p].(pc := Run)], waitLock := -1)
  {
    var u;
    acts, u := ScansTo(s, p, |s.procs|);
    hide Steps, NoneToReap;
    StepsThen(s, acts, u, GiveUp(p));
    acts, t := acts + [GiveUp(p)], Do(u, GiveUp(p));
  }

  /** wait with children of which none is a zombie: it sleeps on its own address, having
      let go of wait_lock and its CPU. */
  lemma WaitSleeps(s: State, p: nat, k: nat) returns (acts: seq<Action>, t: State)
    requires CanWait(s, p) && NoneToReap(s, p, |s.procs|) && Unlocked(s, p) && !s.procs[p].killed
    requires k < |s.procs| && s.procs[k].parent == p
    ensures Steps(s, acts, t) == true
    ensures var x := s.procs[p];
            && OnlySlot(s, t, p, x.(state := SLEEPING, chan := Addr(p), pc := Out(WantWait), on := -1))
            && t.cpus == s.cpus[x.on := Looking] && t.waitLock == -1
  {
    var u;
    acts, u := ScansTo(s, p, |s.procs|);
    assert ChildBelow(s, p, |s.procs|);
    hide Steps, NoneToReap, ChildBelow;
    acts, t := FallsAsleep(s, acts, u, p);
  }

  lemma FallsAsleep(s0: State, acts: seq<Action>, u: State, p: nat) returns (more: seq<Action>, t: State)
    requires Steps(s0, acts, u) == true && Running(u, p) && Unlocked(u, p) && !u.procs[p].killed
    requires u.procs[p].pc == Scan(|u.procs|, true)
    ensures Steps(s0, more, t) == true
    ensures var x := u.procs[p];
            && OnlySlot(u, t, p, x.(state := SLEEPING, chan := Addr(p), pc := Out(WantWait), on := -1))
            && t.cpus == u.cpus[x.on := Looking] && t.waitLock == -1
  {
    hide Steps;
    var c := u.procs[p].on;
    var u1 := Do(u, Commit(p));
    StepsThen(s0, acts, u, Commit(p));
    var u2 := Do(u1, GoToSleep(p));
    StepsThen(s0, acts + [Commit(p)], u1, GoToSleep(p));
    var u3 := Do(u2, Swtch(p));
    StepsThen(s0, acts + [Commit(p)] + [GoToSleep(p)], u2, Swtch(p));
    StepsThen(s0, acts + [Commit(p)] + [GoToSleep(p)] + [Swtch(p)], u3, Leave(c));
    more, t := acts + [Commit(p)] + [GoToSleep(p)] + [Swtch(p)] + [Leave(c)], Do(u3, Leave(c));
  }

  /** exit meets wait. In every reachable state: if the parent of `p` sleeps in wait and
      has nothing to reap in the slots before it, then exit of `p` lets a run begin in
      which the parent wakes up on the same CPU and wait returns the pid of `p`. */
  lemma WaitMeetsExit(s0: State, acts0: seq<Action>, s: State, p: nat, q: nat) returns (acts: seq<Action>, t: State)
    requires Boot(s0) == true && Steps(s0, acts0, s) == true && Running(s, p) && s.procs[p].pc == Run
    requires p != INIT && s.waitLock < 0 && Unlocked(s, INIT) && q == s.procs[p].parent && q != INIT && Unlocked(s, q)
    requires s.procs[q].state == SLEEPING && s.procs[q].chan == Addr(q) && s.procs[q].pc == Out(WantWait)
    requires NoneToReap(s, q, p)
    ensures Steps(s, acts, t) == true && t.reaped == s.reaped + [s.procs[p].pid] && |t.procs| == |s.procs|
    ensures Running(t, q) && t.procs[q].pc == Run && t.procs[p].state == UNUSED
  {
    hide Inv, Steps, Boot, Do, Enabled, Exited, NoneToReap;
    BootInv(s0);
    EveryRun(s0, acts0, s);
    FamilyFacts(s, q);
    FamilyFacts(s, p);
    var u, v, more;
    acts, u := Exit(s0, acts0, s, p);
    ParentFreed(s, u, p, q);
    more, v := TakesUp(u, s.procs[p].on, q);
    StepsJoin(s, acts, u, more, v);
    acts := acts + more;
    StillNoneToReap(u, v, q, p);
    more, t := WaitReaps(v, q, p, false);
    StepsJoin(s, acts, v, more, t);
    acts := acts + more;
  }

  lemma ParentFreed(s: State, u: State, p: nat, q: nat)
    requires Exited(s, u, p) == true && q < |s.procs| && q == s.procs[p].parent && q != p && q != INIT
    requires s.procs[q].state == SLEEPING && s.procs[q].chan == Addr(q) && NoneToReap(s, q, p) == true
    requires s.procs[q].parent != q && Unlocked(s, q)
    ensures |u.procs| == |s.procs| && |u.cpus| == |s.cpus| && 0 <= s.procs[p].on < |s.cpus|
    ensures u.cpus[s.procs[p].on] == Looking && u.waitLock == -1 && u.reaped == s.reaped
    ensures u.procs[q].state == RUNNABLE && Unlocked(u, q) && u.procs[q].pc == s.procs[q].pc && u.procs[q].parent != q
    ensures u.procs[p].state == ZOMBIE && u.procs[p].parent == q && Unlocked(u, p) && u.procs[p].pid == s.procs[p].pid
    ensures NoneToReap(u, q, p) == true
  {
    hide ChildBelow;
    forall j: nat | j < p && u.procs[j].parent == q ensures Unlocked(u, j) && u.procs[j].state != ZOMBIE {
      assert s.procs[j].parent == q;
    }
  }

  lemma StillNoneToReap(u: State, v: State, q: nat, i: nat)
    requires NoneToReap(u, q, i) == true && q < |u.procs| == |v.procs| && v.procs == u.procs[q := v.procs[q]]
    requires v.procs[q].parent != q
    ensures NoneToReap(v, q, i) == true
  {
  }

  // ------------------------------------------------- what wait knows when it gives up or sleeps

  /** `havekids` tells whether a child has been seen among the slots passed. */
  ghost predicate KidsOK(s: State, p: nat)
    requires p < |s.procs|
  {
    var pc := s.procs[p].pc;
    pc.Scan? ==> pc.i <= |s.procs| && (pc.kids <==> ChildBelow(s, p, pc.i))
  }

  ghost predicate Kids(s: State) { forall p: nat :: p < |s.procs| ==> KidsOK(s, p) }

  ghost predicate SameParents(s: State, t: State) {
    |s.procs| == |t.procs| && forall j: nat :: j < |s.procs| ==> t.procs[j].parent == s.procs[j].parent
  }

  lemma ChildBelowSame(s: State, t: State, p: nat, i: nat)
    requires SameParents(s, t) == true
    ensures ChildBelow(t, p, i) <==> ChildBelow(s, p, i)
  {
    if ChildBelow(s, p, i) {
      var j: nat :| j < i && j < |s.procs| && s.procs[j].parent == p;
      assert t.procs[j].parent == p;
    }
    if ChildBelow(t, p, i) {
      var j: nat :| j < i && j < |t.procs| && t.procs[j].parent == p;
      assert s.procs[j].parent == p;
    }
  }

  lemma KidsStay(s: State, t: State, p: nat)
    requires p < |s.procs| == |t.procs| && KidsOK(s, p) == true && SameParents(s, t) == true
    requires t.procs[p].pc.Scan? ==> t.procs[p].pc == s.procs[p].pc
    ensures KidsOK(t, p) == true
  {
    hide SameParents, ChildBelow;
    if t.procs[p].pc.Scan? { ChildBelowSame(s, t, p, t.procs[p].pc.i); }
  }

  lemma KidsByScheduler(s: State, a: Action)
    requires Kids(s) == true && Enabled(s, a) && SchedulerStep(a)
    ensures Kids(Do(s, a)) == true
  {
    SchedulerFrame(s, a);
    var t := Do(s, a);
    hide Do, Enabled, ChildBelow;
    forall p: nat | p < |t.procs| ensures KidsOK(t, p) {
      assert KidsOK(s, p);
      KidsStay(s, t, p);
    }
  }

  /** While one process holds wait_lock no other process's step changes a parent. */
  lemma ParentsStay(s: State, a: Action)
    requires Enabled(s, a) && !SchedulerStep(a) && 0 <= s.waitLock != Actor(a)
    requires !HoldsWait(s.procs[Actor(a)].pc)
    ensures SameParents(s, Do(s, a)) == true
  {
  }

  lemma ScanStays(s: State, a: Action, p: nat)
    requires Enabled(s, a) && !SchedulerStep(a) && p < |s.procs| == |Do(s, a).procs| && p != Actor(a)
    requires a.StartChild? ==> s.procs[p].pc == NoThread || p != s.procs[a.p].pc.np
    ensures Do(s, a).procs[p].pc.Scan? ==> Do(s, a).procs[p].pc == s.procs[p].pc
  {
  }

  lemma KidsByActor(s: State, a: Action)
    requires Enabled(s, a) && !SchedulerStep(a) && KidsOK(s, Actor(a)) && Actor(a) < |Do(s, a).procs| == |s.procs|
    requires s.procs[Actor(a)].parent != Actor(a) && ThreadOK(s.procs[Actor(a)], CpuOf(s, Actor(a)))
    ensures KidsOK(Do(s, a), Actor(a)) == true
  {
    var t, p := Do(s, a), Actor(a);
    if t.procs[p].pc.Scan? {
      if a.ScanOne? {
        ChildBelowNext(s, p, s.procs[p].pc.i);
        ChildBelowSame(s, t, p, s.procs[p].pc.i + 1);
      } else if a.TakeWait? {
        assert !ChildBelow(t, p, 0);
      }
    }
  }

  lemma KidsByThread(s: State, a: Action)
    requires Inv(s) == true && Kids(s) == true && Enabled(s, a) && !SchedulerStep(a)
    ensures Kids(Do(s, a)) == true
  {
    ThreadFrame(s, a);
    var t, p := Do(s, a), Actor(a);
    KidsActorFacts(s, p);
    assert KidsOK(s, p);
    KidsByActor(s, a);
    if a.StartChild? { ChildOf(s, p); }
    forall r: nat | r < |t.procs| ensures KidsOK(t, r) {
      if r != p {
        assert KidsOK(s, r);
        LockFacts(s, r);
        LockFacts(s, p);
        ScanStays(s, a, r);
        hide Inv, Kids, KidsOK;
        if t.procs[r].pc.Scan? {
          ParentsStay(s, a);
          KidsStay(s, t, r);
        } else {
          NotScanning(t, r);
        }
      }
    }
  }

  lemma NotScanning(t: State, r: nat)
    requires r < |t.procs| && !t.procs[r].pc.Scan?
    ensures KidsOK(t, r) == true
  {
  }

  lemma KidsActorFacts(s: State, p: nat)
    requires Inv(s) == true && p < |s.procs|
    ensures s.procs[p].parent != p && ThreadOK(s.procs[p], CpuOf(s, p)) && Forks(s) == true
  {
    assert ParentOK(s, p) && ThreadOK(s.procs[p], CpuOf(s, p));
    hide Seats, WaitLocked, Waits, Pids;
  }

  lemma LockFacts(s: State, p: nat)
    requires Inv(s) == true && p < |s.procs|
    ensures HoldsWait(s.procs[p].pc) <==> s.waitLock == p
  {
    hide Seats, Threads, Forks, Parents, Waits, Pids;
  }

  lemma {:induction false} KidsInRuns(s: State, acts: seq<Action>, t: State)
    requires Inv(s) == true && Kids(s) == true && Steps(s, acts, t) == true
    ensures Kids(t) == true
    decreases |acts|
  {
    hide Inv, Kids, Enabled, Do;
    if acts != [] {
      StepKeeps(s, acts[0]);
      if SchedulerStep(acts[0]) { KidsByScheduler(s, acts[0]); } else { KidsByThread(s, acts[0]); }
      KidsInRuns(Do(s, acts[0]), acts[1..], t);
    }
  }

  /** In every reachable state in which wait has been through the table: it may give up
      exactly if its process is killed or no slot has it for a parent, and may go to
      sleep exactly otherwise. */
  lemma WaitKnows(s0: State, acts: seq<Action>, s: State, p: nat)
    requires Boot(s0) == true && Steps(s0, acts, s) == true && Running(s, p)
    requires s.procs[p].pc.Scan? && s.procs[p].pc.i == |s.procs|
    ensures Enabled(s, GiveUp(p)) <==> s.procs[p].killed || forall j: nat :: j < |s.procs| ==> s.procs[j].parent != p
    ensures Enabled(s, Commit(p)) <==> !s.procs[p].killed && exists j: nat :: j < |s.procs| && s.procs[j].parent == p
  {
    hide Steps, Inv, Boot;
    BootInv(s0);
    BootKids(s0);
    KidsInRuns(s0, acts, s);
    EveryRun(s0, acts, s);
    RunningIsUnlocked(s, p);
    assert KidsOK(s, p);
  }

  lemma BootKids(s: State)
    requires Boot(s) == true
    ensures Kids(s) == true
  {
    forall r: nat | r < |s.procs| ensures KidsOK(s, r) { }
  }
}
