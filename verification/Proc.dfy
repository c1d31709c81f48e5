/** kernel/proc.c as small steps over the process table: each step is a stretch of
    code between lock operations or context switches, by one CPU's scheduler or by
    the kernel thread of one process. Spinlocks give mutual exclusion. */
module Proc {
  const INIT: nat := 0                   // initproc's slot

  datatype PState = UNUSED | USED | SLEEPING | RUNNABLE | RUNNING | ZOMBIE
  datatype Chan = NoChan | Addr(p: nat) | Obj(n: nat)
  datatype Lock = Free | ByProc | ByCpu(c: nat)

  /** Where a process's kernel thread stands. */
  datatype Pc =
    | NoThread                           // slot unused or being set up
    | Run                                // in the kernel or in user space, no lock of ours held
    | ForkAlloc(np: nat)                 // fork: np allocated, its lock released
    | ForkParent(np: nat)                // fork: np->parent set
    | WantWait                           // wait: about to take wait_lock again
    | Scan(i: nat, kids: bool)           // wait: at slot i, wait_lock held
    | WaitSleeping                       // wait: in sleep(), own lock taken, wait_lock released
    | Adopt(i: nat)                      // exit: reparent at slot i, wait_lock held
    | WakeInit(i: nat)                   // exit: slot i handed to init, which is to be woken
    | WakeParent                         // exit: children handed over
    | Die                                // exit: parent woken
    | Dead                               // exit: switched away for ever
    | Leaving(next: Pc)                  // own lock held, state changed, about to swtch
    | Out(next: Pc)                      // switched out
    | Resumed(next: Pc)                  // switched in, own lock still held

  datatype Proc = Proc(state: PState, chan: Chan, killed: bool, parent: int, pid: nat, lock: Lock, pc: Pc,
                       on: int,          // the CPU whose c->proc this is, or -1
                       maker: int)       // the process forking this one, or -1

  datatype Cpu = Looking | Chosen(p: nat) | In(p: nat) | Back(p: nat)

  datatype State = State(procs: seq<Proc>, cpus: seq<Cpu>, waitLock: int, nextpid: nat,
                         reaped: seq<nat>)    // pids returned by wait, oldest first

  datatype Action =
    | Pick(c: nat, p: nat) | Enter(c: nat) | Leave(c: nat)
    | Release(p: nat) | Swtch(p: nat) | Yield(p: nat) | Sleep(p: nat, n: nat) | Wake(p: nat, q: nat,
            n: nat) | Kill(p: nat, q: nat)
    | NewChild(p: nat, np: nat) | NoChild(p: nat, np: nat) | SetParent(p: nat) | StartChild(p: nat)
    | TakeWait(p: nat) | ScanOne(p: nat, fault: bool) | GiveUp(p: nat) | Commit(p: nat) | GoToSleep(p: nat)
    | BeginExit(p: nat) | AdoptOne(p: nat) | WakeTheInit(p: nat) | WakeTheParent(p: nat) | BecomeZombie(p: nat)

  /** Points at which a thread may be preempted. */
  predicate Resting(pc: Pc) { pc.Run? || pc.ForkAlloc? || pc.ForkParent? || pc.WantWait? }

  predicate Active(pc: Pc) { !pc.NoThread? && !pc.Dead? && !pc.Out? }

  predicate HoldsOwn(pc: Pc) { pc.Resumed? || pc.Leaving? || pc.WaitSleeping? }

  predicate HoldsWait(pc: Pc) { pc.Scan? || pc.Adopt? || pc.WakeInit? || pc.WakeParent? || pc.Die? }

  function Core(pc: Pc): Pc { if pc.Leaving? || pc.Out? || pc.Resumed? then pc.next else pc }

  // ---------------------------------------------------------------------------- steps

  predicate Running(s: State, p: nat) {
    p < |s.procs| && 0 <= s.procs[p].on < |s.cpus| && s.cpus[s.procs[p].on] == In(p)
  }

  predicate Unlocked(s: State, p: int) { 0 <= p < |s.procs| && s.procs[p].lock == Free }

  predicate Enabled(s: State, a: Action) {
    match a
    case Pick(c, p) => c < |s.cpus| && s.cpus[c] == Looking && Unlocked(s, p) && s.procs[p].state == RUNNABLE
    case Enter(c) => c < |s.cpus| && s.cpus[c].Chosen? && s.cpus[c].p < |s.procs| && s.procs[s.cpus[c].p].pc.Out?
    case Leave(c) => c < |s.cpus| && s.cpus[c].Back? && s.cpus[c].p < |s.procs|
    case Release(p) => Running(s, p) && s.procs[p].pc.Resumed?
    case Swtch(p) => Running(s, p) && s.procs[p].pc.Leaving?
    case Yield(p) => Running(s, p) && Resting(s.procs[p].pc) && Unlocked(s, p)
    case Sleep(p, n) => Running(s, p) && s.procs[p].pc == Run && Unlocked(s, p)
    case Wake(p, q, n) => Running(s, p) && s.procs[p].pc == Run && Unlocked(s, q) && s.procs[q].state == SLEEPING
            && s.procs[q].chan == Obj(n)
    case Kill(p, q) => Running(s, p) && s.procs[p].pc == Run && Unlocked(s, q)
    case NewChild(p, np) => Running(s, p) && s.procs[p].pc == Run && Unlocked(s, np) && s.procs[np].state == UNUSED
    case NoChild(p, np) => Running(s, p) && s.procs[p].pc == Run && Unlocked(s, np) && s.procs[np].state == UNUSED
    case SetParent(p) => Running(s, p) && s.procs[p].pc.ForkAlloc? && s.waitLock < 0 && s.procs[p].pc.np < |s.procs|
    case StartChild(p) => Running(s, p) && s.procs[p].pc.ForkParent? && Unlocked(s, s.procs[p].pc.np)
    case TakeWait(p) => Running(s, p) && (s.procs[p].pc == Run || s.procs[p].pc == WantWait) && s.waitLock < 0
    case ScanOne(p, fault) =>
      && Running(s, p) && s.procs[p].pc.Scan? && s.procs[p].pc.i < |s.procs|
      && (s.procs[s.procs[p].pc.i].parent == p ==> Unlocked(s, s.procs[p].pc.i))
    case GiveUp(p) => Running(s, p) && s.procs[p].pc.Scan? && s.procs[p].pc.i == |s.procs|
            && (!s.procs[p].pc.kids || s.procs[p].killed)
    case Commit(p) => Running(s, p) && s.procs[p].pc.Scan? && s.procs[p].pc.i == |s.procs| && s.procs[p].pc.kids
            && !s.procs[p].killed && Unlocked(s, p)
    case GoToSleep(p) => Running(s, p) && s.procs[p].pc.WaitSleeping?
    case BeginExit(p) => Running(s, p) && s.procs[p].pc == Run && s.waitLock < 0 && p != INIT
    case AdoptOne(p) => Running(s, p) && s.procs[p].pc.Adopt?
    case WakeTheInit(p) => Running(s, p) && s.procs[p].pc.WakeInit? && Unlocked(s, INIT)
    case WakeTheParent(p) => Running(s, p) && s.procs[p].pc.WakeParent?
            && (0 <= s.procs[p].parent ==> Unlocked(s, s.procs[p].parent))
    case BecomeZombie(p) => Running(s, p) && s.procs[p].pc.Die? && Unlocked(s, p)
  }

  function Put(s: State, p: nat, x: Proc): State
    requires p < |s.procs|
  {
    s.(procs := s.procs[p := x])
  }

  /** wakeup() reaching a process asleep on `chan`. */
  function Woken(x: Proc, chan: Chan): Proc {
    if x.state == SLEEPING && x.chan == chan then x.(state := RUNNABLE) else x
  }

  /** freeproc */
  function Freed(x: Proc): Proc {
    x.(state := UNUSED, chan := NoChan, killed := false, parent := -1, pid := 0, pc := NoThread, maker := -1)
  }

  function Do(s: State, a: Action): State
    requires Enabled(s, a)
  {
    match a
    case Pick(c, p) =>
      Put(s, p, s.procs[p].(state := RUNNING, lock := ByCpu(c), on := c)).(cpus := s.cpus[c := Chosen(p)])
    case Enter(c) =>
      var p := s.cpus[c].p;
      Put(s, p, s.procs[p].(lock := ByProc, pc := Resumed(s.procs[p].pc.next))).(cpus := s.cpus[c := In(p)])
    case Leave(c) =>
      var p := s.cpus[c].p;
      Put(s, p, s.procs[p].(lock := Free, on := -1)).(cpus := s.cpus[c := Looking])
    case Release(p) => Put(s, p, s.procs[p].(lock := Free, chan := NoChan, pc := s.procs[p].pc.next))
    case Swtch(p) =>
      var x := s.procs[p];
      Put(s, p, x.(lock := ByCpu(x.on),
                   pc := if x.pc.next.Dead? then Dead else Out(x.pc.next))).(cpus := s.cpus[x.on := Back(p)])
    case Yield(p) => Put(s, p, s.procs[p].(lock := ByProc, state := RUNNABLE, pc := Leaving(s.procs[p].pc)))
    case Sleep(p, n) => Put(s, p, s.procs[p].(lock := ByProc, state := SLEEPING, chan := Obj(n), pc := Leaving(Run)))
    case Wake(p, q, n) => Put(s, q, s.procs[q].(state := RUNNABLE))
    case Kill(p, q) => Put(s, q,
                           s.procs[q].(killed := true,
                                       state := if s.procs[q].state == SLEEPING then RUNNABLE else s.procs[q].state))
    case NewChild(p, np) =>
      s.(procs := s.procs[p := s.procs[p].(pc := ForkAlloc(np))][np := s.procs[np].(state := USED, pid := s.nextpid,
              maker := p)],
         nextpid := s.nextpid + 1)
    case NoChild(p, np) => s.(nextpid := s.nextpid + 1)
    case SetParent(p) =>
      var np := s.procs[p].pc.np;
      s.(procs := s.procs[p := s.procs[p].(pc := ForkParent(np))][np := s.procs[np].(parent := p)])
    case StartChild(p) =>
      var np := s.procs[p].pc.np;
      s.(procs := s.procs[p := s.procs[p].(pc := Run)][np := s.procs[np].(state := RUNNABLE, pc := Out(Run),
              maker := -1)])
    case TakeWait(p) => Put(s, p, s.procs[p].(pc := Scan(0, false))).(waitLock := p)
    case ScanOne(p, fault) =>
      var Scan(i, kids) := s.procs[p].pc;
      if s.procs[i].parent != p then Put(s, p, s.procs[p].(pc := Scan(i + 1, kids)))
      else if s.procs[i].state != ZOMBIE then Put(s, p, s.procs[p].(pc := Scan(i + 1, true)))
      else if fault then Put(s, p, s.procs[p].(pc := Run)).(waitLock := -1)
      else s.(procs := s.procs[p := s.procs[p].(pc := Run)][i := Freed(s.procs[i])], waitLock := -1,
              reaped := s.reaped + [s.procs[i].pid])
    case GiveUp(p) => Put(s, p, s.procs[p].(pc := Run)).(waitLock := -1)
    case Commit(p) => Put(s, p, s.procs[p].(lock := ByProc, pc := WaitSleeping)).(waitLock := -1)
    case GoToSleep(p) => Put(s, p, s.procs[p].(state := SLEEPING, chan := Addr(p), pc := Leaving(WantWait)))
    case BeginExit(p) => Put(s, p, s.procs[p].(pc := Adopt(0))).(waitLock := p)
    case AdoptOne(p) =>
      var i := s.procs[p].pc.i;
      if i >= |s.procs| then Put(s, p, s.procs[p].(pc := WakeParent))
      else if s.procs[i].parent != p then Put(s, p, s.procs[p].(pc := Adopt(i + 1)))
      else
        var given := s.procs[i := s.procs[i].(parent := INIT)];
        s.(procs := given[p := given[p].(pc := WakeInit(i))])
    case WakeTheInit(p) =>
      var i := s.procs[p].pc.i;
      var woken := s.procs[INIT := Woken(s.procs[INIT], Addr(INIT))];
      s.(procs := woken[p := woken[p].(pc := Adopt(i + 1))])
    case WakeTheParent(p) =>
      var q := s.procs[p].parent;
      if q < 0 then Put(s, p, s.procs[p].(pc := Die))
      else
        var woken := s.procs[q := Woken(s.procs[q], Addr(q))];
        s.(procs := woken[p := woken[p].(pc := Die)])
    case BecomeZombie(p) => Put(s, p,
                                s.procs[p].(lock := ByProc, state := ZOMBIE, pc := Leaving(Dead))).(waitLock := -1)
  }

  /** After userinit: the first process is ready to run, every CPU in its scheduler. */
  ghost predicate Boot(s: State) {
    && |s.procs| > 0 && s.waitLock == -1 && s.nextpid == 2 && s.reaped == []
    && (forall c :: 0 <= c < |s.cpus| ==> s.cpus[c] == Looking)
    && s.procs[INIT] == Proc(RUNNABLE, NoChan, false, -1, 1, Free, Out(Run), -1, -1)
    && (forall p :: 0 < p < |s.procs| ==> s.procs[p] == Proc(UNUSED, NoChan, false, -1, 0, Free, NoThread, -1, -1))
  }

  ghost predicate Steps(s: State, acts: seq<Action>, t: State)
    decreases |acts|
  {
    if acts == [] then s == t else Enabled(s, acts[0]) && Steps(Do(s, acts[0]), acts[1..], t)
  }

  // ----------------------------------------------------------------------- invariants

  /** A process that is on no CPU, or on one in its scheduler's hands, or running. */
  predicate ThreadOK(x: Proc, cpu: Cpu) {
    && (x.pc.Leaving? ==> Resting(x.pc.next) || x.pc.next.Dead?) && (x.pc.Out? || x.pc.Resumed? ==> Resting(x.pc.next))
    && (if x.on < 0 || cpu.Back? then
          && !Active(x.pc) && (x.pc.Out? ==> x.state == RUNNABLE || x.state == SLEEPING)
          && (x.pc.Dead? ==> x.state == ZOMBIE)
          && (x.pc.NoThread? ==> x.on < 0 && (x.state == UNUSED || x.state == USED))
          && x.lock == if x.on < 0 then Free else ByCpu(x.on)
        else if cpu.Chosen? then x.pc.Out? && x.state == RUNNING && x.lock == ByCpu(x.on)
        else
          && cpu.In? && Active(x.pc) && x.lock == (if HoldsOwn(x.pc) then ByProc else Free)
          && (if x.pc.Leaving? && x.pc.next.Dead? then x.state == ZOMBIE
              else if x.pc.Leaving? then x.state == RUNNABLE || x.state == SLEEPING
              else x.state == RUNNING))
  }

  function CpuOf(s: State, p: nat): Cpu
    requires p < |s.procs|
  {
    if 0 <= s.procs[p].on < |s.cpus| then s.cpus[s.procs[p].on] else Looking
  }

  /** c->proc and the processes agree, one to one. */
  ghost predicate Seats(s: State) {
    && (forall c :: 0 <= c < |s.cpus| && !s.cpus[c].Looking? ==>
            s.cpus[c].p < |s.procs| && s.procs[s.cpus[c].p].on == c)
    && (forall p :: 0 <= p < |s.procs| && s.procs[p].on >= 0 ==>
          s.procs[p].on < |s.cpus| && !s.cpus[s.procs[p].on].Looking? && s.cpus[s.procs[p].on].p == p)
  }

  ghost predicate Threads(s: State) { forall p :: 0 <= p < |s.procs| ==> ThreadOK(s.procs[p], CpuOf(s, p)) }

  /** wait_lock is held by the one process whose code is under it. */
  ghost predicate WaitLocked(s: State) {
    && s.waitLock < |s.procs|
    && forall p :: 0 <= p < |s.procs| ==> (s.waitLock == p <==> HoldsWait(s.procs[p].pc))
  }

  /** A child being set up belongs to one fork in progress. */
  predicate ChildReady(s: State, p: nat)
    requires p < |s.procs|
  {
    var pc := Core(s.procs[p].pc);
    pc.ForkAlloc? || pc.ForkParent? ==>
      && pc.np < |s.procs| && s.procs[pc.np].state == USED && s.procs[pc.np].pc == NoThread
      && s.procs[pc.np].maker == p && s.procs[pc.np].parent == if pc.ForkAlloc? then -1 else p
  }

  predicate Vacant(x: Proc) { x.state == UNUSED ==> x.parent == -1 && x.pc == NoThread }

  ghost predicate Forks(s: State) {
    && (forall p: nat :: p < |s.procs| ==> ChildReady(s, p))
    && (forall p: nat :: p < |s.procs| ==> Vacant(s.procs[p]))
  }

  predicate Alive(x: Proc) { x.state == RUNNABLE || x.state == RUNNING || x.state == SLEEPING }

  /** The slots whose children have been handed to init already. */
  predicate HandedOver(pc: Pc, i: nat) {
    pc.WakeParent? || pc.Die? || (pc.Adopt? && i < pc.i) || (pc.WakeInit? && i <= pc.i)
  }

  /** Parents are alive; an exiting process has no children among the slots it has passed. */
  ghost predicate Parents(s: State) {
    && INIT < |s.procs| && Alive(s.procs[INIT]) && !Exiting(s.procs[INIT].pc) && s.procs[INIT].parent == -1
    && (forall i: nat :: i < |s.procs| ==> ParentOK(s, i))
    && (forall p: nat, i: nat :: p < |s.procs| && i < |s.procs| ==> NotLeftBehind(s, p, i))
  }

  predicate ParentOK(s: State, i: nat)
    requires i < |s.procs|
  {
    s.procs[i].parent == -1
            || (0 <= s.procs[i].parent < |s.procs| && Alive(s.procs[s.procs[i].parent]) && s.procs[i].parent != i)
  }

  predicate NotLeftBehind(s: State, p: nat, i: nat)
    requires p < |s.procs| && i < |s.procs|
  {
    HandedOver(s.procs[p].pc, i) ==> s.procs[i].parent != p
  }

  predicate Exiting(pc: Pc) { pc.Adopt? || pc.WakeInit? || pc.WakeParent? || pc.Die? || pc.Dead?
          || (pc.Leaving? && pc.next.Dead?) }

  /** Asleep in wait, or bound to be: only a wakeup will make it look again. */
  predicate Committed(x: Proc) { x.pc.WaitSleeping? || (x.state == SLEEPING && Core(x.pc).WantWait?) }

  predicate InitDueToWake(s: State) { 0 <= s.waitLock < |s.procs| && s.procs[s.waitLock].pc.WakeInit? }

  /** Who sleeps in wait does so on its own address. */
  predicate ChanOK(s: State, p: nat)
    requires p < |s.procs|
  {
    s.procs[p].state == SLEEPING && Core(s.procs[p].pc).WantWait? ==> s.procs[p].chan == Addr(p)
  }

  predicate HasCommittedParent(s: State, i: nat)
    requires i < |s.procs|
  {
    0 <= s.procs[i].parent < |s.procs| && Committed(s.procs[s.procs[i].parent])
  }

  /** A zombie's parent does not sleep on, except init just before it is woken. */
  predicate ZombieOK(s: State, i: nat)
    requires i < |s.procs|
  {
    s.procs[i].state == ZOMBIE && HasCommittedParent(s, i) ==> s.procs[i].parent == INIT && InitDueToWake(s)
  }

  predicate DieOK(s: State, p: nat)
    requires p < |s.procs|
  {
    s.procs[p].pc.Die? ==> !HasCommittedParent(s, p)
  }

  /** The children wait has looked at are not zombies. */
  predicate ScanOK(s: State, p: nat, i: nat)
    requires p < |s.procs| && i < |s.procs|
  {
    s.procs[p].pc.Scan? && i < s.procs[p].pc.i && s.procs[i].parent == p ==> s.procs[i].state != ZOMBIE
  }

  /** No zombie waits for a parent that sleeps on. */
  ghost predicate Waits(s: State) {
    && (forall p: nat :: p < |s.procs| ==> ChanOK(s, p))
    && (forall i: nat :: i < |s.procs| ==> ZombieOK(s, i))
    && (forall p: nat :: p < |s.procs| ==> DieOK(s, p))
    && (forall p: nat, i: nat :: p < |s.procs| && i < |s.procs| ==> ScanOK(s, p, i))
  }

  /** Pids are never given twice, and no pid is reaped twice. */
  ghost predicate Pids(s: State) {
    && (forall p :: 0 <= p < |s.procs| ==>
            s.procs[p].pid < s.nextpid && (s.procs[p].state != UNUSED ==> s.procs[p].pid > 0))
    && (forall p, q :: 0 <= p < q < |s.procs| && s.procs[p].pid == s.procs[q].pid ==> s.procs[p].pid == 0)
    && (forall k :: 0 <= k < |s.reaped| ==> 0 < s.reaped[k] < s.nextpid)
    && (forall p, k :: 0 <= p < |s.procs| && 0 <= k < |s.reaped| ==> s.procs[p].pid != s.reaped[k])
    && (forall j, k :: 0 <= j < k < |s.reaped| ==> s.reaped[j] != s.reaped[k])
  }

  // --------------------------------------------------------------- scheduling is kept

  ghost predicate SameSeats(s: State, t: State) {
    && t.cpus == s.cpus && |t.procs| == |s.procs| && forall p :: 0 <= p < |s.procs| ==> t.procs[p].on == s.procs[p].on
  }

  lemma SeatsKept(s: State, t: State)
    requires Seats(s) && SameSeats(s, t)
    ensures Seats(t)
  {
  }

  /** Steps of threads: whoever changes is still as a thread on its CPU should be. */
  lemma ThreadsKept(s: State, t: State, p: nat, q: nat)
    requires Threads(s) && SameSeats(s, t) && p < |s.procs| && q < |s.procs|
    requires forall r :: 0 <= r < |s.procs| && r != p && r != q ==> t.procs[r] == s.procs[r]
    requires ThreadOK(t.procs[p], CpuOf(s, p)) && ThreadOK(t.procs[q], CpuOf(s, q))
    ensures Threads(t)
  {
    forall r | 0 <= r < |s.procs| ensures ThreadOK(t.procs[r], CpuOf(t, r)) {
      assert CpuOf(t, r) == CpuOf(s, r);
    }
  }

  predicate SchedulerStep(a: Action) { a.Pick? || a.Enter? || a.Leave? || a.Swtch? }

  function SchedulerSubject(s: State, a: Action): nat
    requires Enabled(s, a) && SchedulerStep(a)
  {
    match a { case Pick(c, p) => p case Enter(c) => s.cpus[c].p case Leave(c) => s.cpus[c].p case Swtch(p) => p }
  }

  lemma SchedulerKeeps(s: State, a: Action)
    requires Seats(s) && Threads(s) && Enabled(s, a) && SchedulerStep(a)
    ensures Seats(Do(s, a)) && Threads(Do(s, a))
  {
    assert ThreadOK(s.procs[SchedulerSubject(s, a)], CpuOf(s, SchedulerSubject(s, a)));
    SchedulerSeats(s, a);
    forall r: nat | r < |Do(s, a).procs| ensures ThreadOK(Do(s, a).procs[r], CpuOf(Do(s, a), r)) {
      assert r < |s.procs| && ThreadOK(s.procs[r], CpuOf(s, r));
      SchedulerThread(s, a, r);
    }
  }

  lemma SchedulerSeats(s: State, a: Action)
    requires Seats(s) == true && Enabled(s, a) && SchedulerStep(a)
    requires SchedulerSubject(s, a) < |s.procs|
            && ThreadOK(s.procs[SchedulerSubject(s, a)], CpuOf(s, SchedulerSubject(s, a)))
    ensures Seats(Do(s, a)) == true && |Do(s, a).procs| == |s.procs|
  {
  }

  lemma SchedulerThread(s: State, a: Action, r: nat)
    requires Seats(s) == true && Enabled(s, a) && SchedulerStep(a) && r < |s.procs| == |Do(s, a).procs|
    requires ThreadOK(s.procs[r], CpuOf(s, r)) && SchedulerSubject(s, a) < |s.procs|
            && ThreadOK(s.procs[SchedulerSubject(s, a)], CpuOf(s, SchedulerSubject(s, a)))
    ensures ThreadOK(Do(s, a).procs[r], CpuOf(Do(s, a), r)) == true
  {
  }

  /** The second process a step changes, if any; the first is the one that acts. */
  function Other(s: State, a: Action): nat
    requires Enabled(s, a) && !SchedulerStep(a)
  {
    match a
    case Wake(p, q, n) => q
    case Kill(p, q) => q
    case NewChild(p, np) => np
    case SetParent(p) => s.procs[p].pc.np
    case StartChild(p) => s.procs[p].pc.np
    case ScanOne(p, fault) => s.procs[p].pc.i
    case AdoptOne(p) => if s.procs[p].pc.i < |s.procs| then s.procs[p].pc.i else p
    case WakeTheInit(p) => INIT
    case WakeTheParent(p) => if s.procs[p].parent >= 0 then s.procs[p].parent else p
    case Release(p) => p case Yield(p) => p case Sleep(p, n) => p case NoChild(p, np) => p case TakeWait(p) => p
    case GiveUp(p) => p case Commit(p) => p case GoToSleep(p) => p case BeginExit(p) => p case BecomeZombie(p) => p
  }

  function Actor(a: Action): nat
    requires !SchedulerStep(a)
  {
    a.p
  }

  /** A thread's step changes itself and at most one other process, and no CPU. */
  ghost predicate Framed(s: State, t: State, p: nat, q: nat) {
    && p < |s.procs| && q < |s.procs| && t.cpus == s.cpus && |t.procs| == |s.procs|
    && (forall r :: 0 <= r < |s.procs| && r != p && r != q ==> t.procs[r] == s.procs[r])
    && t.procs[p].on == s.procs[p].on && t.procs[q].on == s.procs[q].on
  }

  lemma ThreadFrame(s: State, a: Action)
    requires Enabled(s, a) && !SchedulerStep(a)
    ensures Framed(s, Do(s, a), Actor(a), Other(s, a)) == true
  {
    hide Framed;
    if PairStep(a) { FrameOfPair(s, a); } else { FrameOfOne(s, a); }
  }

  lemma FrameOfOne(s: State, a: Action)
    requires Enabled(s, a) && !SchedulerStep(a) && !PairStep(a)
    ensures Framed(s, Do(s, a), Actor(a), Other(s, a)) == true
  {
  }

  lemma FrameOfPair(s: State, a: Action)
    requires Enabled(s, a) && PairStep(a)
    ensures Framed(s, Do(s, a), Actor(a), Other(s, a)) == true
  {
  }

  lemma ThreadStepKeeps(s: State, a: Action)
    requires Seats(s) && Threads(s) && Forks(s) && Parents(s) && Enabled(s, a) && !SchedulerStep(a)
    ensures Seats(Do(s, a)) && Threads(Do(s, a))
  {
    var t, p, q := Do(s, a), Actor(a), Other(s, a);
    ThreadFrame(s, a);
    SeatsKept(s, t);
    assert ThreadOK(s.procs[p], CpuOf(s, p)) && ThreadOK(s.procs[q], CpuOf(s, q));
    ActorOK(s, a);
    OtherOK(s, a);
    ThreadsKept(s, t, p, q);
  }

  predicate PairStep(a: Action) {
    a.Wake? || a.Kill? || a.NewChild? || a.SetParent? || a.StartChild? || a.ScanOne? || a.AdoptOne? || a.WakeTheInit?
            || a.WakeTheParent?
  }

  /** The child of a fork in progress has no thread yet. */
  lemma ChildOf(s: State, p: nat)
    requires Forks(s) == true && p < |s.procs| && (s.procs[p].pc.ForkAlloc? || s.procs[p].pc.ForkParent?)
    ensures var np := s.procs[p].pc.np;
            && np < |s.procs| && np != p && s.procs[np].state == USED && s.procs[np].pc == NoThread
            && s.procs[np].maker == p
            && s.procs[np].parent == if s.procs[p].pc.ForkAlloc? then -1 else p
  {
    assert ChildReady(s, p);
  }

  lemma ActorOK(s: State, a: Action)
    requires Threads(s) && Forks(s) && Parents(s) && Enabled(s, a) && !SchedulerStep(a) && Actor(a) < |s.procs|
            && Actor(a) < |Do(s, a).procs|
    ensures ThreadOK(Do(s, a).procs[Actor(a)], CpuOf(s, Actor(a)))
  {
    assert ThreadOK(s.procs[Actor(a)], CpuOf(s, Actor(a)));
    if a.StartChild? || a.SetParent? { ChildOf(s, a.p); }
    hide Threads, Forks, Parents;
    if PairStep(a) { ActorInPairOK(s, a); } else { ActorAloneOK(s, a); }
  }

  lemma ActorAloneOK(s: State, a: Action)
    requires Enabled(s, a) && !SchedulerStep(a) && !PairStep(a) && Actor(a) < |s.procs| && Actor(a) < |Do(s, a).procs|
    requires ThreadOK(s.procs[Actor(a)], CpuOf(s, Actor(a)))
    ensures ThreadOK(Do(s, a).procs[Actor(a)], CpuOf(s, Actor(a)))
  {
  }

  lemma ActorInPairOK(s: State, a: Action)
    requires Enabled(s, a) && !SchedulerStep(a) && PairStep(a) && Actor(a) < |s.procs| && Actor(a) < |Do(s, a).procs|
    requires ThreadOK(s.procs[Actor(a)], CpuOf(s, Actor(a)))
            && (a.StartChild? || a.SetParent? ==> s.procs[a.p].pc.np != a.p)
    ensures ThreadOK(Do(s, a).procs[Actor(a)], CpuOf(s, Actor(a)))
  {
  }

  lemma OtherOK(s: State, a: Action)
    requires Threads(s) && Forks(s) && Parents(s) && Enabled(s, a) && !SchedulerStep(a)
    requires Actor(a) < |s.procs| && Other(s, a) < |s.procs| == |Do(s, a).procs|
    ensures ThreadOK(Do(s, a).procs[Other(s, a)], CpuOf(s, Other(s, a)))
  {
    var p, q := Actor(a), Other(s, a);
    assert ThreadOK(s.procs[p], CpuOf(s, p)) && ThreadOK(s.procs[q], CpuOf(s, q));
    if p == q {
      ActorOK(s, a);
    } else {
      if a.StartChild? || a.SetParent? { ChildOf(s, p); }
      hide Threads, Forks, Parents;
      OtherInPairOK(s, a, q);
    }
  }

  lemma OtherInPairOK(s: State, a: Action, q: nat)
    requires Enabled(s, a) && !SchedulerStep(a) && Actor(a) != q == Other(s, a) && q < |s.procs| == |Do(s, a).procs|
    requires ThreadOK(s.procs[q], CpuOf(s, q))
    requires a.StartChild? || a.SetParent? ==> s.procs[q].state == USED && s.procs[q].pc == NoThread
    ensures ThreadOK(Do(s, a).procs[q], CpuOf(s, q))
  {
  }
}
