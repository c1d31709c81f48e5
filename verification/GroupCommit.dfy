/** kernel/log.c and kernel/bio.c as a concurrent system with crashes.

    File-system calls begin, lock buffers, modify them, log them and end in any
    interleaving; the last to end commits for the whole group, one disk write
    at a time; readers come and go; unreferenced buffers are recycled; power
    fails between any two steps, recovery included. */
module GroupCommit {
  import opened Blocks
  import opened BufferCache
  import opened RedoLog

  datatype Event = Begin(op: nat) | Wrote(op: nat, b: nat, data: Block) | End(op: nat)

  /** A cached file-system block; `pins` are the references the log holds. */
  datatype Cached = Cached(data: Block, pins: nat)

  /** `d0`, `es` and `datas` record what the disk, the log and the logged
      buffers were when the commit (or recovery) began; `k` counts its writes. */
  datatype Phase =
    | Idle
    | Committing(k: nat, d0: Disk, es: seq<nat>, datas: seq<Block>)
    | Recovering(k: nat, d0: Disk)

  datatype State = State(
    disk: Disk,
    cache: map<nat, Cached>,
    holder: map<nat, nat>,       // who holds each buffer's sleep-lock
    unlogged: set<nat>,          // modified since locked, not yet passed to log_write
    lh: seq<nat>,                // log.lh.block[0..n)
    outstanding: nat,            // log.outstanding
    committing: bool,            // log.committing
    appended: map<nat, nat>,     // calls in progress, with the blocks each has added to the log
    spent: nat,                  // the sum of `appended`
    phase: Phase,
    history: seq<Event>,         // what the calls did, as far as it can still matter
    cut: nat,                    // history[..cut] is durable
    now: Disk,                   // the file system after history
    durable: Disk                // the file system after history[..cut]
  )

  datatype Action =
    | BeginOp(o: nat) | Acquire(p: nat, b: nat) | Modify(o: nat, b: nat, data: Block) | LogWrite(o: nat, b: nat)
    | Release(b: nat) | Evict(b: nat) | EndOp(o: nat)
    | DiskWrite | CommitDone | Crash | RecoverWrite | RecoverDone

  // ------------------------------------------------------------------ meaning

  /** The file system after a history of calls. */
  ghost function Replay(ly: Layout, fs: Disk, h: seq<Event>): (r: Disk)
    decreases |h|
  {
    if h == [] then fs
    else var e := h[|h| - 1];
      var r := Replay(ly, fs, h[..|h| - 1]);
      if e.Wrote? then r[ly.Home(e.b) := e.data] else r
  }

  /** No call has events on both sides of `cut`. */
  ghost predicate WholeCalls(h: seq<Event>, cut: nat) {
    forall i, j :: 0 <= i < cut <= j < |h| ==> h[i].op != h[j].op
  }

  ghost predicate IsHome(ly: Layout, d: Disk, b: nat) {
    ly.Home(b) in d && !ly.InLog(ly.Home(b)) && b < UINT_MAX
  }

  /** What bread of a file-system block finds. */
  ghost function Bread(ly: Layout, s: State, b: nat): Block
    requires IsHome(ly, s.disk, b)
  {
    if b in s.cache then s.cache[b].data else s.disk[ly.Home(b)]
  }

  // -------------------------------------------------------------------- steps

  /** The next disk write of the commit in progress, from the state at hand. */
  ghost function NextCommitWrite(ly: Layout, s: State): Write
    requires s.phase.Committing? && s.phase.k < 2 * |s.lh| + 2
    requires Encodable(s.lh) && ly.Header() in s.disk
    requires forall i :: 0 <= i < |s.lh| ==> IsHome(ly, s.disk, s.lh[i]) && ly.Slot(i) in s.disk
  {
    var k, n := s.phase.k, |s.lh|;
    if k < n then Write(ly.Slot(k), Bread(ly, s, s.lh[k]))
    else if k == n then Write(ly.Header(), PutEntries(s.disk[ly.Header()], s.lh))
    else if k <= 2 * n then Write(ly.Home(s.lh[k - n - 1]), s.disk[ly.Slot(k - n - 1)])
    else Write(ly.Header(), PutEntries(s.disk[ly.Header()], []))
  }

  /** log_write's panic test. */
  predicate TooBig(ly: Layout, s: State) { |s.lh| >= LOGSIZE || |s.lh| >= ly.size - 1 }

  ghost predicate Enabled(ly: Layout, s: State, a: Action) {
    match a
    case BeginOp(o) =>
      // begin_op goes through; the call is a new one
      && s.phase.Idle? && !s.committing && |s.lh| + (s.outstanding + 1) * MAXOPBLOCKS <= LOGSIZE
      && (forall i :: 0 <= i < |s.history| ==> s.history[i].op != o) && o !in s.appended
    case Acquire(p, b) =>
      // bread by a call or by a plain reader, once nobody holds the lock
      !s.phase.Recovering? && IsHome(ly, s.disk, b) && b !in s.holder
    case Modify(o, b, data) =>
      o in s.appended && b in s.holder && s.holder[b] == o && b in s.cache
    case LogWrite(o, b) =>
      // the call keeps within its budget of MAXOPBLOCKS first-time blocks
      && o in s.appended && b in s.holder && s.holder[b] == o && b in s.cache && !TooBig(ly, s)
      && (b in s.lh || s.appended[o] < MAXOPBLOCKS)
    case Release(b) =>
      // whoever modified a buffer logs it before letting go
      b in s.holder && b !in s.unlogged
    case Evict(b) =>
      b in s.cache && b !in s.holder && s.cache[b].pins == 0
    case EndOp(o) =>
      o in s.appended && s.outstanding > 0 && (forall b :: b in s.holder ==> s.holder[b] != o)
    case DiskWrite =>
      && s.phase.Committing? && |s.lh| > 0 && s.phase.k < 2 * |s.lh| + 2
      && Encodable(s.lh) && ly.Header() in s.disk
      && (forall i :: 0 <= i < |s.lh| ==> IsHome(ly, s.disk, s.lh[i]) && ly.Slot(i) in s.disk)
    case CommitDone =>
      s.phase.Committing? && |s.lh| == 0
    case Crash => true
    case RecoverWrite =>
      && s.phase.Recovering? && GoodDisk(ly, s.phase.d0) && s.phase.k <= |Entries(s.phase.d0[ly.Header()])|
    case RecoverDone =>
      && s.phase.Recovering? && GoodDisk(ly, s.phase.d0) && s.phase.k == |Entries(s.phase.d0[ly.Header()])| + 1
  }

  function DoBeginOp(s: State, o: nat): State {
    s.(outstanding := s.outstanding + 1, appended := s.appended[o := 0], history := s.history + [Begin(o)])
  }

  ghost function DoAcquire(ly: Layout, s: State, p: nat, b: nat): State
    requires IsHome(ly, s.disk, b)
  {
    s.(holder := s.holder[b := p],
       cache := if b in s.cache then s.cache else s.cache[b := Cached(s.disk[ly.Home(b)], 0)])
  }

  function DoModify(ly: Layout, s: State, o: nat, b: nat, data: Block): State
    requires b in s.cache
  {
    s.(now := s.now[ly.Home(b) := data],
       cache := s.cache[b := s.cache[b].(data := data)], unlogged := s.unlogged + {b},
       history := s.history + [Wrote(o, b, data)])
  }

  /** log_write of a block the log has not seen yet: pin it and append it. */
  function DoAppend(s: State, o: nat, b: nat): State
    requires b in s.cache && o in s.appended
  {
    s.(lh := s.lh + [b], unlogged := s.unlogged - {b},
       cache := s.cache[b := s.cache[b].(pins := s.cache[b].pins + 1)],
       appended := s.appended[o := s.appended[o] + 1], spent := s.spent + 1)
  }

  ghost function DoEndOp(ly: Layout, s: State, o: nat): State
    requires s.outstanding > 0 && o in s.appended
  {
    var last := s.outstanding == 1;
    s.(outstanding := s.outstanding - 1, appended := s.appended - {o}, history := s.history + [End(o)],
       spent := if s.appended[o] <= s.spent then s.spent - s.appended[o] else 0,
       committing := s.committing || last,
       phase := if last then Committing(0, s.disk, s.lh, CacheData(s.cache, s.lh)) else s.phase)
  }

  /** The logged buffers' contents (a placeholder for one that is not cached). */
  ghost function CacheData(cache: map<nat, Cached>, es: seq<nat>): (datas: seq<Block>)
    ensures |datas| == |es|
  {
    seq(|es|, i requires 0 <= i < |es| => if es[i] in cache then cache[es[i]].data else ZeroBlock())
  }

  ghost function DoDiskWrite(ly: Layout, s: State): State
    requires Enabled(ly, s, DiskWrite)
  {
    AfterWrite(s, NextCommitWrite(ly, s))
  }

  /** The commit's write `w` lands: number |lh| is the commit point, the ones after
      it unpin, the last empties the log. */
  function AfterWrite(s: State, w: Write): State
    requires s.phase.Committing? && s.phase.k < 2 * |s.lh| + 2
  {
    var k, n := s.phase.k, |s.lh|;
    s.(disk := s.disk[w.key := w.data],
       phase := Committing(k + 1, s.phase.d0, s.phase.es, s.phase.datas),
       cut := if k == n then |s.history| else s.cut,
       durable := if k == n then s.now else s.durable,
       cache := if n < k <= 2 * n then Unpin(s.cache, s.lh[k - n - 1], w.data) else s.cache,
       lh := if k == 2 * n + 1 then [] else s.lh)
  }

  function Unpin(cache: map<nat, Cached>, b: nat, data: Block): map<nat, Cached> {
    if b in cache && cache[b].pins > 0 then cache[b := Cached(data, cache[b].pins - 1)] else cache
  }

  /** Power fails: memory is gone, and with it every call not yet durable. */
  function DoCrash(s: State): State {
    State(s.disk, map[], map[], {}, [], 0, false, map[], 0, Recovering(0, s.disk),
          if s.cut <= |s.history| then s.history[..s.cut] else s.history, s.cut, s.durable, s.durable)
  }

  ghost function DoRecoverWrite(ly: Layout, s: State): State
    requires Enabled(ly, s, RecoverWrite)
  {
    var w := RecoveryWrite(ly, s.phase.d0, s.phase.k);
    s.(disk := s.disk[w.key := w.data], phase := Recovering(s.phase.k + 1, s.phase.d0))
  }

  ghost function Do(ly: Layout, s: State, a: Action): State
    requires Enabled(ly, s, a)
  {
    match a
    case BeginOp(o) => DoBeginOp(s, o)
    case Acquire(p, b) => DoAcquire(ly, s, p, b)
    case Modify(o, b, data) => DoModify(ly, s, o, b, data)
    case LogWrite(o, b) => if b in s.lh then s.(unlogged := s.unlogged - {b}) else DoAppend(s, o, b)
    case Release(b) => s.(holder := s.holder - {b})
    case Evict(b) => s.(cache := s.cache - {b})
    case EndOp(o) => DoEndOp(ly, s, o)
    case DiskWrite => DoDiskWrite(ly, s)
    case CommitDone => s.(committing := false, phase := Idle)
    case Crash => DoCrash(s)
    case RecoverWrite => DoRecoverWrite(ly, s)
    case RecoverDone => s.(phase := Idle)
  }

  // --------------------------------------------------------------- invariants

  /** The logged blocks whose buffers are still pinned. */
  ghost function Pending(phase: Phase, lh: seq<nat>): seq<nat> {
    if phase.Committing? && |lh| + 1 < phase.k <= 2 * |lh| + 1 then lh[phase.k - |lh| - 1..] else lh
  }

  /** The calls begun and not ended. */
  ghost function OpenCalls(h: seq<Event>): set<nat>
    decreases |h|
  {
    if h == [] then {}
    else match h[|h| - 1]
      case Begin(o) => OpenCalls(h[..|h| - 1]) + {o}
      case End(o) => OpenCalls(h[..|h| - 1]) - {o}
      case Wrote(_, _, _) => OpenCalls(h[..|h| - 1])
  }

  ghost predicate DiskOK(ly: Layout, disk: Disk, now: Disk) {
    && GoodDisk(ly, disk) && HomeBlocks(ly, disk).Keys == now.Keys
    && (forall key :: key in disk ==> key.dev == ly.dev && key.blockno < UINT_MAX)
  }

  ghost predicate Told(ly: Layout, fs0: Disk, h: seq<Event>, cut: nat, now: Disk, durable: Disk) {
    cut <= |h| && now == Replay(ly, fs0, h) && durable == Replay(ly, fs0, h[..cut])
  }

  /** Nothing of a call is durable unless all of it is: crash now, recover, and
      the disk holds exactly the file system `durable`. */
  ghost predicate Durable(ly: Layout, disk: Disk, durable: Disk)
    requires GoodDisk(ly, disk)
  {
    Logical(ly, disk) == durable
  }

  /** Whoever reads a block finds what the calls so far have written. */
  ghost predicate Current(ly: Layout, now: Disk, disk: Disk, cache: map<nat, Cached>) {
    && (forall b :: b in cache ==> IsHome(ly, disk, b))
    && (forall b :: IsHome(ly, disk, b) ==>
          && ly.Home(b) in now
          && now[ly.Home(b)] == if b in cache then cache[b].data else disk[ly.Home(b)])
  }

  /** A block is logged exactly when its buffer carries one log pin; any other
      cached block is as it is on disk or still in its modifier's hands. */
  ghost predicate PinsAgree(ly: Layout, disk: Disk, cache: map<nat, Cached>, unlogged: set<nat>, pending: seq<nat>) {
    && (forall b :: b in pending ==> b in cache && cache[b].pins == 1)
    && (forall b :: b in cache && b !in pending ==>
          && cache[b].pins == 0
          && (b in unlogged || (ly.Home(b) in disk && cache[b].data == disk[ly.Home(b)])))
  }

  ghost predicate Locks(cache: map<nat, Cached>, holder: map<nat, nat>, unlogged: set<nat>, appended: map<nat, nat>) {
    && (forall b :: b in holder ==> b in cache)
    && (forall b :: b in unlogged ==> b in holder && holder[b] in appended)
  }

  ghost predicate Calls(h: seq<Event>, cut: nat, appended: map<nat, nat>) {
    && cut <= |h|
    && OpenCalls(h) == appended.Keys
    && OpenCalls(h[..cut]) == {}
    && WholeCalls(h, cut)
    && (forall o, i :: o in appended && 0 <= i < cut ==> h[i].op != o)
  }

  ghost predicate Modes(phase: Phase, committing: bool, outstanding: nat, appended: map<nat, nat>) {
    && outstanding == |appended|
    && (committing <==> phase.Committing?)
    && (!phase.Idle? ==> appended == map[])
  }

  ghost function Pick(m: map<nat, nat>): (k: nat)
    requires |m| > 0
    ensures k in m
  {
    var k :| k in m; k
  }

  ghost function Sum(m: map<nat, nat>): nat
    decreases |m|
  {
    if |m| == 0 then 0 else m[Pick(m)] + Sum(m - {Pick(m)})
  }

  /** Room in the log is set aside for what every call in progress may still append. */
  ghost predicate Reserved(n: nat, appended: map<nat, nat>, spent: nat) {
    && (forall o :: o in appended ==> appended[o] <= MAXOPBLOCKS)
    && n + MAXOPBLOCKS * |appended| - spent <= LOGSIZE
  }

  /** `spent` is what it is said to be.  (Kept apart from the other invariants,
      none of which depends on how the sum is computed.) */
  ghost predicate SpentIsSum(s: State) { s.spent == Sum(s.appended) }

  ghost predicate InPhase(ly: Layout, now: Disk, phase: Phase, disk: Disk, lh: seq<nat>, allDurable: bool)
    requires GoodDisk(ly, disk)
  {
    match phase
    case Idle => Entries(disk[ly.Header()]) == []
    case Committing(k, d0, es, datas) =>
      && GoodDisk(ly, d0) && Entries(d0[ly.Header()]) == []
      && GoodEntries(ly, d0, es) && |datas| == |es|
      && k <= (if |es| == 0 then 0 else 2 * |es| + 2) && disk == CommitDisk(ly, d0, es, datas, k)
      && lh == (if k == 2 * |es| + 2 then [] else es)
      && Updated(ly, HomeBlocks(ly, d0), es, datas) == now
      && (k > |es| ==> allDurable)
    case Recovering(k, d0) =>
      && GoodDisk(ly, d0) && k <= |Entries(d0[ly.Header()])| + 1
      && disk == RecoveryDisk(ly, d0, k)
      && allDurable && lh == []
  }

  /** The log's books: who is in the middle of a call, and what room they have. */
  ghost predicate Books(s: State) {
    && Calls(s.history, s.cut, s.appended)
    && Modes(s.phase, s.committing, s.outstanding, s.appended)
    && Reserved(|s.lh|, s.appended, s.spent)
  }

  /** The disk is where the commit or recovery in progress should have it. */
  ghost predicate OnDisk(ly: Layout, s: State) {
    && DiskOK(ly, s.disk, s.now)
    && GoodEntries(ly, s.disk, s.lh)
    && Durable(ly, s.disk, s.durable)
    && InPhase(ly, s.now, s.phase, s.disk, s.lh, s.cut == |s.history|)
  }

  /** The cache agrees with the disk and the log. */
  ghost predicate InMemory(ly: Layout, s: State) {
    && (if s.phase.Recovering? then s.cache == map[] && s.holder == map[] && s.unlogged == {}
        else Current(ly, s.now, s.disk, s.cache))
    && PinsAgree(ly, s.disk, s.cache, s.unlogged, Pending(s.phase, s.lh))
    && Locks(s.cache, s.holder, s.unlogged, s.appended)
  }

  ghost predicate Stored(ly: Layout, s: State) { OnDisk(ly, s) && InMemory(ly, s) }

  ghost predicate Inv(ly: Layout, fs0: Disk, s: State) {
    && Books(s) && SpentIsSum(s)
    && Told(ly, fs0, s.history, s.cut, s.now, s.durable)
    && OnDisk(ly, s) && InMemory(ly, s)
  }

  // ------------------------------------------------------------ the books are kept

  lemma OpenAppend(h: seq<Event>, e: Event)
    ensures OpenCalls(h + [e]) == if e.Begin? then OpenCalls(h) + {e.op}
                                  else if e.End? then OpenCalls(h) - {e.op} else OpenCalls(h)
  {
    assert (h + [e])[..|h + [e]| - 1] == h;
  }

  /** One more event of a new call or of one in progress. */
  lemma CallsAppend(h: seq<Event>, cut: nat, appended: map<nat, nat>, e: Event)
    requires Calls(h, cut, appended)
    requires if e.Begin? then forall i :: 0 <= i < |h| ==> h[i].op != e.op else e.op in appended
    ensures Calls(h + [e], cut,
                  if e.Begin? then appended[e.op := 0] else if e.End? then appended - {e.op} else appended)
  {
    OpenAppend(h, e);
    assert (h + [e])[..cut] == h[..cut];
  }

  lemma BeginOpBooks(ly: Layout, s: State, o: nat)
    requires Books(s) && Enabled(ly, s, BeginOp(o))
    ensures Books(DoBeginOp(s, o))
  {
    CallsAppend(s.history, s.cut, s.appended, Begin(o));
  }

  lemma AppendBooks(ly: Layout, s: State, o: nat, b: nat)
    requires Books(s) && Enabled(ly, s, LogWrite(o, b)) && b !in s.lh
    ensures Books(DoAppend(s, o, b))
  {
    var a := s.appended[o := s.appended[o] + 1];
    assert a.Keys == s.appended.Keys;
    assert |a| == |a.Keys| == |s.appended|;
  }

  lemma EndOpBooks(ly: Layout, s: State, o: nat)
    requires Books(s) && Enabled(ly, s, EndOp(o)) && s.appended[o] <= s.spent
    ensures Books(DoEndOp(ly, s, o))
  {
    CallsAppend(s.history, s.cut, s.appended, End(o));
    EndOpReserves(|s.lh|, s.appended, s.spent, o);
  }

  lemma EndOpReserves(n: nat, appended: map<nat, nat>, spent: nat, o: nat)
    requires Reserved(n, appended, spent) && o in appended && appended[o] <= spent
    ensures Reserved(n, appended - {o}, spent - appended[o]) && |appended - {o}| == |appended| - 1
    ensures |appended - {o}| == 0 ==> appended - {o} == map[]
  {
    assert (appended - {o}).Keys == appended.Keys - {o};
    assert |appended - {o}| == |(appended - {o}).Keys|;
  }

  lemma CutHere(h: seq<Event>, cut: nat)
    requires Calls(h, cut, map[])
    ensures Calls(h, |h|, map[])
  {
    assert h[..|h|] == h;
  }

  lemma DiskWriteBooks(ly: Layout, s: State)
    requires Books(s) && Enabled(ly, s, DiskWrite)
    ensures Books(DoDiskWrite(ly, s))
  {
    CutHere(s.history, s.cut);
  }

  lemma CrashBooks(s: State)
    requires Books(s)
    ensures Books(DoCrash(s))
  {
    assert s.history[..s.cut][..s.cut] == s.history[..s.cut];
  }

  lemma BooksStep(ly: Layout, s: State, a: Action)
    requires Books(s) && SpentIsSum(s) && Enabled(ly, s, a)
    ensures Books(Do(ly, s, a))
  {
    match a
    case BeginOp(o) => BeginOpBooks(ly, s, o);
    case Modify(o, b, data) => CallsAppend(s.history, s.cut, s.appended, Wrote(o, b, data));
    case LogWrite(o, b) => if b !in s.lh { AppendBooks(ly, s, o, b); }
    case EndOp(o) => SumRemove(s.appended, o); EndOpBooks(ly, s, o);
    case DiskWrite => DiskWriteBooks(ly, s);
    case Crash => CrashBooks(s);
    case _ =>
  }

  // -------------------------------------------------------- the budgets spent so far

  lemma {:induction false} SumRemove(m: map<nat, nat>, k: nat)
    requires k in m
    ensures Sum(m) == m[k] + Sum(m - {k})
    decreases |m|
  {
    var c := Pick(m);
    if c != k {
      SumRemove(m - {c}, k);
      SumRemove(m - {k}, c);
      assert m - {c} - {k} == m - {k} - {c};
    }
  }

  lemma SumUpdate(m: map<nat, nat>, k: nat, v: nat)
    ensures Sum(m[k := v]) == Sum(m) + v - (if k in m then m[k] else 0)
  {
    SumRemove(m[k := v], k);
    assert m[k := v] - {k} == m - {k};
    if k in m { SumRemove(m, k); } else { assert m - {k} == m; }
  }

  lemma SpentBegin(s: State, o: nat)
    requires SpentIsSum(s) && o !in s.appended
    ensures SpentIsSum(DoBeginOp(s, o))
  {
    SumUpdate(s.appended, o, 0);
  }

  lemma SpentAppend(s: State, o: nat, b: nat)
    requires SpentIsSum(s) && o in s.appended && b in s.cache
    ensures SpentIsSum(DoAppend(s, o, b))
  {
    SumUpdate(s.appended, o, s.appended[o] + 1);
  }

  lemma SpentEnd(ly: Layout, s: State, o: nat)
    requires SpentIsSum(s) && o in s.appended && s.outstanding > 0
    ensures SpentIsSum(DoEndOp(ly, s, o))
  {
    SumRemove(s.appended, o);
  }

  lemma SpentStep(ly: Layout, s: State, a: Action)
    requires Enabled(ly, s, a) && s.cut <= |s.history| && SpentIsSum(s)
    ensures SpentIsSum(Do(ly, s, a))
  {
    match a
    case BeginOp(o) => SpentBegin(s, o);
    case LogWrite(o, b) => if b !in s.lh { SpentAppend(s, o, b); }
    case EndOp(o) => SpentEnd(ly, s, o);
    case _ =>
  }

  // ----------------------------------------------------------- the tale so far

  lemma ReplayAppend(ly: Layout, fs: Disk, h: seq<Event>, e: Event)
    ensures Replay(ly, fs, h + [e]) == if e.Wrote? then Replay(ly, fs, h)[ly.Home(e.b) := e.data] else Replay(ly, fs, h)
  {
    assert (h + [e])[..|h + [e]| - 1] == h;
  }

  lemma TellMore(ly: Layout, fs0: Disk, h: seq<Event>, cut: nat, now: Disk, durable: Disk, e: Event)
    requires Told(ly, fs0, h, cut, now, durable)
    ensures Told(ly, fs0, h + [e], cut, if e.Wrote? then now[ly.Home(e.b) := e.data] else now, durable)
  {
    ReplayAppend(ly, fs0, h, e);
    assert (h + [e])[..cut] == h[..cut];
  }

  lemma TaleStep(ly: Layout, fs0: Disk, s: State, a: Action)
    requires Enabled(ly, s, a) && Told(ly, fs0, s.history, s.cut, s.now, s.durable)
    ensures var s' := Do(ly, s, a);
            Told(ly, fs0, s'.history, s'.cut, s'.now, s'.durable)
  {
    match a
    case BeginOp(o) => TellMore(ly, fs0, s.history, s.cut, s.now, s.durable, Begin(o));
    case Modify(o, b, data) => TellMore(ly, fs0, s.history, s.cut, s.now, s.durable, Wrote(o, b, data));
    case EndOp(o) => TellMore(ly, fs0, s.history, s.cut, s.now, s.durable, End(o));
    case DiskWrite => assert s.history[..|s.history|] == s.history;
    case Crash => assert s.history[..s.cut][..s.cut] == s.history[..s.cut];
    case _ =>
  }

  // ------------------------------------------------- disk, cache and log agree: calls

  lemma AcquireCache(ly: Layout, now: Disk, disk: Disk, cache: map<nat, Cached>, unlogged: set<nat>, pending: seq<nat>,
                     b: nat)
    requires Current(ly, now, disk, cache) && PinsAgree(ly, disk, cache, unlogged, pending)
    requires IsHome(ly, disk, b) && b !in cache
    ensures Current(ly, now, disk, cache[b := Cached(disk[ly.Home(b)], 0)])
    ensures PinsAgree(ly, disk, cache[b := Cached(disk[ly.Home(b)], 0)], unlogged, pending)
  {
  }

  lemma AcquireKeeps(ly: Layout, s: State, p: nat, b: nat)
    requires InMemory(ly, s) && Enabled(ly, s, Acquire(p, b))
    ensures InMemory(ly, DoAcquire(ly, s, p, b))
  {
    if b !in s.cache {
      AcquireCache(ly, s.now, s.disk, s.cache, s.unlogged, Pending(s.phase, s.lh), b);
    }
  }

  lemma ModifyCache(ly: Layout, now: Disk, disk: Disk, cache: map<nat, Cached>, unlogged: set<nat>, pending: seq<nat>,
                    b: nat, data: Block)
    requires Current(ly, now, disk, cache) && PinsAgree(ly, disk, cache, unlogged, pending) && b in cache
    ensures Current(ly, now[ly.Home(b) := data], disk, cache[b := cache[b].(data := data)])
    ensures PinsAgree(ly, disk, cache[b := cache[b].(data := data)], unlogged + {b}, pending)
  {
  }

  lemma ModifyKeeps(ly: Layout, s: State, o: nat, b: nat, data: Block)
    requires OnDisk(ly, s) && InMemory(ly, s) && s.phase.Idle? && Enabled(ly, s, Modify(o, b, data))
    ensures OnDisk(ly, DoModify(ly, s, o, b, data))
    ensures InMemory(ly, DoModify(ly, s, o, b, data))
  {
    ModifyCache(ly, s.now, s.disk, s.cache, s.unlogged, Pending(s.phase, s.lh), b, data);
    assert s.now[ly.Home(b) := data].Keys == s.now.Keys;
  }

  lemma AbsorbKeeps(ly: Layout, s: State, b: nat)
    requires InMemory(ly, s) && s.phase.Idle? && b in s.lh
    ensures InMemory(ly, s.(unlogged := s.unlogged - {b}))
  {
  }

  lemma AppendCache(ly: Layout, now: Disk, disk: Disk, cache: map<nat, Cached>, unlogged: set<nat>, phase: Phase,
                    lh: seq<nat>,
                    b: nat)
    requires Current(ly, now, disk, cache) == true && PinsAgree(ly, disk, cache, unlogged, Pending(phase, lh)) == true
    requires phase.Idle? && b in cache && b !in lh
    ensures IsHome(ly, disk, b)
    ensures var cache' := cache[b := cache[b].(pins := cache[b].pins + 1)];
            && Current(ly, now, disk, cache') == true
            && PinsAgree(ly, disk, cache', unlogged - {b}, Pending(phase, lh + [b])) == true
  {
  }

  lemma AppendEntry(ly: Layout, d: Disk, es: seq<nat>, b: nat)
    requires GoodEntries(ly, d, es) == true && b !in es && |es| < LOGSIZE && |es| < ly.size - 1 && IsHome(ly, d, b)
    ensures GoodEntries(ly, d, es + [b]) == true
  {
  }

  lemma AppendKeeps(ly: Layout, s: State, o: nat, b: nat)
    requires OnDisk(ly, s) == true && InMemory(ly, s) == true
    requires s.phase.Idle? && Enabled(ly, s, LogWrite(o, b)) && b !in s.lh
    ensures OnDisk(ly, DoAppend(s, o, b)) == true
    ensures InMemory(ly, DoAppend(s, o, b)) == true
  {
    hide DiskOK, GoodEntries, Durable, Current, PinsAgree, Pending, Entries;
    AppendCache(ly, s.now, s.disk, s.cache, s.unlogged, s.phase, s.lh, b);
    AppendEntry(ly, s.disk, s.lh, b);
  }

  lemma EvictCache(ly: Layout, now: Disk, disk: Disk, cache: map<nat, Cached>, unlogged: set<nat>, pending: seq<nat>,
                   b: nat)
    requires Current(ly, now, disk, cache) && PinsAgree(ly, disk, cache, unlogged, pending)
    requires b in cache && cache[b].pins == 0 && b !in unlogged
    ensures Current(ly, now, disk, cache - {b})
    ensures PinsAgree(ly, disk, cache - {b}, unlogged, pending)
  {
    assert b !in pending;
  }

  lemma EvictKeeps(ly: Layout, s: State, b: nat)
    requires InMemory(ly, s) && Enabled(ly, s, Evict(b))
    ensures InMemory(ly, s.(cache := s.cache - {b}))
  {
    EvictCache(ly, s.now, s.disk, s.cache, s.unlogged, Pending(s.phase, s.lh), b);
  }

  lemma EndOpLocks(cache: map<nat, Cached>, holder: map<nat, nat>, unlogged: set<nat>, appended: map<nat, nat>, o: nat)
    requires Locks(cache, holder, unlogged, appended) == true && o in appended
    requires forall b :: b in holder ==> holder[b] != o
    ensures Locks(cache, holder, unlogged, appended - {o}) == true
    ensures |appended - {o}| == 0 ==> unlogged == {}
  {
  }

  lemma EndOpKeeps(ly: Layout, s: State, o: nat)
    requires OnDisk(ly, s) == true && InMemory(ly, s) == true
    requires s.phase.Idle? && Enabled(ly, s, EndOp(o)) && |s.appended - {o}| == s.outstanding - 1
    ensures OnDisk(ly, DoEndOp(ly, s, o)) == true
    ensures InMemory(ly, DoEndOp(ly, s, o)) == true
  {
    hide DiskOK, GoodEntries, Durable, Current, PinsAgree, Locks, Entries, CacheData;
    var s' := DoEndOp(ly, s, o);
    EndOpLocks(s.cache, s.holder, s.unlogged, s.appended, o);
    if s.outstanding == 1 {
      CommitBegins(ly, s.now, s.disk, s.cache, s.lh, s'.cut == |s'.history|);
    }
  }

  /** When the last call ends, what is logged is all that distinguishes the
      calls' view of the file system from the disk. */
  lemma CommitBegins(ly: Layout, now: Disk, disk: Disk, cache: map<nat, Cached>, lh: seq<nat>, allDurable: bool)
    requires DiskOK(ly, disk, now) == true && GoodEntries(ly, disk, lh) == true && Entries(disk[ly.Header()]) == []
    requires Current(ly, now, disk, cache) == true && PinsAgree(ly, disk, cache, {}, lh) == true
    ensures InPhase(ly, now, Committing(0, disk, lh, CacheData(cache, lh)), disk, lh, allDurable) == true
  {
    var datas := CacheData(cache, lh);
    forall key | key in now ensures Updated(ly, HomeBlocks(ly, disk), lh, datas)[key] == now[key] {
      assert key in HomeBlocks(ly, disk);
      assert IsHome(ly, disk, key.blockno) && key == ly.Home(key.blockno);
    }
    assert Updated(ly, HomeBlocks(ly, disk), lh, datas).Keys == now.Keys;
  }

  // ------------------------------------------------- disk, cache and log agree: commit

  /** A logged block not yet installed is in the cache, pinned, and holds what the
      commit set out to write: write_log never re-reads it from disk. */
  lemma PendingIsCached(ly: Layout, now: Disk, disk: Disk, cache: map<nat, Cached>, unlogged: set<nat>,
                        pending: seq<nat>,
                        d0: Disk, es: seq<nat>, datas: seq<Block>, i: nat)
    requires DiskOK(ly, disk, now) && GoodEntries(ly, disk, es) && |es| == |datas| && i < |es|
    requires Current(ly, now, disk, cache) && PinsAgree(ly, disk, cache, unlogged, pending) && es[i] in pending
    requires Updated(ly, HomeBlocks(ly, d0), es, datas) == now
    ensures IsHome(ly, disk, es[i]) && es[i] in cache && cache[es[i]] == Cached(datas[i], 1)
  {
    assert ly.Home(es[i]) in now && IndexOf(es, es[i]) == i;
  }

  lemma SameKeysOK(ly: Layout, disk: Disk, disk': Disk, now: Disk, es: seq<nat>)
    requires DiskOK(ly, disk, now) == true && GoodDisk(ly, disk') == true && disk'.Keys == disk.Keys
    requires GoodEntries(ly, disk, es) == true
    ensures DiskOK(ly, disk', now) == true && GoodEntries(ly, disk', es) == true
  {
    assert HomeBlocks(ly, disk').Keys == HomeBlocks(ly, disk).Keys;
  }

  lemma PhaseKeys(ly: Layout, d0: Disk, es: seq<nat>, datas: seq<Block>, k: nat)
    requires GoodDisk(ly, d0) && GoodEntries(ly, d0, es) && 0 < |es| == |datas| && k < 2 * |es| + 2
    ensures CommitWrite(ly, d0[ly.Header()], es, datas, k).key in CommitDisk(ly, d0, es, datas, k)
    ensures CommitDisk(ly, d0, es, datas, k + 1).Keys == CommitDisk(ly, d0, es, datas, k).Keys
  {
    CommitDiskStep(ly, d0, es, datas, k);
    CommitDiskKeys(ly, d0, es, datas, k);
    CommitDiskKeys(ly, d0, es, datas, k + 1);
  }

  /** What the disk stands for changes exactly at the header write. */
  lemma PhaseMeans(ly: Layout, d0: Disk, es: seq<nat>, datas: seq<Block>, k: nat, d: Disk)
    requires GoodDisk(ly, d0) == true && Entries(d0[ly.Header()]) == []
    requires GoodEntries(ly, d0, es) == true && 0 < |es| == |datas| && k <= 2 * |es| + 2
    requires d == CommitDisk(ly, d0, es, datas, k)
    ensures GoodDisk(ly, d) == true
    ensures Logical(ly, d) == if k > |es| then Updated(ly, HomeBlocks(ly, d0), es, datas) else HomeBlocks(ly, d0)
  {
    CommitCutMeaning(ly, d0, es, datas, k);
  }

  lemma PhaseStep(ly: Layout, d0: Disk, es: seq<nat>, datas: seq<Block>, k: nat)
    requires GoodDisk(ly, d0) == true && Entries(d0[ly.Header()]) == []
    requires GoodEntries(ly, d0, es) == true && 0 < |es| == |datas| && k < 2 * |es| + 2
    ensures var w, d := CommitWrite(ly, d0[ly.Header()], es, datas, k), CommitDisk(ly, d0, es, datas, k + 1);
            d == CommitDisk(ly, d0, es, datas, k)[w.key := w.data] && GoodDisk(ly, d) == true
  {
    CommitDiskStep(ly, d0, es, datas, k);
    PhaseMeans(ly, d0, es, datas, k + 1, CommitDisk(ly, d0, es, datas, k + 1));
  }

  /** One planned write moves the commit on. */
  lemma PhaseMoves(ly: Layout, now: Disk, d0: Disk, es: seq<nat>, datas: seq<Block>, k: nat, disk: Disk, ad: bool,
                   ad': bool)
    requires GoodDisk(ly, disk) == true && InPhase(ly, now, Committing(k, d0, es, datas), disk, es, ad) == true
    requires 0 < |es| && k < 2 * |es| + 2 && (k >= |es| ==> ad')
    ensures var w := CommitWrite(ly, d0[ly.Header()], es, datas, k);
            && GoodDisk(ly, disk[w.key := w.data]) == true
            && InPhase(ly, now, Committing(k + 1, d0, es, datas), disk[w.key := w.data],
                       if k == 2 * |es| + 1 then [] else es, ad') == true
  {
    hide GoodDisk, GoodEntries, CommitDisk, CommitWrite, Updated, HomeBlocks, Logical, Entries;
    PhaseStep(ly, d0, es, datas, k);
  }

  lemma CommitWriteOK(ly: Layout, now: Disk, d0: Disk, es: seq<nat>, datas: seq<Block>, k: nat, disk: Disk, ad: bool,
                      w: Write)
    requires DiskOK(ly, disk, now) && InPhase(ly, now, Committing(k, d0, es, datas), disk, es, ad)
    requires 0 < |es| && k < 2 * |es| + 2 && GoodEntries(ly, disk, es) && GoodDisk(ly, disk[w.key := w.data])
    requires w == CommitWrite(ly, d0[ly.Header()], es, datas, k)
    ensures w.key in disk && DiskOK(ly, disk[w.key := w.data], now) && GoodEntries(ly, disk[w.key := w.data], es)
  {
    PhaseKeys(ly, d0, es, datas, k);
    SameKeysOK(ly, disk, disk[w.key := w.data], now, es);
  }

  lemma CommitWriteDurable(ly: Layout, now: Disk, durable: Disk, d0: Disk, es: seq<nat>, datas: seq<Block>, k: nat,
                           disk: Disk, ad: bool, w: Write)
    requires GoodDisk(ly, disk) && InPhase(ly, now, Committing(k, d0, es, datas), disk, es, ad)
    requires 0 < |es| && k < 2 * |es| + 2 && Durable(ly, disk, durable)
    requires w == CommitWrite(ly, d0[ly.Header()], es, datas, k) && GoodDisk(ly, disk[w.key := w.data])
    ensures Durable(ly, disk[w.key := w.data], if k == |es| then now else durable)
  {
    CommitDiskStep(ly, d0, es, datas, k);
    PhaseMeans(ly, d0, es, datas, k, disk);
    PhaseMeans(ly, d0, es, datas, k + 1, disk[w.key := w.data]);
  }

  lemma CommitWriteInPhase(ly: Layout, s: State, w: Write)
    requires OnDisk(ly, s) && s.phase.Committing? && s.lh == s.phase.es && 0 < |s.lh| && s.phase.k < 2 * |s.lh| + 2
    requires w == CommitWrite(ly, s.phase.d0[ly.Header()], s.phase.es, s.phase.datas, s.phase.k)
    ensures var s' := AfterWrite(s, w);
            GoodDisk(ly, s'.disk) && InPhase(ly, s'.now, s'.phase, s'.disk, s'.lh, s'.cut == |s'.history|) == true
  {
    hide CommitDisk, CommitWrite, Updated, HomeBlocks, Entries, GoodEntries, Durable;
    var Committing(k, d0, es, datas) := s.phase;
    var s' := AfterWrite(s, w);
    PhaseMoves(ly, s.now, d0, es, datas, k, s.disk, s.cut == |s.history|, s'.cut == |s'.history|);
  }

  lemma CommitWriteOnDisk(ly: Layout, s: State, w: Write)
    requires OnDisk(ly, s) && s.phase.Committing? && s.lh == s.phase.es && 0 < |s.lh| && s.phase.k < 2 * |s.lh| + 2
    requires w == CommitWrite(ly, s.phase.d0[ly.Header()], s.phase.es, s.phase.datas, s.phase.k)
    ensures w.key in s.disk && OnDisk(ly, AfterWrite(s, w))
  {
    CommitWriteInPhase(ly, s, w);
    CommitWriteOK(ly, s.now, s.phase.d0, s.phase.es, s.phase.datas, s.phase.k, s.disk, s.cut == |s.history|, w);
    CommitWriteDurable(ly, s.now, s.durable, s.phase.d0, s.phase.es, s.phase.datas, s.phase.k, s.disk,
                       s.cut == |s.history|, w);
  }

  lemma LogAreaWrite(ly: Layout, now: Disk, disk: Disk, cache: map<nat, Cached>, unlogged: set<nat>, pending: seq<nat>,
                     key: Key, data: Block)
    requires Current(ly, now, disk, cache) == true && PinsAgree(ly, disk, cache, unlogged, pending) == true
    requires key in disk && ly.InLog(key)
    ensures Current(ly, now, disk[key := data], cache) == true
    ensures PinsAgree(ly, disk[key := data], cache, unlogged, pending) == true
  {
    var d := disk[key := data];
    assert forall b :: IsHome(ly, d, b) <==> IsHome(ly, disk, b);
  }

  /** Memory is untouched by a commit's writes to the log area. */
  lemma LogWriteInMemory(ly: Layout, s: State, w: Write)
    requires InMemory(ly, s) == true && s.phase.Committing? && 0 < |s.lh|
    requires s.phase.k <= |s.lh| || s.phase.k == 2 * |s.lh| + 1
    requires w.key in s.disk && ly.InLog(w.key)
    ensures InMemory(ly, AfterWrite(s, w)) == true
  {
    hide Current, PinsAgree, Locks;
    var s' := AfterWrite(s, w);
    assert Pending(s'.phase, s'.lh) == Pending(s.phase, s.lh);
    LogAreaWrite(ly, s.now, s.disk, s.cache, s.unlogged, Pending(s.phase, s.lh), w.key, w.data);
  }

  lemma HomeWrite(ly: Layout, now: Disk, disk: Disk, cache: map<nat, Cached>, unlogged: set<nat>, pending: seq<nat>,
                  b: nat, data: Block)
    requires Current(ly, now, disk, cache) && PinsAgree(ly, disk, cache, unlogged, [b] + pending)
    requires b !in pending && b in cache && cache[b] == Cached(data, 1)
    ensures Current(ly, now, disk[ly.Home(b) := data], Unpin(cache, b, data))
    ensures PinsAgree(ly, disk[ly.Home(b) := data], Unpin(cache, b, data), unlogged, pending)
  {
    var d := disk[ly.Home(b) := data];
    assert forall c :: IsHome(ly, d, c) <==> IsHome(ly, disk, c);
    assert forall c :: c in pending ==> c in [b] + pending;
  }

  lemma PendingShrinks(phase: Phase, phase': Phase, lh: seq<nat>, t: nat)
    requires phase.Committing? && phase'.Committing? && phase.k == |lh| + 1 + t && phase'.k == phase.k + 1 && t < |lh|
    ensures Pending(phase, lh) == [lh[t]] + Pending(phase', lh)
    ensures Pending(phase', lh) == lh[t+1..]
  {
    assert lh[t..] == [lh[t]] + lh[t+1..];
    assert lh[0..] == lh;
  }

  /** Copying a logged block home: its buffer loses its pin and is clean. */
  lemma InstallMemory(ly: Layout, now: Disk, disk: Disk, cache: map<nat, Cached>, unlogged: set<nat>,
                      phase: Phase, phase': Phase, lh: seq<nat>, t: nat, d0: Disk, datas: seq<Block>)
    requires phase.Committing? && phase'.Committing? && phase.k == |lh| + 1 + t && phase'.k == phase.k + 1 && t < |lh|
    requires DiskOK(ly, disk, now) == true && GoodEntries(ly, disk, lh) == true && |lh| == |datas|
    requires Current(ly, now, disk, cache) == true && PinsAgree(ly, disk, cache, unlogged, Pending(phase, lh)) == true
    requires Updated(ly, HomeBlocks(ly, d0), lh, datas) == now
    ensures var disk', cache' := disk[ly.Home(lh[t]) := datas[t]], Unpin(cache, lh[t], datas[t]);
            && Current(ly, now, disk', cache') == true
            && PinsAgree(ly, disk', cache', unlogged, Pending(phase', lh)) == true
  {
    PendingShrinks(phase, phase', lh, t);
    assert lh[t] in Pending(phase, lh);
    PendingIsCached(ly, now, disk, cache, unlogged, Pending(phase, lh), d0, lh, datas, t);
    HomeWrite(ly, now, disk, cache, unlogged, Pending(phase', lh), lh[t], datas[t]);
  }

  lemma UnpinLocks(cache: map<nat, Cached>, holder: map<nat, nat>, unlogged: set<nat>, appended: map<nat, nat>,
                   b: nat, data: Block)
    requires Locks(cache, holder, unlogged, appended) == true
    ensures Locks(Unpin(cache, b, data), holder, unlogged, appended) == true
  {
  }

  lemma InstallInMemory(ly: Layout, s: State, t: nat)
    requires OnDisk(ly, s) == true && InMemory(ly, s) == true
    requires s.phase.Committing? && s.phase.k == |s.lh| + 1 + t && t < |s.lh| && s.lh == s.phase.es
    ensures t < |s.phase.datas| && InMemory(ly, AfterWrite(s, Write(ly.Home(s.lh[t]), s.phase.datas[t]))) == true
  {
    hide DiskOK, GoodEntries, Durable, Current, PinsAgree, Locks, Pending, Updated, HomeBlocks, CommitDisk, Entries;
    var s' := AfterWrite(s, Write(ly.Home(s.lh[t]), s.phase.datas[t]));
    UnpinLocks(s.cache, s.holder, s.unlogged, s.appended, s.lh[t], s.phase.datas[t]);
    InstallMemory(ly, s.now, s.disk, s.cache, s.unlogged, s.phase, s'.phase, s.lh, t, s.phase.d0, s.phase.datas);
  }

  lemma InPhaseEntries(ly: Layout, now: Disk, phase: Phase, disk: Disk, lh: seq<nat>, ad: bool)
    requires GoodDisk(ly, disk) && InPhase(ly, now, phase, disk, lh, ad) && phase.Committing? && 0 < |lh|
    ensures lh == phase.es && phase.k < 2 * |lh| + 2
    ensures GoodDisk(ly, phase.d0) && GoodEntries(ly, phase.d0, lh) && |phase.datas| == |lh|
    ensures disk == CommitDisk(ly, phase.d0, lh, phase.datas, phase.k)
    ensures Updated(ly, HomeBlocks(ly, phase.d0), lh, phase.datas) == now
  {
  }

  lemma NextSlotIsPlanned(ly: Layout, s: State)
    requires OnDisk(ly, s) == true && InMemory(ly, s) == true
    requires Enabled(ly, s, DiskWrite) == true && s.phase.k < |s.lh| == |s.phase.datas|
    ensures NextCommitWrite(ly, s) == Write(ly.Slot(s.phase.k), s.phase.datas[s.phase.k])
  {
    var Committing(k, d0, es, datas) := s.phase;
    InPhaseEntries(ly, s.now, s.phase, s.disk, s.lh, s.cut == |s.history|);
    PendingIsCached(ly, s.now, s.disk, s.cache, s.unlogged, Pending(s.phase, s.lh), d0, es, datas, k);
  }

  /** What DiskWrite's guard and the invariant say about the commit under way. */
  lemma Underway(ly: Layout, s: State)
    requires OnDisk(ly, s) == true && Enabled(ly, s, DiskWrite) == true
    ensures s.phase.Committing? && s.lh == s.phase.es && 0 < |s.lh| == |s.phase.datas| && s.phase.k < 2 * |s.lh| + 2
    ensures HasLog(ly, s.phase.d0) && GoodEntries(ly, s.phase.d0, s.lh) == true && Encodable(s.lh) == true
            && ly.Header() in s.disk && ly.Header() in s.phase.d0
    ensures forall i :: 0 <= i < |s.lh| ==> IsHome(ly, s.disk, s.lh[i]) && ly.Slot(i) in s.disk
    ensures s.disk == CommitDisk(ly, s.phase.d0, s.lh, s.phase.datas, s.phase.k)
  {
    InPhaseEntries(ly, s.now, s.phase, s.disk, s.lh, s.cut == |s.history|);
  }

  /** Past the slots, the next write is made of what is on disk. */
  lemma NextFromDisk(ly: Layout, s: State, k: nat, n: nat)
    requires Enabled(ly, s, DiskWrite) == true && k == s.phase.k && n == |s.lh| && k >= n
    ensures NextCommitWrite(ly, s) ==
            if k == n then Write(ly.Header(), PutEntries(s.disk[ly.Header()], s.lh))
            else if k <= 2 * n then Write(ly.Home(s.lh[k - n - 1]), s.disk[ly.Slot(k - n - 1)])
            else Write(ly.Header(), PutEntries(s.disk[ly.Header()], []))
  {
    hide PutEntries;
  }

  /** The write the kernel computes from its state is the one the protocol calls for. */
  lemma NextIsPlanned(ly: Layout, s: State)
    requires OnDisk(ly, s) == true && InMemory(ly, s) == true && Enabled(ly, s, DiskWrite) == true
    ensures s.phase.Committing? && s.lh == s.phase.es && 0 < |s.lh|
    ensures NextCommitWrite(ly, s) == CommitWrite(ly, s.phase.d0[ly.Header()], s.phase.es, s.phase.datas, s.phase.k)
  {
    hide OnDisk, InMemory, Enabled, CommitDisk, CommitWrite, GoodEntries, PutEntries, NextCommitWrite, IsHome;
    Underway(ly, s);
    NextCommitWriteIs(ly, s.phase.d0, s.phase.es, s.phase.datas, s.phase.k);
    if s.phase.k < |s.lh| {
      NextSlotIsPlanned(ly, s);
    } else {
      NextFromDisk(ly, s, s.phase.k, |s.lh|);
    }
  }

  /** The commit's writes: to the log area, or one logged block to its home. */
  lemma WhereItWrites(ly: Layout, d: Disk, h: Block, es: seq<nat>, datas: seq<Block>, k: nat)
    requires GoodEntries(ly, d, es) == true && |es| == |datas| && k < 2 * |es| + 2
    ensures k <= |es| || k == 2 * |es| + 1 ==> ly.InLog(CommitWrite(ly, h, es, datas, k).key)
    ensures |es| < k <= 2 * |es| ==>
              CommitWrite(ly, h, es, datas, k) == Write(ly.Home(es[k - |es| - 1]), datas[k - |es| - 1])
  {
    hide PutEntries;
  }

  lemma CommitWriteInMemory(ly: Layout, s: State, w: Write)
    requires OnDisk(ly, s) == true && InMemory(ly, s) == true
    requires s.phase.Committing? && s.lh == s.phase.es && 0 < |s.lh| && s.phase.k < 2 * |s.lh| + 2
    requires ly.Header() in s.phase.d0 && GoodEntries(ly, s.phase.d0, s.lh) == true && |s.phase.datas| == |s.lh|
    requires w == CommitWrite(ly, s.phase.d0[ly.Header()], s.lh, s.phase.datas, s.phase.k) && w.key in s.disk
    ensures InMemory(ly, AfterWrite(s, w)) == true
  {
    hide InMemory, OnDisk, AfterWrite, GoodEntries, CommitWrite;
    var k, n := s.phase.k, |s.lh|;
    WhereItWrites(ly, s.phase.d0, s.phase.d0[ly.Header()], s.lh, s.phase.datas, k);
    if k <= n || k == 2 * n + 1 {
      LogWriteInMemory(ly, s, w);
    } else {
      InstallInMemory(ly, s, k - n - 1);
    }
  }

  lemma DiskWriteKeeps(ly: Layout, s: State)
    requires Stored(ly, s) == true && Enabled(ly, s, DiskWrite)
    ensures Stored(ly, DoDiskWrite(ly, s)) == true
  {
    Underway(ly, s);
    NextIsPlanned(ly, s);
    CommitWriteOnDisk(ly, s, NextCommitWrite(ly, s));
    CommitWriteInMemory(ly, s, NextCommitWrite(ly, s));
  }

  // ------------------------------------------------------ the end of it, and crashes

  lemma CommitEnded(ly: Layout, now: Disk, phase: Phase, disk: Disk, ad: bool)
    requires DiskOK(ly, disk, now) == true && phase.Committing? && InPhase(ly, now, phase, disk, [], ad) == true
    ensures InPhase(ly, now, Idle, disk, [], ad) == true
  {
    hide Updated, HomeBlocks;
    var Committing(k, d0, es, datas) := phase;
    if |es| > 0 {
      CommitPrefix(ly, d0, es, datas, CommitWrites(ly, d0[ly.Header()], es, datas), k);
    }
  }

  lemma CommitDoneKeeps(ly: Layout, s: State)
    requires Stored(ly, s) == true && Enabled(ly, s, CommitDone)
    ensures Stored(ly, s.(committing := false, phase := Idle)) == true
  {
    hide DiskOK, GoodEntries, Durable, Current, Locks, PinsAgree, InPhase;
    CommitEnded(ly, s.now, s.phase, s.disk, s.cut == |s.history|);
  }

  /** A crash leaves the disk standing for what was durable, and recovery to run. */
  lemma CrashDisk(ly: Layout, disk: Disk, now: Disk, durable: Disk)
    requires DiskOK(ly, disk, now) == true && Durable(ly, disk, durable) == true
    ensures DiskOK(ly, disk, durable) == true && GoodEntries(ly, disk, []) == true
    ensures InPhase(ly, durable, Recovering(0, disk), disk, [], true) == true
  {
    assert Logical(ly, disk).Keys == HomeBlocks(ly, disk).Keys;
  }

  lemma NothingCached(ly: Layout, disk: Disk, phase: Phase)
    ensures PinsAgree(ly, disk, map[], {}, Pending(phase, [])) == true && Locks(map[], map[], {}, map[]) == true
  {
  }

  lemma CrashKeeps(ly: Layout, s: State)
    requires Stored(ly, s) == true && s.cut <= |s.history|
    ensures Stored(ly, DoCrash(s)) == true
  {
    hide DiskOK, GoodEntries, Durable, Current, Locks, PinsAgree, InPhase, Pending;
    CrashDisk(ly, s.disk, s.now, s.durable);
    NothingCached(ly, s.disk, Recovering(0, s.disk));
  }

  /** Recovery's writes never change what the disk stands for. */
  lemma RecoveryMeans(ly: Layout, d0: Disk, k: nat, disk: Disk)
    requires GoodDisk(ly, d0) == true && k <= |RecoveryWrites(ly, d0)| && disk == RecoveryDisk(ly, d0, k)
    ensures GoodDisk(ly, disk) == true && Logical(ly, disk) == Logical(ly, d0) && disk.Keys == d0.Keys
    ensures k == |RecoveryWrites(ly, d0)| ==>
            Entries(disk[ly.Header()]) == [] && HomeBlocks(ly, disk) == Logical(ly, d0)
  {
    RecoveryPreservesLogical(ly, d0, k);
    RecoveryDiskKeys(ly, d0, k);
  }

  lemma RecoverWriteDisk(ly: Layout, now: Disk, durable: Disk, d0: Disk, k: nat, disk: Disk, lh: seq<nat>, ad: bool)
    requires DiskOK(ly, disk, now) == true && GoodEntries(ly, disk, lh) == true && Durable(ly, disk, durable) == true
    requires InPhase(ly, now, Recovering(k, d0), disk, lh, ad) == true && k <= |Entries(d0[ly.Header()])|
    ensures var d := RecoveryDisk(ly, d0, k + 1);
            && DiskOK(ly, d, now) == true && GoodEntries(ly, d, lh) == true && Durable(ly, d, durable) == true
            && InPhase(ly, now, Recovering(k + 1, d0), d, lh, ad) == true
  {
    hide DiskOK, GoodEntries, GoodDisk, RecoveryDisk, Logical, HomeBlocks, Entries;
    var d := RecoveryDisk(ly, d0, k + 1);
    RecoveryMeans(ly, d0, k, disk);
    RecoveryMeans(ly, d0, k + 1, d);
    SameKeysOK(ly, disk, d, now, lh);
  }

  lemma RecoverWriteOnDisk(ly: Layout, s: State, d: Disk, d0: Disk, k: nat)
    requires OnDisk(ly, s) == true && s.phase == Recovering(k, d0) && GoodDisk(ly, d0) == true
            && k <= |Entries(d0[ly.Header()])|
    requires d == RecoveryDisk(ly, d0, k + 1)
    ensures OnDisk(ly, s.(disk := d, phase := Recovering(k + 1, d0))) == true
  {
    RecoverWriteDisk(ly, s.now, s.durable, d0, k, s.disk, s.lh, s.cut == |s.history|);
  }

  lemma RecoverWriteInMemory(ly: Layout, s: State, d: Disk, d0: Disk, k: nat)
    requires InMemory(ly, s) == true && s.phase == Recovering(k, d0) && s.lh == []
    ensures InMemory(ly, s.(disk := d, phase := Recovering(k + 1, d0))) == true
  {
  }

  lemma RecoverWriteKeeps(ly: Layout, s: State, k: nat, d0: Disk)
    requires Stored(ly, s) == true && s.phase == Recovering(k, d0) && GoodDisk(ly, d0) == true
            && k <= |Entries(d0[ly.Header()])|
    ensures var w := RecoveryWrite(ly, d0, k);
            Stored(ly, s.(disk := s.disk[w.key := w.data], phase := Recovering(k + 1, d0))) == true
  {
    RecoveryDiskStep(ly, d0, k);
    var w := RecoveryWrite(ly, d0, k);
    hide GoodDisk, DiskOK, GoodEntries, Durable, Current, Locks, PinsAgree, RecoveryDisk, RecoveryWrite, Entries;
    RecoverWriteOnDisk(ly, s, s.disk[w.key := w.data], d0, k);
    RecoverWriteInMemory(ly, s, s.disk[w.key := w.data], d0, k);
  }

  lemma RecoverDoneKeeps(ly: Layout, s: State, k: nat, d0: Disk)
    requires Stored(ly, s) == true && s.phase == Recovering(k, d0) && GoodDisk(ly, d0) == true
    requires k == |Entries(d0[ly.Header()])| + 1 && s.now == s.durable
    ensures Stored(ly, s.(phase := Idle)) == true
  {
    RecoveryMeans(ly, d0, k, s.disk);
    hide DiskOK, GoodEntries, Durable, Locks, RecoveryDisk;
  }

  // -------------------------------------------------------------- whole runs

  lemma BeginOpKeeps(ly: Layout, s: State, o: nat)
    requires Stored(ly, s) == true && s.phase.Idle?
    ensures Stored(ly, DoBeginOp(s, o)) == true
  {
  }

  lemma ReleaseKeeps(ly: Layout, s: State, b: nat)
    requires Stored(ly, s) == true && Enabled(ly, s, Release(b))
    ensures Stored(ly, s.(holder := s.holder - {b})) == true
  {
    hide DiskOK, GoodEntries, Durable, InPhase, Current, PinsAgree;
  }

  lemma CallStepKeeps(ly: Layout, s: State, a: Action)
    requires Stored(ly, s) == true && Modes(s.phase, s.committing, s.outstanding, s.appended) && Enabled(ly, s, a)
    requires a.BeginOp? || a.Acquire? || a.Modify? || a.LogWrite?
    ensures Stored(ly, Do(ly, s, a)) == Stored(ly, s)
  {
    match a
    case BeginOp(o) => BeginOpKeeps(ly, s, o);
    case Acquire(p, b) => AcquireKeeps(ly, s, p, b);
    case Modify(o, b, data) => ModifyKeeps(ly, s, o, b, data);
    case LogWrite(o, b) => if b in s.lh { AbsorbKeeps(ly, s, b); } else { AppendKeeps(ly, s, o, b); }
  }

  lemma LeaveStepKeeps(ly: Layout, s: State, a: Action)
    requires Stored(ly, s) == true && Modes(s.phase, s.committing, s.outstanding, s.appended) && Enabled(ly, s, a)
    requires a.Release? || a.Evict? || (a.EndOp? && |s.appended - {a.o}| == s.outstanding - 1)
    ensures Stored(ly, Do(ly, s, a)) == Stored(ly, s)
  {
    match a
    case Release(b) => ReleaseKeeps(ly, s, b);
    case Evict(b) => EvictKeeps(ly, s, b);
    case EndOp(o) => EndOpKeeps(ly, s, o);
  }

  lemma DiskStepKeeps(ly: Layout, s: State, a: Action)
    requires Stored(ly, s) == true && Enabled(ly, s, a) && s.cut <= |s.history|
    requires a.DiskWrite? || a.CommitDone? || a.Crash? || a.RecoverWrite? || (a.RecoverDone? && s.now == s.durable)
    ensures Stored(ly, Do(ly, s, a)) == Stored(ly, s)
  {
    hide Stored, GoodDisk, Entries, IsHome, Encodable;
    match a
    case DiskWrite => DiskWriteKeeps(ly, s);
    case CommitDone => CommitDoneKeeps(ly, s);
    case Crash => CrashKeeps(ly, s);
    case RecoverWrite => RecoverWriteKeeps(ly, s, s.phase.k, s.phase.d0);
    case RecoverDone => RecoverDoneKeeps(ly, s, s.phase.k, s.phase.d0);
  }

  lemma StoredStep(ly: Layout, fs0: Disk, s: State, a: Action)
    requires Inv(ly, fs0, s) && Enabled(ly, s, a)
    ensures Stored(ly, Do(ly, s, a)) == Stored(ly, s)
  {
    if a.BeginOp? || a.Acquire? || a.Modify? || a.LogWrite? {
      CallStepKeeps(ly, s, a);
    } else if a.Release? || a.Evict? || a.EndOp? {
      if a.EndOp? {
        SumRemove(s.appended, a.o);
        EndOpReserves(|s.lh|, s.appended, s.spent, a.o);
      }
      LeaveStepKeeps(ly, s, a);
    } else {
      if a.RecoverDone? { assert s.history[..s.cut] == s.history; }
      DiskStepKeeps(ly, s, a);
    }
  }
}
