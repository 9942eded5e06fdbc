/**
 sleep, wakeup and kill, with acquiresleep and releasesleep on one sleep lock as their
 client: every step of every process, of the scheduler and of preemption. A step takes or
 gives up one spinlock, or makes the stores that one spinlock protects, such as locked and
 pid. A spinlock that is taken makes its caller spin: the step changes nothing.
 A process that has the lock may do whatever one without it may: sleep on another channel,
 be woken or killed there, wake and kill. An interrupt handler that calls wakeup is a
 process that does nothing else.
 */
module SleepLock {

  /** What a process sleeps on: this sleep lock, or something else. */
  datatype Chan = NoChan | TheLock | Elsewhere

  datatype RunState = Running | Runnable | Sleeping

  /** Who holds a process's spinlock: a process, the scheduler that has just switched the
      process out, or a scheduler that is looking at it. */
  datatype Holder = Free | By(p: nat) | Leaving | Looking

  /** Why a process scans the table: to wake the sleepers on the lock, or those on another
      channel, or to kill. */
  datatype Why = Release | Wakeup | Kill

  /** Where a process is in its code. */
  datatype Pc =
    // anywhere else, with the sleep lock or without it
    | Idle
    // acquiresleep
    | WantInner
    | Test
    | TakeLock
    | GotLock
    // sleep
    | SleepOwn
    | SleepRel
    | SetChan(chan: Chan)
    | SetState(chan: Chan)
    | SwitchOut(chan: Chan)
    | Asleep(chan: Chan)
    | Woken(chan: Chan)
    | SleepEnd(chan: Chan)
    // releasesleep
    | RelWant
    | RelClear
    // wakeup and kill
    | Scan(why: Why, j: nat)
    | ScanGot(why: Why, j: nat)
    | ScanDone(why: Why, j: nat)

  /** Where a process is in yield, if a timer interrupt took it there. */
  datatype Yield = NoYield | YieldOwn | YieldSet | YieldOut | YieldBack

  /** has says that the process has the sleep lock: it has returned, or is about to return,
      from acquiresleep and has not yet cleared lk->locked in releasesleep. */
  datatype Proc = Proc(pc: Pc, timer: Yield, state: RunState, chan: Chan, has: bool)

  /** inner is the sleep lock's spinlock; locks are the processes' spinlocks. */
  datatype State = State(inner: Holder, locked: bool, pid: nat, procs: seq<Proc>, locks: seq<Holder>)

  ghost function Init(n: nat): (s: State) {
    State(Free, false, 0, seq(n, _ => Proc(Idle, NoYield, Running, NoChan, false)), seq(n, _ => Free))
  }

  ghost predicate Sized(s: State) {
    |s.locks| == |s.procs|
  }

  // ------------------------------------------------------------------------ steps

  ghost function To(s: State, p: nat, pc: Pc): (s': State)
    requires p < |s.procs|
  {
    s.(procs := s.procs[p := s.procs[p].(pc := pc)])
  }

  ghost function Lock(s: State, j: nat, h: Holder): (s': State)
    requires j < |s.locks|
  {
    s.(locks := s.locks[j := h])
  }

  /** What a process may begin, whether or not it has the sleep lock: acquiresleep, a wakeup
      of another channel, a kill, releasesleep if it has the lock, or a sleep on another
      channel. */
  ghost function BeginStep(s: State, p: nat, choice: nat): (s': State)
    requires Sized(s) && p < |s.procs|
    ensures Sized(s') && |s'.procs| == |s.procs|
  {
    if choice == 0 then To(s, p, WantInner)
    else if choice == 1 then To(s, p, Scan(Wakeup, 0))
    else if choice == 2 then To(s, p, Scan(Kill, 0))
    else if choice == 3 && s.procs[p].has then To(s, p, RelWant)
    else if s.locks[p] == Free then To(Lock(s, p, By(p)), p, SetChan(Elsewhere))
    else s
  }

  /** acquiresleep, or something else that begins here. */
  ghost function AcquireStep(s: State, p: nat, choice: nat): (s': State)
    requires Sized(s) && p < |s.procs|
    ensures Sized(s') && |s'.procs| == |s.procs|
  {
    match s.procs[p].pc
    case Idle => BeginStep(s, p, choice)
    case WantInner => if s.inner == Free then To(s.(inner := By(p)), p, Test) else s
    case Test => if s.locked then To(s, p, SleepOwn) else To(s, p, TakeLock)
    case TakeLock => s.(locked := true, pid := p, procs := s.procs[p := s.procs[p].(pc := GotLock, has := true)])
    case GotLock => To(s.(inner := Free), p, Idle)
    case _ => s
  }

  /** releasesleep, up to its wakeup. */
  ghost function ReleaseStep(s: State, p: nat): (s': State)
    requires Sized(s) && p < |s.procs|
    ensures Sized(s') && |s'.procs| == |s.procs|
  {
    match s.procs[p].pc
    case RelWant => if s.inner == Free then To(s.(inner := By(p)), p, RelClear) else s
    case RelClear => s.(locked := false, pid := 0,
                        procs := s.procs[p := s.procs[p].(pc := Scan(Release, 0), has := false)])
    case _ => s
  }

  /** sleep. */
  ghost function SleepStep(s: State, p: nat): (s': State)
    requires Sized(s) && p < |s.procs|
    ensures Sized(s') && |s'.procs| == |s.procs|
  {
    match s.procs[p].pc
    case SleepOwn => if s.locks[p] == Free then To(Lock(s, p, By(p)), p, SleepRel) else s
    case SleepRel => To(s.(inner := Free), p, SetChan(TheLock))
    case SetChan(c) => s.(procs := s.procs[p := s.procs[p].(pc := SetState(c), chan := c)])
    case SetState(c) => s.(procs := s.procs[p := s.procs[p].(pc := SwitchOut(c), state := Sleeping)])
    case SwitchOut(c) => To(Lock(s, p, Leaving), p, Asleep(c))
    case Woken(c) => s.(procs := s.procs[p := s.procs[p].(pc := SleepEnd(c), chan := NoChan)])
    case SleepEnd(c) => To(Lock(s, p, Free), p, if c == TheLock then WantInner else Idle)
    case _ => s
  }

  /** wakeup and kill, the former with releasesleep's last step; choice says whether kill
      has found its victim. */
  ghost function ScanStep(s: State, p: nat, choice: nat): (s': State)
    requires Sized(s) && p < |s.procs|
    ensures Sized(s') && |s'.procs| == |s.procs|
  {
    match s.procs[p].pc
    case Scan(why, j) =>
      if j >= |s.procs| then To(if why == Release then s.(inner := Free) else s, p, Idle)
      else if j == p && why != Kill then To(s, p, Scan(why, j + 1))
      else if s.locks[j] == Free then To(Lock(s, j, By(p)), p, ScanGot(why, j))
      else s
    case ScanDone(why, j) =>
      if j < |s.procs| then To(Lock(s, j, Free), p, if why == Kill && choice == 0 then Idle else Scan(why, j + 1))
      else s
    case _ => s
  }

  ghost function RouseStep(s: State, p: nat, choice: nat): (s': State)
    requires Sized(s) && p < |s.procs|
    ensures Sized(s') && |s'.procs| == |s.procs|
  {
    var pc := s.procs[p].pc;
    if pc.ScanGot? && pc.j < |s.procs| then To(Rouse(s, pc.why, pc.j, choice), p, ScanDone(pc.why, pc.j)) else s
  }

  /** One step of process p's own code. */
  ghost function Advance(s: State, p: nat, choice: nat): (s': State)
    requires Sized(s) && p < |s.procs|
    ensures Sized(s') && |s'.procs| == |s.procs|
  {
    var pc := s.procs[p].pc;
    if AtAcquire(pc) then AcquireStep(s, p, choice)
    else if AtRelease(pc) then ReleaseStep(s, p)
    else if AtScan(pc) then ScanStep(s, p, choice)
    else if pc.ScanGot? then RouseStep(s, p, choice)
    else SleepStep(s, p)
  }

  ghost predicate AtAcquire(pc: Pc) {
    pc.Idle? || pc.WantInner? || pc.Test? || pc.TakeLock? || pc.GotLock?
  }

  ghost predicate AtRelease(pc: Pc) {
    pc.RelWant? || pc.RelClear?
  }

  ghost predicate AtScan(pc: Pc) {
    pc.Scan? || pc.ScanDone?
  }

  /** Does a scan wake process j? */
  ghost predicate Wakes(q: Proc, why: Why, choice: nat) {
    q.state.Sleeping? && match why
      case Release => q.chan == TheLock
      case Wakeup => q.chan == Elsewhere
      case Kill => choice == 0
  }

  ghost function Rouse(s: State, why: Why, j: nat, choice: nat): (s': State)
    requires j < |s.procs|
  {
    if Wakes(s.procs[j], why, choice) then s.(procs := s.procs[j := s.procs[j].(state := Runnable)]) else s
  }

  /** A timer interrupt can only come while the process holds no spinlock. */
  ghost predicate Interruptible(pc: Pc) {
    pc.Idle? || pc.WantInner? || pc.RelWant? || (pc.Scan? && pc.why != Release)
  }

  ghost function SetYield(s: State, p: nat, y: Yield, st: RunState): (s': State)
    requires p < |s.procs|
  {
    s.(procs := s.procs[p := s.procs[p].(timer := y, state := st)])
  }

  /** One step of yield in process p. */
  ghost function Preempt(s: State, p: nat): (s': State)
    requires Sized(s) && p < |s.procs|
    ensures Sized(s') && |s'.procs| == |s.procs|
  {
    var q := s.procs[p];
    match q.timer
    case NoYield =>
      if Interruptible(q.pc) && s.locks[p] == Free then SetYield(Lock(s, p, By(p)), p, YieldOwn, q.state) else s
    case YieldOwn => SetYield(s, p, YieldSet, Runnable)
    case YieldSet => SetYield(Lock(s, p, Leaving), p, YieldOut, q.state)
    case YieldOut => s
    case YieldBack => SetYield(Lock(s, p, Free), p, NoYield, q.state)
  }

  /** One step of a scheduler that deals with process p. */
  ghost function Schedule(s: State, p: nat): (s': State)
    requires Sized(s) && p < |s.procs|
    ensures Sized(s') && |s'.procs| == |s.procs|
  {
    var q := s.procs[p];
    match s.locks[p]
    case Free => Lock(s, p, Looking)
    case By(_) => s
    case Leaving => Lock(s, p, Free)
    case Looking =>
      if q.state != Runnable then Lock(s, p, Free)
      else if q.timer.YieldOut? then SetYield(Lock(s, p, By(p)), p, YieldBack, Running)
      else if q.pc.Asleep? then Lock(s, p, By(p)).(procs := s.procs[p := q.(pc := Woken(q.pc.chan), state := Running)])
      else s
  }

  datatype Event = Code(p: nat, choice: nat) | Timer(p: nat) | Scheduler(p: nat)

  ghost function Step(s: State, e: Event): (s': State)
    requires Sized(s)
    ensures Sized(s') && |s'.procs| == |s.procs|
  {
    if e.p >= |s.procs| then s
    else match e
      case Code(p, choice) => if s.procs[p].timer.NoYield? then Advance(s, p, choice) else s
      case Timer(p) => Preempt(s, p)
      case Scheduler(p) => Schedule(s, p)
  }

  ghost function Run(s: State, es: seq<Event>): (s': State)
    requires Sized(s)
    ensures Sized(s') && |s'.procs| == |s.procs|
  {
    if es == [] then s else Step(Run(s, es[..|es| - 1]), es[|es| - 1])
  }

  // -------------------------------------------------------------------- invariants

  /** The process holds the sleep lock's spinlock. */
  ghost predicate HoldsInner(pc: Pc) {
    match pc
    case Test | TakeLock | GotLock | SleepOwn | SleepRel | RelClear => true
    case Scan(why, _) => why == Release
    case ScanGot(why, _) => why == Release
    case ScanDone(why, _) => why == Release
    case _ => false
  }

  /** Process p holds process j's spinlock. */
  ghost predicate Holds(q: Proc, p: nat, j: nat) {
    || (j == p && (q.timer.YieldOwn? || q.timer.YieldSet? || q.timer.YieldBack? || OwnPc(q.pc)))
    || ((q.pc.ScanGot? || q.pc.ScanDone?) && q.pc.j == j)
  }

  ghost predicate OwnPc(pc: Pc) {
    pc.SleepRel? || pc.SetChan? || pc.SetState? || pc.SwitchOut? || pc.Woken? || pc.SleepEnd?
  }

  ghost function ChanOf(pc: Pc): (c: Chan) {
    match pc
    case SetState(c) => c
    case SwitchOut(c) => c
    case Asleep(c) => c
    case Woken(c) => c
    case _ => NoChan
  }

  /** The process's fields fit the place it is in. */
  ghost predicate Fits(q: Proc) {
    && q.chan == ChanOf(q.pc)
    && (q.timer != NoYield ==> Interruptible(q.pc))
    && (q.state.Sleeping? ==> q.pc.SwitchOut? || q.pc.Asleep?)
    && (q.pc.SwitchOut? ==> q.state.Sleeping?)
    && (q.pc.Asleep? ==> q.state != Running)
    && (q.state.Runnable? <==> (q.pc.Asleep? && q.state != Sleeping) || q.timer.YieldSet? || q.timer.YieldOut?)
  }

  /** The process has found the lock taken and is on its way to sleep, or asleep. */
  ghost predicate Bound(q: Proc) {
    || q.pc.SleepOwn? || q.pc.SleepRel? || q.pc == SetChan(TheLock) || q.pc == SetState(TheLock)
    || (q.state.Sleeping? && (q.pc == SwitchOut(TheLock) || q.pc == Asleep(TheLock)))
  }

  /** A scan for releasesleep that has not come past process p. */
  ghost predicate Ahead(pc: Pc, p: nat) {
    match pc
    case Scan(why, j) => why == Release && j <= p
    case ScanGot(why, j) => why == Release && j <= p
    case ScanDone(why, j) => why == Release && j < p
    case _ => false
  }

  ghost predicate WillWake(s: State, p: nat) {
    s.inner.By? && s.inner.p < |s.procs| && Ahead(s.procs[s.inner.p].pc, p)
  }

  ghost predicate ProcInv(s: State, p: nat)
    requires p < |s.procs|
  {
    var q := s.procs[p];
    && Fits(q)
    && (s.inner == By(p) <==> HoldsInner(q.pc))
    && (q.has ==> s.locked && s.pid == p)
    && (q.pc.GotLock? || q.pc.RelWant? || q.pc.RelClear? ==> q.has)
    && (q.pc.TakeLock? ==> !s.locked)
    && (Bound(q) ==> s.locked || WillWake(s, p))
  }

  ghost predicate LockInv(s: State, p: nat, j: nat)
    requires Sized(s) && p < |s.procs| && j < |s.procs|
  {
    s.locks[j] == By(p) <==> Holds(s.procs[p], p, j)
  }

  ghost predicate Globals(s: State) {
    && Sized(s)
    && (s.inner == Free || (s.inner.By? && s.inner.p < |s.procs|))
    && (s.locked ==> s.pid < |s.procs| && s.procs[s.pid].has)
  }

  ghost predicate LocksInv(s: State) {
    Sized(s) && forall p, j :: 0 <= p < |s.procs| && 0 <= j < |s.procs| ==> LockInv(s, p, j)
  }

  ghost predicate Inv(s: State) {
    Globals(s) && (forall p :: 0 <= p < |s.procs| ==> ProcInv(s, p)) && LocksInv(s)
  }

  lemma InitInv(n: nat)
    ensures Inv(Init(n))
  {
  }

  // Each step keeps the invariant of one process, of one pair, and the global part.

  lemma AcquireProc(s: State, p: nat, choice: nat, k: nat)
    requires Globals(s) && p < |s.procs| && k < |s.procs| && s.procs[p].timer.NoYield? && ProcInv(s, k) && ProcInv(s, p)
    requires AtAcquire(s.procs[p].pc)
    ensures ProcInv(AcquireStep(s, p, choice), k)
  {
    if k == p {
    } else {
      hide Interruptible;
    }
  }

  lemma AcquireLocks(s: State, p: nat, choice: nat, k: nat, j: nat)
    requires Globals(s) && p < |s.procs| && k < |s.procs| && j < |s.procs| && s.procs[p].timer.NoYield?
    requires Fits(s.procs[p])
    requires AtAcquire(s.procs[p].pc)
    requires LockInv(s, k, j) && LockInv(s, p, j) && LockInv(s, p, p)
    ensures LockInv(AcquireStep(s, p, choice), k, j)
  {
    hide HoldsInner, Bound, Ahead, WillWake, BeginStep;
    if s.procs[p].pc.Idle? {
      BeginLocks(s, p, choice, k, j);
    }
  }

  lemma BeginLocks(s: State, p: nat, choice: nat, k: nat, j: nat)
    requires Globals(s) && p < |s.procs| && k < |s.procs| && j < |s.procs| && s.procs[p].timer.NoYield?
    requires s.procs[p].pc.Idle?
    requires LockInv(s, k, j) && LockInv(s, p, j) && LockInv(s, p, p)
    ensures LockInv(BeginStep(s, p, choice), k, j)
  {
    hide HoldsInner, Bound, Ahead, WillWake;
  }

  lemma AcquireGlobals(s: State, p: nat, choice: nat)
    requires Globals(s) && p < |s.procs| && ProcInv(s, p) && s.procs[p].timer.NoYield?
    requires AtAcquire(s.procs[p].pc)
    ensures Globals(AcquireStep(s, p, choice))
  {
  }

  lemma ReleaseProc(s: State, p: nat, k: nat)
    requires Globals(s) && p < |s.procs| && k < |s.procs| && s.procs[p].timer.NoYield? && ProcInv(s, k) && ProcInv(s, p)
    requires AtRelease(s.procs[p].pc)
    ensures ProcInv(ReleaseStep(s, p), k)
  {
  }

  lemma ReleaseLocks(s: State, p: nat, k: nat, j: nat)
    requires Globals(s) && p < |s.procs| && k < |s.procs| && j < |s.procs| && s.procs[p].timer.NoYield?
    requires Fits(s.procs[p])
    requires AtRelease(s.procs[p].pc)
    requires LockInv(s, k, j) && LockInv(s, p, j) && LockInv(s, p, p)
    ensures LockInv(ReleaseStep(s, p), k, j)
  {
    hide HoldsInner, Bound, Ahead, WillWake;
  }

  lemma ReleaseGlobals(s: State, p: nat)
    requires Globals(s) && p < |s.procs| && ProcInv(s, p) && s.procs[p].timer.NoYield?
    requires AtRelease(s.procs[p].pc)
    ensures Globals(ReleaseStep(s, p))
  {
  }

  lemma SleepProc(s: State, p: nat, k: nat)
    requires Globals(s) && p < |s.procs| && k < |s.procs| && s.procs[p].timer.NoYield? && ProcInv(s, k) && ProcInv(s, p)
    requires !AtAcquire(s.procs[p].pc) && !AtRelease(s.procs[p].pc) && !AtScan(s.procs[p].pc) && !s.procs[p].pc.ScanGot?
    ensures ProcInv(SleepStep(s, p), k)
  {
    hide ProcInv, SleepStep;
    var pc := s.procs[p].pc;
    if pc.SleepOwn? || pc.SleepRel? || pc.SetChan? {
      GoToSleepProc(s, p, k);
    } else {
      SleepRestProc(s, p, k);
    }
  }

  lemma GoToSleepProc(s: State, p: nat, k: nat)
    requires Globals(s) && p < |s.procs| && k < |s.procs| && s.procs[p].timer.NoYield? && ProcInv(s, k) && ProcInv(s, p)
    requires s.procs[p].pc.SleepOwn? || s.procs[p].pc.SleepRel? || s.procs[p].pc.SetChan?
    ensures ProcInv(SleepStep(s, p), k)
  {
    if k == p {
    } else {
      hide Interruptible;
    }
  }

  lemma SleepRestProc(s: State, p: nat, k: nat)
    requires Globals(s) && p < |s.procs| && k < |s.procs| && s.procs[p].timer.NoYield? && ProcInv(s, k) && ProcInv(s, p)
    requires !AtAcquire(s.procs[p].pc) && !AtRelease(s.procs[p].pc) && !AtScan(s.procs[p].pc) && !s.procs[p].pc.ScanGot?
    requires !s.procs[p].pc.SleepOwn? && !s.procs[p].pc.SleepRel? && !s.procs[p].pc.SetChan?
    ensures ProcInv(SleepStep(s, p), k)
  {
    if k == p {
    } else {
      hide Interruptible;
    }
  }

  lemma SleepLocks(s: State, p: nat, k: nat, j: nat)
    requires Globals(s) && p < |s.procs| && k < |s.procs| && j < |s.procs| && s.procs[p].timer.NoYield?
    requires Fits(s.procs[p])
    requires !AtAcquire(s.procs[p].pc) && !AtRelease(s.procs[p].pc) && !AtScan(s.procs[p].pc) && !s.procs[p].pc.ScanGot?
    requires LockInv(s, k, j) && LockInv(s, p, j) && LockInv(s, p, p)
    ensures LockInv(SleepStep(s, p), k, j)
  {
    hide HoldsInner, Bound, Ahead, WillWake;
  }

  lemma SleepGlobals(s: State, p: nat)
    requires Globals(s) && p < |s.procs| && ProcInv(s, p) && s.procs[p].timer.NoYield?
    requires !AtAcquire(s.procs[p].pc) && !AtRelease(s.procs[p].pc) && !AtScan(s.procs[p].pc) && !s.procs[p].pc.ScanGot?
    ensures Globals(SleepStep(s, p))
  {
  }

  lemma ScanProc(s: State, p: nat, choice: nat, k: nat)
    requires Globals(s) && p < |s.procs| && k < |s.procs| && s.procs[p].timer.NoYield? && ProcInv(s, k) && ProcInv(s, p)
    requires AtScan(s.procs[p].pc)
    requires var j := s.procs[p].pc.j; j < |s.procs| ==> LockInv(s, j, j) && LockInv(s, p, j)
    ensures ProcInv(ScanStep(s, p, choice), k)
  {
    if k == p {
    } else {
      hide Interruptible;
    }
  }

  lemma ScanLocks(s: State, p: nat, choice: nat, k: nat, j: nat)
    requires Globals(s) && p < |s.procs| && k < |s.procs| && j < |s.procs| && s.procs[p].timer.NoYield?
    requires Fits(s.procs[p])
    requires AtScan(s.procs[p].pc)
    requires LockInv(s, k, j) && LockInv(s, p, j) && LockInv(s, p, p)
    ensures LockInv(ScanStep(s, p, choice), k, j)
  {
    hide HoldsInner, Bound, Ahead, WillWake;
  }

  lemma ScanGlobals(s: State, p: nat, choice: nat)
    requires Globals(s) && p < |s.procs| && ProcInv(s, p) && s.procs[p].timer.NoYield?
    requires AtScan(s.procs[p].pc)
    ensures Globals(ScanStep(s, p, choice))
  {
  }

  lemma RouseProc(s: State, p: nat, choice: nat, k: nat)
    requires Globals(s) && p < |s.procs| && k < |s.procs| && s.procs[p].timer.NoYield? && ProcInv(s, k) && ProcInv(s, p)
    requires s.procs[p].pc.ScanGot?
    requires var j := s.procs[p].pc.j; j < |s.procs| ==> ProcInv(s, j) && LockInv(s, j, j) && LockInv(s, p, j)
    ensures ProcInv(RouseStep(s, p, choice), k)
  {
    if k == p {
    } else {
      hide Interruptible;
    }
  }

  lemma RouseLocks(s: State, p: nat, choice: nat, k: nat, j: nat)
    requires Globals(s) && p < |s.procs| && k < |s.procs| && j < |s.procs| && s.procs[p].timer.NoYield?
    requires Fits(s.procs[p])
    requires s.procs[p].pc.ScanGot?
    requires LockInv(s, k, j) && LockInv(s, p, j) && LockInv(s, p, p)
    ensures LockInv(RouseStep(s, p, choice), k, j)
  {
    hide HoldsInner, Bound, Ahead, WillWake;
  }

  lemma RouseGlobals(s: State, p: nat, choice: nat)
    requires Globals(s) && p < |s.procs| && ProcInv(s, p) && s.procs[p].timer.NoYield?
    requires s.procs[p].pc.ScanGot?
    ensures Globals(RouseStep(s, p, choice))
  {
  }

  lemma PreemptProc(s: State, p: nat, k: nat)
    requires Globals(s) && p < |s.procs| && k < |s.procs| && ProcInv(s, k) && ProcInv(s, p)
    ensures ProcInv(Preempt(s, p), k)
  {
  }

  lemma PreemptLocks(s: State, p: nat, k: nat, j: nat)
    requires Globals(s) && p < |s.procs| && k < |s.procs| && j < |s.procs| && Fits(s.procs[p])
    requires LockInv(s, k, j) && LockInv(s, p, j) && LockInv(s, p, p)
    ensures LockInv(Preempt(s, p), k, j)
  {
    hide HoldsInner, Bound, Ahead, WillWake;
  }

  lemma PreemptGlobals(s: State, p: nat)
    requires Globals(s) && p < |s.procs| && ProcInv(s, p)
    ensures Globals(Preempt(s, p))
  {
  }

  lemma ScheduleProc(s: State, p: nat, k: nat)
    requires Globals(s) && p < |s.procs| && k < |s.procs| && ProcInv(s, k) && ProcInv(s, p)
    requires LockInv(s, p, p)
    ensures ProcInv(Schedule(s, p), k)
  {
  }

  lemma ScheduleLocks(s: State, p: nat, k: nat, j: nat)
    requires Globals(s) && p < |s.procs| && k < |s.procs| && j < |s.procs| && Fits(s.procs[p])
    requires LockInv(s, k, j) && LockInv(s, p, j) && LockInv(s, p, p)
    ensures LockInv(Schedule(s, p), k, j)
  {
    hide HoldsInner, Bound, Ahead, WillWake;
  }

  lemma ScheduleGlobals(s: State, p: nat)
    requires Globals(s) && p < |s.procs| && ProcInv(s, p)
    ensures Globals(Schedule(s, p))
  {
  }

  lemma AdvanceInv(s: State, p: nat, choice: nat)
    requires Inv(s) && p < |s.procs| && s.procs[p].timer.NoYield?
    ensures Inv(Advance(s, p, choice))
  {
    hide ProcInv, LockInv, Globals, AcquireStep, ReleaseStep, ScanStep, RouseStep, SleepStep;
    var pc := s.procs[p].pc;
    if AtAcquire(pc) {
      AcquireInv(s, p, choice);
    } else if AtRelease(pc) {
      ReleaseInv(s, p);
    } else if AtScan(pc) {
      ScanInv(s, p, choice);
    } else if pc.ScanGot? {
      RouseInv(s, p, choice);
    } else {
      SleepInv(s, p);
    }
  }

  lemma AcquireInv(s: State, p: nat, choice: nat)
    requires Inv(s) && p < |s.procs|
    requires s.procs[p].timer.NoYield? && AtAcquire(s.procs[p].pc)
    ensures Inv(AcquireStep(s, p, choice))
  {
    hide ProcInv, LockInv, Globals, AcquireStep, Fits;
    var s' := AcquireStep(s, p, choice);
    assert ProcInv(s, p) && LockInv(s, p, p);
    AcquireGlobals(s, p, choice);
    forall k | 0 <= k < |s'.procs| ensures ProcInv(s', k) {
      AcquireProc(s, p, choice, k);
    }
    FitsOf(s, p);
    forall k, j | 0 <= k < |s'.procs| && 0 <= j < |s'.procs| ensures LockInv(s', k, j) {
      AcquireLocks(s, p, choice, k, j);
    }
  }

  lemma ReleaseInv(s: State, p: nat)
    requires Inv(s) && p < |s.procs|
    requires s.procs[p].timer.NoYield? && AtRelease(s.procs[p].pc)
    ensures Inv(ReleaseStep(s, p))
  {
    hide ProcInv, LockInv, Globals, ReleaseStep, Fits;
    var s' := ReleaseStep(s, p);
    assert ProcInv(s, p) && LockInv(s, p, p);
    ReleaseGlobals(s, p);
    forall k | 0 <= k < |s'.procs| ensures ProcInv(s', k) {
      ReleaseProc(s, p, k);
    }
    FitsOf(s, p);
    forall k, j | 0 <= k < |s'.procs| && 0 <= j < |s'.procs| ensures LockInv(s', k, j) {
      ReleaseLocks(s, p, k, j);
    }
  }

  lemma SleepInv(s: State, p: nat)
    requires Inv(s) && p < |s.procs|
    requires s.procs[p].timer.NoYield? && !AtAcquire(s.procs[p].pc) && !AtRelease(s.procs[p].pc)
    requires !AtScan(s.procs[p].pc) && !s.procs[p].pc.ScanGot?
    ensures Inv(SleepStep(s, p))
  {
    hide ProcInv, LockInv, Globals, SleepStep, Fits;
    var s' := SleepStep(s, p);
    assert ProcInv(s, p) && LockInv(s, p, p);
    SleepGlobals(s, p);
    forall k | 0 <= k < |s'.procs| ensures ProcInv(s', k) {
      SleepProc(s, p, k);
    }
    FitsOf(s, p);
    forall k, j | 0 <= k < |s'.procs| && 0 <= j < |s'.procs| ensures LockInv(s', k, j) {
      SleepLocks(s, p, k, j);
    }
  }

  lemma ScanInv(s: State, p: nat, choice: nat)
    requires Inv(s) && p < |s.procs|
    requires s.procs[p].timer.NoYield? && AtScan(s.procs[p].pc)
    ensures Inv(ScanStep(s, p, choice))
  {
    hide ProcInv, LockInv, Globals, ScanStep, Fits;
    var s' := ScanStep(s, p, choice);
    assert ProcInv(s, p) && LockInv(s, p, p);
    ScanGlobals(s, p, choice);
    forall k | 0 <= k < |s'.procs| ensures ProcInv(s', k) {
      ScanProc(s, p, choice, k);
    }
    FitsOf(s, p);
    forall k, j | 0 <= k < |s'.procs| && 0 <= j < |s'.procs| ensures LockInv(s', k, j) {
      ScanLocks(s, p, choice, k, j);
    }
  }

  lemma RouseInv(s: State, p: nat, choice: nat)
    requires Inv(s) && p < |s.procs|
    requires s.procs[p].timer.NoYield? && s.procs[p].pc.ScanGot?
    ensures Inv(RouseStep(s, p, choice))
  {
    hide ProcInv, LockInv, Globals, RouseStep, Fits;
    var s' := RouseStep(s, p, choice);
    assert ProcInv(s, p) && LockInv(s, p, p);
    RouseGlobals(s, p, choice);
    forall k | 0 <= k < |s'.procs| ensures ProcInv(s', k) {
      RouseProc(s, p, choice, k);
    }
    FitsOf(s, p);
    forall k, j | 0 <= k < |s'.procs| && 0 <= j < |s'.procs| ensures LockInv(s', k, j) {
      RouseLocks(s, p, choice, k, j);
    }
  }

  lemma PreemptInv(s: State, p: nat)
    requires Inv(s) && p < |s.procs|
    ensures Inv(Preempt(s, p))
  {
    hide ProcInv, LockInv, Globals, Preempt, Fits;
    var s' := Preempt(s, p);
    assert ProcInv(s, p) && LockInv(s, p, p);
    PreemptGlobals(s, p);
    forall k | 0 <= k < |s'.procs| ensures ProcInv(s', k) {
      PreemptProc(s, p, k);
    }
    FitsOf(s, p);
    forall k, j | 0 <= k < |s'.procs| && 0 <= j < |s'.procs| ensures LockInv(s', k, j) {
      PreemptLocks(s, p, k, j);
    }
  }

  lemma ScheduleInv(s: State, p: nat)
    requires Inv(s) && p < |s.procs|
    ensures Inv(Schedule(s, p))
  {
    hide ProcInv, LockInv, Globals, Schedule, Fits;
    var s' := Schedule(s, p);
    assert ProcInv(s, p) && LockInv(s, p, p);
    ScheduleGlobals(s, p);
    forall k | 0 <= k < |s'.procs| ensures ProcInv(s', k) {
      ScheduleProc(s, p, k);
    }
    FitsOf(s, p);
    forall k, j | 0 <= k < |s'.procs| && 0 <= j < |s'.procs| ensures LockInv(s', k, j) {
      ScheduleLocks(s, p, k, j);
    }
  }

  lemma FitsOf(s: State, p: nat)
    requires p < |s.procs| && ProcInv(s, p)
    ensures Fits(s.procs[p])
  {
  }

  lemma {:induction false} RunInv(n: nat, es: seq<Event>)
    ensures Inv(Run(Init(n), es))
  {
    hide Inv, Advance, Preempt, Schedule;
    if es == [] {
      InitInv(n);
    } else {
      var e, s := es[|es| - 1], Run(Init(n), es[..|es| - 1]);
      RunInv(n, es[..|es| - 1]);
      StepInv(s, e);
    }
  }

  lemma StepInv(s: State, e: Event)
    requires Inv(s)
    ensures Inv(Step(s, e))
  {
    hide ProcInv, LocksInv, Advance, Preempt, Schedule;
    if e.p < |s.procs| {
      match e
      case Code(p, choice) => if s.procs[p].timer.NoYield? { AdvanceInv(s, p, choice); }
      case Timer(p) => PreemptInv(s, p);
      case Scheduler(p) => ScheduleInv(s, p);
    }
  }

  /** No wakeup is lost: over every interleaving, whenever the sleep lock's spinlock is free
      and the sleep lock is not held, no process sleeps on it. */
  lemma NoLostWakeup(n: nat, es: seq<Event>, p: nat)
    requires p < n
    ensures var s := Run(Init(n), es);
            s.inner == Free && !s.locked ==> !(s.procs[p].state.Sleeping? && s.procs[p].chan == TheLock)
  {
    hide Run;
    RunInv(n, es);
    var s := Run(Init(n), es);
    assert ProcInv(s, p);
  }

  /** Over every interleaving at most one process has the sleep lock, and it is the one the
      lock names. */
  lemma MutualExclusion(n: nat, es: seq<Event>, p: nat, q: nat)
    requires p < n && q < n
    ensures var s := Run(Init(n), es);
            && (s.procs[p].has && s.procs[q].has ==> p == q)
            && (s.procs[p].has ==> s.locked && s.pid == p)
  {
    hide Run;
    RunInv(n, es);
    var s := Run(Init(n), es);
    assert ProcInv(s, p) && ProcInv(s, q);
  }

  /** Over every interleaving a process's spinlock is held by no more than one process, and
      never by a process that is switched out. */
  lemma SpinlocksExclusive(n: nat, es: seq<Event>, p: nat, q: nat, j: nat)
    requires p < n && q < n && j < n
    ensures var s := Run(Init(n), es);
            && (Holds(s.procs[p], p, j) && Holds(s.procs[q], q, j) ==> p == q)
            && (Holds(s.procs[p], p, j) ==> !s.procs[p].pc.Asleep? && s.procs[p].timer != YieldOut)
  {
    hide Run;
    RunInv(n, es);
    var s := Run(Init(n), es);
    assert LockInv(s, p, j) && LockInv(s, q, j) && ProcInv(s, p);
  }

  /** The states above are not only those in which the holder runs: it can sleep on another
      channel while it has the lock, as bread does in virtio_disk_rw. */
  lemma HolderMaySleep()
    ensures var s := Run(Init(1), Codes(8));
            s.locked && s.pid == 0 && s.procs[0].has && s.procs[0].state.Sleeping? && s.procs[0].chan == Elsewhere
  {
    hide Run, Step;
    HolderGets();
    var back := State(Free, true, 0, [Proc(Idle, NoYield, Running, NoChan, true)], [Free]);
    var q := Proc(SetChan(Elsewhere), NoYield, Running, NoChan, true);
    var a, b := State(Free, true, 0, [q], [By(0)]),
      State(Free, true, 0, [q.(pc := SetState(Elsewhere), chan := Elsewhere)], [By(0)]);
    var c := State(Free, true, 0, [q.(pc := SwitchOut(Elsewhere), chan := Elsewhere, state := Sleeping)], [By(0)]);
    SleepsElsewhere(back, a, b, c);
    Then(5, back, a);
    Then(6, a, b);
    Then(7, b, c);
  }

  lemma SleepsElsewhere(back: State, a: State, b: State, c: State)
    requires back == State(Free, true, 0, [Proc(Idle, NoYield, Running, NoChan, true)], [Free])
    requires a == State(Free, true, 0, [Proc(SetChan(Elsewhere), NoYield, Running, NoChan, true)], [By(0)])
    requires b == State(Free, true, 0, [Proc(SetState(Elsewhere), NoYield, Running, Elsewhere, true)], [By(0)])
    requires c == State(Free, true, 0, [Proc(SwitchOut(Elsewhere), NoYield, Sleeping, Elsewhere, true)], [By(0)])
    ensures Step(back, Code(0, 4)) == a && Step(a, Code(0, 0)) == b && Step(b, Code(0, 0)) == c
  {
  }

  lemma HolderGets()
    ensures Run(Init(1), Codes(5)) == State(Free, true, 0, [Proc(Idle, NoYield, Running, NoChan, true)], [Free])
  {
    hide Run;
    var p := Proc(Idle, NoYield, Running, NoChan, false);
    var s0 := State(Free, false, 0, [p], [Free]);
    var got := State(By(0), true, 0, [Proc(GotLock, NoYield, Running, NoChan, true)], [Free]);
    var back := State(Free, true, 0, [Proc(Idle, NoYield, Running, NoChan, true)], [Free]);
    assert Init(1) == s0 && Run(s0, Codes(0)) == s0 by { StartOf(); }
    Then(0, s0, s0.(procs := [p.(pc := WantInner)]));
    Then(1, s0.(procs := [p.(pc := WantInner)]), s0.(inner := By(0), procs := [p.(pc := Test)]));
    Then(2, s0.(inner := By(0), procs := [p.(pc := Test)]), s0.(inner := By(0), procs := [p.(pc := TakeLock)]));
    Then(3, s0.(inner := By(0), procs := [p.(pc := TakeLock)]), got);
    Then(4, got, back);
  }

  ghost function Codes(n: nat): (es: seq<Event>) {
    seq(n, k => Code(0, if k == 5 then 4 else 0))
  }

  lemma StartOf()
    ensures Init(1) == State(Free, false, 0, [Proc(Idle, NoYield, Running, NoChan, false)], [Free])
    ensures Run(Init(1), Codes(0)) == Init(1)
  {
  }

  lemma Then(n: nat, s: State, s': State)
    requires Run(Init(1), Codes(n)) == s && Sized(s) && Step(s, Code(0, if n == 5 then 4 else 0)) == s'
    ensures Run(Init(1), Codes(n + 1)) == s'
  {
    assert Codes(n + 1)[..n] == Codes(n);
  }
}
