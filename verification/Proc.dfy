/**
 The life of processes: the scheduler on every CPU, fork, exit, wait, yield, sleep and
 wakeup. A step takes or gives up one lock, or makes the stores that one lock protects, such
 as allocproc's state and pid. Spinlocks belong to CPUs, as in the kernel, and pass with the
 CPU across a context switch. A step that finds its spinlock taken changes nothing.
 */
module Proc {

  datatype Opt = None | Some(v: nat)

  datatype RunState = UNUSED | USED | SLEEPING | RUNNABLE | RUNNING | ZOMBIE

  /** Where a process is in its code. */
  datatype Pc =
    | Off
    | User
    // fork: the table scan of allocproc, the new process j, and publishing it
    | ForkScan(j: nat)
    | ForkGot(j: nat)
    | ForkSkip(j: nat)
    | ForkMade(j: nat)
    | ForkDrop(j: nat)
    | ForkRel(j: nat)
    | ForkWait(j: nat)
    | ForkParent(j: nat)
    | ForkUnwait(j: nat)
    | ForkLock(j: nat)
    | ForkReady(j: nat)
    | ForkEnd(j: nat)
    // exit
    | ExitWait
    | ExitGive(j: nat)
    | ExitOwn
    | ExitZombie
    | ExitUnwait
    | ExitSwitch
    | Dead
    // wait
    | WaitLock
    | WaitScan(j: nat, kids: bool)
    | WaitGot(j: nat)
    | WaitSkip(j: nat)
    | WaitFree(j: nat)
    | WaitUnused(j: nat)
    | WaitDrop(j: nat)
    | WaitUnlock
    | WaitOwn
    | WaitRel
    | WaitSleep
    | WaitSwitch
    | WaitOut
    | WaitBack

  /** Where a process is in a yield, or in a sleep other than wait's. */
  datatype Pause = Going | PauseOwn | PauseSet | PauseOut | PauseBack

  /** Where a process is in waking process j. In exit the wakeups are on the channel of the
      process t and look at the whole table; others are one look of some wakeup or kill. */
  datatype Wake = NoWake | WakeNext(j: nat, t: nat) | WakeGot(j: nat, to: Opt) | WakeDone(j: nat, to: Opt)

  /** chan is the process whose record is the channel the process sleeps on; it is None on all
      other channels. on is the CPU that runs the process or is switching it in or out; maker
      is the process whose fork is preparing this one. Both only record what the steps did. */
  datatype Process = Process(pc: Pc, pause: Pause, wake: Wake, state: RunState, chan: Opt, parent: Opt, pid: nat,
                             on: Opt, maker: Opt)

  /** What a CPU executes: its scheduler, at some point, or process p. */
  datatype Context = Loop | Got(p: nat) | Ran(p: nat) | Switch(p: nat) | In(p: nat) | Back(p: nat) | Rel(p: nat)

  /** proc is the field c->proc. */
  datatype Cpu = Cpu(ctx: Context, proc: Opt)

  /** The spinlocks name the CPU that holds them. reaped lists the pids wait has freed. */
  datatype State = State(procs: seq<Process>, locks: seq<Opt>, waitLock: Opt, cpus: seq<Cpu>, nextPid: nat,
                         reaped: seq<nat>)

  ghost predicate Sized(s: State) {
    |s.locks| == |s.procs| && |s.procs| > 0
  }

  const EMPTY := Process(Off, Going, NoWake, UNUSED, None, None, 0, None, None)

  const FIRST := Process(User, PauseOut, NoWake, RUNNABLE, None, None, 1, None, None)

  /** After userinit: process 0 is init, ready to run. */
  ghost function Init(n: nat, cpus: nat): (s: State)
    requires n > 0
    ensures Sized(s) && |s.procs| == n && |s.cpus| == cpus
  {
    State(seq(n, i => if i == 0 then FIRST else EMPTY), seq(n, _ => None), None, seq(cpus, _ => Cpu(Loop, None)), 2, [])
  }

  // ------------------------------------------------------------------------ steps

  /** A step of process p on CPU c, of n processes, that concerns process j. */
  datatype Who = Who(c: nat, p: nat, n: nat, j: nat, nextPid: nat)

  /** What the step reads and writes: its own record q, the other process's record and
      spinlock, wait_lock, and what the CPU executes. */
  datatype View = View(w: Who, q: Process, other: Process, lock: Opt, wait: Opt, ctx: Context)
  {
    ghost function To(pc: Pc): (v: View) {
      this.(q := q.(pc := pc))
    }

    ghost function Take(pc: Pc): (v: View) {
      if lock.None? then this.(lock := Some(w.c), q := q.(pc := pc)) else this
    }

    ghost function Drop(pc: Pc): (v: View) {
      this.(lock := None, q := q.(pc := pc))
    }

    ghost function TakeWait(pc: Pc): (v: View) {
      if wait.None? then this.(wait := Some(w.c), q := q.(pc := pc)) else this
    }

    ghost function DropWait(pc: Pc): (v: View) {
      this.(wait := None, q := q.(pc := pc))
    }

    /** Calls wakeup on the channel of a process; nothing sleeps on no channel. */
    ghost function Wakeup(t: Opt): (v: View) {
      this.(q := q.(wake := if t.Some? then WakeNext(0, t.v) else NoWake))
    }
  }

  /** allocproc, for fork; choice says whether an allocation or the copy fails. */
  ghost function ForkStep(v: View, choice: nat): (v': View) {
    match v.q.pc
    case ForkScan(j) => if j >= v.w.n then v.To(User) else v.Take(ForkGot(j))
    case ForkGot(j) =>
      if v.other.state.UNUSED?
      then v.(other := v.other.(state := USED, pid := v.w.nextPid, maker := Some(v.w.p))).To(ForkMade(j))
      else v.To(ForkSkip(j))
    case ForkSkip(j) => v.Drop(ForkScan(j + 1))
    case ForkMade(j) =>
      if choice == 0 then v.(other := v.other.(state := UNUSED, maker := None)).To(ForkDrop(j)) else v.To(ForkRel(j))
    case ForkDrop(j) => v.Drop(User)
    case _ => v
  }

  /** fork's second half: naming the parent and making the new process runnable. */
  ghost function PublishStep(v: View): (v': View) {
    match v.q.pc
    case ForkRel(j) => v.Drop(ForkWait(j))
    case ForkWait(j) => v.TakeWait(ForkParent(j))
    case ForkParent(j) => v.(other := v.other.(parent := Some(v.w.p))).To(ForkUnwait(j))
    case ForkUnwait(j) => v.DropWait(ForkLock(j))
    case ForkLock(j) => v.Take(ForkReady(j))
    case ForkReady(j) =>
      v.(other := v.other.(state := RUNNABLE, maker := None, pc := User, pause := PauseOut)).To(ForkEnd(j))
    case ForkEnd(j) => v.Drop(User)
    case _ => v
  }

  /** exit; reparent gives the children to init. Each wakeup is run by WakeStep before the
      next step here. */
  ghost function ExitStep(v: View): (v': View) {
    match v.q.pc
    case ExitWait => v.TakeWait(ExitGive(0))
    case ExitGive(j) =>
      if j >= v.w.n then v.Wakeup(v.q.parent).To(ExitOwn)
      else if v.other.parent == Some(v.w.p)
      then v.(other := v.other.(parent := Some(0))).Wakeup(Some(0)).To(ExitGive(j + 1))
      else v.To(ExitGive(j + 1))
    case ExitOwn => v.Take(ExitZombie)
    case ExitZombie => v.(q := v.q.(state := ZOMBIE, pc := ExitUnwait))
    case ExitUnwait => v.DropWait(ExitSwitch)
    case ExitSwitch => v.(ctx := Back(v.w.p)).To(Dead)
    case _ => v
  }

  /** wait, which notes whether it has seen a child; choice says whether copyout fails, and
      whether the process has been killed. */
  ghost function WaitStep(v: View, choice: nat): (v': View) {
    match v.q.pc
    case WaitLock => v.TakeWait(WaitScan(0, false))
    case WaitScan(j, kids) =>
      if j >= v.w.n then v.To(if !kids || choice == 0 then WaitUnlock else WaitOwn)
      else if v.other.parent != Some(v.w.p) then v.To(WaitScan(j + 1, kids))
      else v.Take(WaitGot(j))
    case WaitGot(j) =>
      v.To(if !v.other.state.ZOMBIE? then WaitSkip(j) else if choice == 0 then WaitDrop(j) else WaitFree(j))
    case WaitSkip(j) => v.Drop(WaitScan(j + 1, true))
    case WaitFree(j) => v.(other := v.other.(parent := None)).To(WaitUnused(j))
    case WaitUnused(j) => v.(other := v.other.(state := UNUSED, chan := None, pc := Off)).To(WaitDrop(j))
    case WaitDrop(j) => v.Drop(WaitUnlock)
    case WaitUnlock => v.DropWait(User)
    case _ => v
  }

  /** wait's sleep, which releases wait_lock once it holds the process's spinlock. */
  ghost function DozeStep(v: View): (v': View) {
    match v.q.pc
    case WaitOwn => v.Take(WaitRel)
    case WaitRel => v.DropWait(WaitSleep)
    case WaitSleep => v.(q := v.q.(state := SLEEPING, chan := Some(v.w.p), pc := WaitSwitch))
    case WaitSwitch => v.(ctx := Back(v.w.p)).To(WaitOut)
    case WaitBack => v.(q := v.q.(chan := None)).Drop(WaitLock)
    case _ => v
  }

  /** What a process in user space begins next; init never exits. */
  ghost function BeginStep(v: View, choice: nat): (v': View) {
    if choice == 0 then v.To(ForkScan(0)) else if choice == 1 then v.To(WaitLock)
    else if v.w.p != 0 then v.To(ExitWait) else v
  }

  /** No spinlock is held here, so a timer interrupt may come, or the process may sleep. */
  ghost predicate Calm(pc: Pc) {
    pc.User? || pc.ForkScan? || pc.ForkWait? || pc.ForkLock? || pc.ExitWait? || pc.WaitLock?
  }

  /** yield, and sleep on any channel; choice picks which. */
  ghost function PauseStep(v: View, choice: nat): (v': View) {
    match v.q.pause
    case Going =>
      if Calm(v.q.pc) && v.q.wake.NoWake? && v.lock.None?
      then v.(lock := Some(v.w.c), q := v.q.(pause := PauseOwn))
      else v
    case PauseOwn => v.(q := v.q.(pause := PauseSet, state := if choice == 0 then RUNNABLE else SLEEPING, chan := None))
    case PauseSet => v.(ctx := Back(v.w.p), q := v.q.(pause := PauseOut))
    case PauseOut => v
    case PauseBack => v.(lock := None, q := v.q.(pause := Going))
  }

  /** The process holds the spinlock of the process it looks at. */
  ghost predicate Grips(w: Wake) {
    w.WakeGot? || w.WakeDone?
  }

  /** The wakeup is one of exit's. */
  ghost predicate Calling(w: Wake) {
    w.WakeNext? || (Grips(w) && w.to.Some?)
  }

  /** exit's wakeups, with the inner loop of wakeup; and one look of any other wakeup or of
      kill, where choice says at which process, and whether it matches. */
  ghost function WakeStep(v: View, choice: nat): (v': View) {
    match v.q.wake
    case NoWake =>
      if Calm(v.q.pc) && v.q.pause.Going? && v.lock.None?
      then v.(lock := Some(v.w.c), q := v.q.(wake := WakeGot(v.w.j, None)))
      else v
    case WakeNext(j, t) =>
      if j >= v.w.n then v.(q := v.q.(wake := NoWake))
      else if j == v.w.p then v.(q := v.q.(wake := WakeNext(j + 1, t)))
      else if v.lock.None? then v.(lock := Some(v.w.c), q := v.q.(wake := WakeGot(j, Some(t))))
      else v
    case WakeGot(j, to) =>
      var v1 := v.(q := v.q.(wake := WakeDone(j, to)));
      if v.other.state.SLEEPING? && (if to.Some? then v.other.chan == to else choice == 0)
      then v1.(other := v.other.(state := RUNNABLE))
      else v1
    case WakeDone(j, to) => v.(lock := None, q := v.q.(wake := if to.Some? then WakeNext(j + 1, to.v) else NoWake))
  }

  ghost predicate InFork(pc: Pc) {
    pc.ForkScan? || pc.ForkGot? || pc.ForkSkip? || pc.ForkMade? || pc.ForkDrop?
  }

  ghost predicate InPublish(pc: Pc) {
    pc.ForkRel? || pc.ForkWait? || pc.ForkParent? || pc.ForkUnwait? || pc.ForkLock? || pc.ForkReady? || pc.ForkEnd?
  }

  ghost predicate InExit(pc: Pc) {
    pc.ExitWait? || pc.ExitGive? || pc.ExitOwn? || pc.ExitZombie? || pc.ExitUnwait? || pc.ExitSwitch? || pc.Dead?
  }

  ghost predicate InDoze(pc: Pc) {
    pc.WaitOwn? || pc.WaitRel? || pc.WaitSleep? || pc.WaitSwitch? || pc.WaitOut? || pc.WaitBack?
  }

  datatype Kind = Code | Pausing | Waking

  /** CPU c takes a step: of its scheduler, or of the process it runs. */
  datatype Event = Event(c: nat, kind: Kind, choice: nat)

  /** One step of the process seen in v. */
  ghost function ProcStep(v: View, kind: Kind, choice: nat): (v': View) {
    if kind.Pausing? then PauseStep(v, choice)
    else if kind.Waking? then WakeStep(v, choice)
    else if !v.q.pause.Going? || !v.q.wake.NoWake? then v
    else if v.q.pc.User? then BeginStep(v, choice)
    else if InFork(v.q.pc) then ForkStep(v, choice)
    else if InPublish(v.q.pc) then PublishStep(v)
    else if InExit(v.q.pc) then ExitStep(v)
    else if InDoze(v.q.pc) then DozeStep(v)
    else WaitStep(v, choice)
  }

  /** The other process a step of p concerns; p itself if there is none. */
  ghost function Aim(q: Process, p: nat, n: nat, kind: Kind, choice: nat): (j: nat) {
    if kind.Waking? && q.wake.NoWake? then (if choice < n then choice else p)
    else if kind.Waking? then (if q.wake.j < n then q.wake.j else p)
    else if kind.Code? && HasIndex(q.pc) && q.pc.j < n then q.pc.j
    else p
  }

  ghost predicate HasIndex(pc: Pc) {
    InFork(pc) || (InPublish(pc)) || pc.ExitGive? || pc.WaitScan? || TargetPc(pc)
  }

  ghost function Look(s: State, c: nat, p: nat, j: nat): (v: View)
    requires Sized(s) && p < |s.procs| && j < |s.procs|
  {
    View(Who(c, p, |s.procs|, j, s.nextPid), s.procs[p], s.procs[j], s.locks[j], s.waitLock, In(p))
  }

  /** allocproc has given out a pid; wait has freed one. */
  ghost predicate Makes(s: State, v: View)
    requires v.w.j < |s.procs|
  {
    v.w.j != v.w.p && s.procs[v.w.j].state.UNUSED? && !v.other.state.UNUSED?
  }

  ghost predicate Reaps(s: State, v: View)
    requires v.w.j < |s.procs|
  {
    v.w.j != v.w.p && s.procs[v.w.j].state.ZOMBIE? && v.other.state.UNUSED?
  }

  ghost function Apply(s: State, v: View): (s': State)
    requires Sized(s) && v.w.p < |s.procs| && v.w.j < |s.procs| && v.w.c < |s.cpus|
    ensures Sized(s') && |s'.procs| == |s.procs| && |s'.cpus| == |s.cpus|
  {
    State(s.procs[v.w.j := v.other][v.w.p := v.q], s.locks[v.w.j := v.lock], v.wait,
          s.cpus[v.w.c := s.cpus[v.w.c].(ctx := v.ctx)],
          if Makes(s, v) then s.nextPid + 1 else s.nextPid,
          if Reaps(s, v) then s.reaped + [s.procs[v.w.j].pid] else s.reaped)
  }

  /** The process after swtch: it holds its own spinlock. */
  ghost function Resumed(q: Process): (q': Process) {
    if q.pc.WaitOut? then q.(pc := WaitBack) else q.(pause := PauseBack)
  }

  ghost function Sched(s: State, c: nat, p: nat, q: Process, lock: Opt, ctx: Context, proc: Opt): (s': State)
    requires Sized(s) && c < |s.cpus| && p < |s.procs|
    ensures Sized(s') && |s'.procs| == |s.procs| && |s'.cpus| == |s.cpus|
  {
    s.(procs := s.procs[p := q], locks := s.locks[p := lock], cpus := s.cpus[c := Cpu(ctx, proc)])
  }

  /** The scheduler of CPU c; choice is the process it looks at next. */
  ghost function SchedStep(s: State, c: nat, choice: nat): (s': State)
    requires Sized(s) && c < |s.cpus|
    ensures Sized(s') && |s'.procs| == |s.procs| && |s'.cpus| == |s.cpus|
  {
    var ctx := s.cpus[c].ctx;
    var p := if ctx.Loop? then choice else ctx.p;
    if p >= |s.procs| then s
    else
      var q := s.procs[p];
      match ctx
      case Loop => if s.locks[p].None? then Sched(s, c, p, q, Some(c), Got(p), None) else s
      case Got(_) =>
        if q.state.RUNNABLE? then Sched(s, c, p, q.(state := RUNNING, on := Some(c)), s.locks[p], Ran(p), None)
        else Sched(s, c, p, q, s.locks[p], Rel(p), None)
      case Ran(_) => Sched(s, c, p, q, s.locks[p], Switch(p), Some(p))
      case Switch(_) => Sched(s, c, p, Resumed(q), s.locks[p], In(p), Some(p))
      case Back(_) => Sched(s, c, p, q.(on := None), s.locks[p], Rel(p), None)
      case Rel(_) => Sched(s, c, p, q, None, Loop, None)
      case In(_) => s
  }

  ghost function Step(s: State, e: Event): (s': State)
    requires Sized(s)
    ensures Sized(s') && |s'.procs| == |s.procs| && |s'.cpus| == |s.cpus|
  {
    if e.c >= |s.cpus| then s
    else
      var ctx := s.cpus[e.c].ctx;
      if ctx.In? && ctx.p < |s.procs|
      then StepOf(s, e.c, ctx.p, e.kind, e.choice)
      else SchedStep(s, e.c, e.choice)
  }

  ghost function StepOf(s: State, c: nat, p: nat, kind: Kind, choice: nat): (s': State)
    requires Sized(s) && c < |s.cpus| && p < |s.procs|
    ensures Sized(s') && |s'.procs| == |s.procs| && |s'.cpus| == |s.cpus|
  {
    var v := ProcStep(Look(s, c, p, Aim(s.procs[p], p, |s.procs|, kind, choice)), kind, choice);
    if v.w.p < |s.procs| && v.w.j < |s.procs| && v.w.c < |s.cpus| then Apply(s, v) else s
  }

  ghost function Run(s: State, es: seq<Event>): (s': State)
    requires Sized(s)
    ensures Sized(s') && |s'.procs| == |s.procs| && |s'.cpus| == |s.cpus|
  {
    if es == [] then s else Step(Run(s, es[..|es| - 1]), es[|es| - 1])
  }

  // -------------------------------------------------------------------- invariants

  /** Process p, running, holds process j's spinlock. */
  ghost predicate Holds(q: Process, p: nat, j: nat) {
    || (j == p && (q.pause.PauseOwn? || q.pause.PauseSet? || q.pause.PauseBack? || OwnPc(q.pc)))
    || (Grips(q.wake) && q.wake.j == j)
    || (TargetPc(q.pc) && q.pc.j == j)
  }

  ghost predicate OwnPc(pc: Pc) {
    pc.ExitZombie? || pc.ExitUnwait? || pc.ExitSwitch? || pc.WaitRel? || pc.WaitSleep? || pc.WaitSwitch? || pc.WaitBack?
  }

  ghost predicate TargetPc(pc: Pc) {
    || pc.ForkGot? || pc.ForkSkip? || pc.ForkMade? || pc.ForkDrop? || pc.ForkRel? || pc.ForkReady? || pc.ForkEnd?
    || pc.WaitGot? || pc.WaitSkip? || pc.WaitFree? || pc.WaitUnused? || pc.WaitDrop?
  }

  ghost predicate HoldsWait(pc: Pc) {
    || pc.ForkParent? || pc.ForkUnwait? || pc.ExitGive? || pc.ExitOwn? || pc.ExitZombie? || pc.ExitUnwait?
    || pc.WaitScan? || pc.WaitGot? || pc.WaitSkip? || pc.WaitFree? || pc.WaitUnused? || pc.WaitDrop? || pc.WaitUnlock?
    || pc.WaitOwn? || pc.WaitRel?
  }

  /** The process is not executing; it is switched out, finished, or does not exist. */
  ghost predicate Away(q: Process) {
    q.pause.PauseOut? || q.pc.WaitOut? || q.pc.Dead? || q.pc.Off?
  }

  /** The process still executes but has given up the state RUNNING. */
  ghost predicate Leaving(q: Process) {
    q.pause.PauseSet? || q.pc.WaitSwitch? || q.pc.ExitUnwait? || q.pc.ExitSwitch?
  }

  ghost predicate Well(q: Process) {
    && (!q.pause.Going? ==> Calm(q.pc) && q.wake.NoWake?)
    && (!q.wake.NoWake? ==> if Calling(q.wake) then q.pc.ExitGive? || q.pc.ExitOwn? else Calm(q.pc))
    && (q.pc.Off? <==> q.state.UNUSED? || q.state.USED?)
    && (q.pc.Dead? || q.pc.ExitUnwait? || q.pc.ExitSwitch? <==> q.state.ZOMBIE?)
    && (q.state.USED? <==> q.maker.Some?)
    && (q.state.UNUSED? ==> q.parent.None?)
    && (q.on.None? ==> Away(q) && !q.state.RUNNING?)
    && (q.pc.Off? ==> q.on.None?)
  }

  /** The CPU a process is on does with it what its state says. */
  ghost predicate OnInv(s: State, p: nat)
    requires p < |s.procs|
  {
    var q := s.procs[p];
    q.on.Some? ==> q.on.v < |s.cpus| && Fits(q, p, s.cpus[q.on.v].ctx)
  }

  ghost predicate Fits(q: Process, p: nat, ctx: Context) {
    match ctx
    case Ran(r) => r == p && (q.pause.PauseOut? || q.pc.WaitOut?) && q.state.RUNNING?
    case Switch(r) => r == p && (q.pause.PauseOut? || q.pc.WaitOut?) && q.state.RUNNING?
    case In(r) => r == p && !Away(q) && (Leaving(q) <==> !q.state.RUNNING?)
    case Back(r) => r == p && Away(q) && !q.state.RUNNING? && !q.pc.Off?
    case _ => false
  }

  ghost predicate ForkHas(pc: Pc) {
    pc.ForkMade? || pc.ForkRel? || pc.ForkWait? || pc.ForkParent? || pc.ForkUnwait? || pc.ForkLock? || pc.ForkReady?
  }

  /** The process is dealing with process pc.j. */
  ghost predicate Points(pc: Pc) {
    TargetPc(pc) || ForkHas(pc)
  }

  /** What process p knows of the process t it is making, or has found in wait. */
  ghost predicate Knows(q: Process, p: nat, t: Process) {
    && (ForkHas(q.pc) ==>
        && t.state.USED? && t.maker == Some(p)
        && t.parent == if q.pc.ForkUnwait? || q.pc.ForkLock? || q.pc.ForkReady? then Some(p) else None)
    && (q.pc.WaitGot? || q.pc.WaitSkip? || q.pc.WaitFree? ==> t.parent == Some(p))
    && (q.pc.WaitFree? || q.pc.WaitUnused? ==> t.state.ZOMBIE?)
    && (q.pc.WaitUnused? ==> t.parent.None?)
  }

  ghost predicate LinkInv(s: State, p: nat)
    requires p < |s.procs|
  {
    var q := s.procs[p];
    && (Points(q.pc) ==> q.pc.j < |s.procs| && Knows(q, p, s.procs[q.pc.j]))
    && (Grips(q.wake) ==> q.wake.j < |s.procs|)
    && (q.maker.Some? ==> q.maker.v < |s.procs| && ForkHas(s.procs[q.maker.v].pc) && s.procs[q.maker.v].pc.j == p)
  }

  /** Process i may be a child of a process that is at pc. */
  ghost predicate MayHaveKid(pc: Pc, i: nat) {
    && !pc.Off? && !pc.ExitOwn? && !pc.ExitZombie? && !pc.ExitUnwait? && !pc.ExitSwitch? && !pc.Dead?
    && (pc.ExitGive? ==> pc.j <= i)
  }

  ghost predicate KidInv(s: State, i: nat)
    requires i < |s.procs|
  {
    s.procs[i].parent.Some? ==>
      s.procs[i].parent.v < |s.procs| && s.procs[i].parent.v != i && MayHaveKid(s.procs[s.procs[i].parent.v].pc, i)
  }

  ghost predicate CpuInv(s: State, c: nat)
    requires c < |s.cpus|
  {
    var cpu := s.cpus[c];
    && (!cpu.ctx.Loop? ==> cpu.ctx.p < |s.procs|)
    && (cpu.ctx.Switch? || cpu.ctx.In? || cpu.ctx.Back? ==> cpu.proc == Some(cpu.ctx.p))
    && (cpu.ctx.Loop? || cpu.ctx.Got? || cpu.ctx.Ran? || cpu.ctx.Rel? ==> cpu.proc.None?)
    && (cpu.ctx.Ran? || cpu.ctx.Switch? || cpu.ctx.In? || cpu.ctx.Back? ==> s.procs[cpu.ctx.p].on == Some(c))
  }

  ghost predicate CpuHolds(s: State, c: nat, j: nat)
    requires c < |s.cpus|
  {
    var ctx := s.cpus[c].ctx;
    if ctx.Loop? then false else if ctx.In? then ctx.p < |s.procs| && Holds(s.procs[ctx.p], ctx.p, j) else ctx.p == j
  }

  ghost predicate LockInv(s: State, c: nat, j: nat)
    requires Sized(s) && c < |s.cpus| && j < |s.procs|
  {
    s.locks[j] == Some(c) <==> CpuHolds(s, c, j)
  }

  ghost predicate WaitInv(s: State, c: nat)
    requires c < |s.cpus|
  {
    s.waitLock == Some(c) <==>
      s.cpus[c].ctx.In? && s.cpus[c].ctx.p < |s.procs| && HoldsWait(s.procs[s.cpus[c].ctx.p].pc)
  }

  ghost predicate PidInv(s: State, i: nat, j: nat)
    requires i < |s.procs| && j < |s.procs|
  {
    && (!s.procs[i].state.UNUSED? ==> s.procs[i].pid < s.nextPid && s.procs[i].pid !in s.reaped)
    && (i != j && !s.procs[i].state.UNUSED? && !s.procs[j].state.UNUSED? ==> s.procs[i].pid != s.procs[j].pid)
  }

  ghost predicate ReapedInv(s: State) {
    && (forall i :: 0 <= i < |s.reaped| ==> s.reaped[i] < s.nextPid)
    && (forall i, j :: 0 <= i < j < |s.reaped| ==> s.reaped[i] != s.reaped[j])
  }

  ghost predicate InitAlive(s: State) {
    |s.procs| > 0 && !InExit(s.procs[0].pc) && !s.procs[0].pc.Off? && s.procs[0].parent.None?
  }

  ghost predicate ProcInv(s: State, p: nat)
    requires p < |s.procs|
  {
    Well(s.procs[p]) && OnInv(s, p) && LinkInv(s, p) && KidInv(s, p)
  }

  ghost predicate Procs(s: State) {
    forall p :: 0 <= p < |s.procs| ==> ProcInv(s, p)
  }

  ghost predicate Cpus(s: State) {
    forall c :: 0 <= c < |s.cpus| ==> CpuInv(s, c) && WaitInv(s, c)
  }

  ghost predicate Locks(s: State)
    requires Sized(s)
  {
    forall c, j :: 0 <= c < |s.cpus| && 0 <= j < |s.procs| ==> LockInv(s, c, j)
  }

  ghost predicate Pids(s: State) {
    ReapedInv(s) && forall i, j :: 0 <= i < |s.procs| && 0 <= j < |s.procs| ==> PidInv(s, i, j)
  }

  ghost predicate Inv(s: State) {
    Sized(s) && InitAlive(s) && Procs(s) && Cpus(s) && Locks(s) && Pids(s)
  }

  lemma InitInv(n: nat, cpus: nat)
    requires n > 0
    ensures Inv(Init(n, cpus))
  {
  }

  // --------------------------------------------------------- what a step may rely on

  /** The process in v is running, and v shows the invariant's part in it. */
  ghost predicate Seen(v: View) {
    && v.w.p < v.w.n && v.w.j < v.w.n && v.ctx == In(v.w.p) && (v.w.j == v.w.p ==> v.other == v.q)
    && Well(v.q) && v.q.on == Some(v.w.c) && Fits(v.q, v.w.p, v.ctx) && (Grips(v.q.wake) ==> v.q.wake.j < v.w.n)
    && Well(v.other)
    && (v.lock == Some(v.w.c) && v.w.j != v.w.p ==> !Leaving(v.other) && (v.other.state.ZOMBIE? ==> v.other.on.None?))
    && (v.wait == Some(v.w.c) <==> HoldsWait(v.q.pc))
    && (v.lock == Some(v.w.c) <==> Holds(v.q, v.w.p, v.w.j))
    && (v.w.p == 0 ==> !InExit(v.q.pc)) && (v.w.j == 0 ==> v.other.parent.None? && !v.other.pc.Off?)
    && v.other.parent != Some(v.w.j) && v.q.parent != Some(v.w.p)
  }

  /** v.w.j is where the step looks, and what the process knows of it holds. */
  ghost predicate Aimed(v: View, kind: Kind) {
    && (kind.Code? && Points(v.q.pc) ==> v.w.j == v.q.pc.j && Knows(v.q, v.w.p, v.other))
    && (kind.Code? && HasIndex(v.q.pc) ==> if v.q.pc.j < v.w.n then v.w.j == v.q.pc.j else v.w.j == v.w.p)
    && (kind.Code? && !HasIndex(v.q.pc) ==> v.w.j == v.w.p)
    && (kind.Code? && TargetPc(v.q.pc) ==> v.lock == Some(v.w.c))
    && (kind.Waking? && Grips(v.q.wake) ==> v.lock == Some(v.w.c))
    && (kind.Pausing? ==> v.w.j == v.w.p)
    && (kind.Waking? && !v.q.wake.NoWake? ==> v.w.j == if v.q.wake.j < v.w.n then v.q.wake.j else v.w.p)
  }

  // ---------------------------------------------------------- what every step respects

  ghost predicate OwnOk(v: View, v': View) {
    && Well(v'.q) && v'.q.on == v.q.on && (v'.ctx == In(v.w.p) || v'.ctx == Back(v.w.p)) && Fits(v'.q, v.w.p, v'.ctx)
    && v'.q.parent == v.q.parent && v'.q.maker == v.q.maker && v'.q.pid == v.q.pid
    && (v.q.state.ZOMBIE? ==> v'.q.state.ZOMBIE?)
    && (v.w.p == 0 ==> !InExit(v'.q.pc) && !v'.q.pc.Off?)
  }

  /** The other process stays where it is, or is on no CPU before and after. */
  ghost predicate OtherOk(v: View, v': View) {
    && Well(v'.other) && v'.other.on == v.other.on && v'.other.wake == v.other.wake
    && ( || (v'.other.pc == v.other.pc && v'.other.pause == v.other.pause
             && (v'.other.state.RUNNING? <==> v.other.state.RUNNING?))
         || ((v.other.pc.Off? || v.other.pc.Dead?) && v.other.on.None? && Away(v'.other) && !v'.other.state.RUNNING?
             && (v'.other.pc.Off? || v'.other.pc.User?)))
    && (v.other.state.USED? && v.other.maker != Some(v.w.p)
        ==> && v'.other.state.USED? && v'.other.maker == v.other.maker
            && (v.other.parent != Some(v.w.p) ==> v'.other.parent == v.other.parent))
    && (!HoldsWait(v.q.pc) ==> v'.other.parent == v.other.parent && (v.other.state.ZOMBIE? ==> v'.other.state.ZOMBIE?))
  }

  ghost predicate HoldsAfter(v: View, i: nat) {
    if v.ctx.In? then Holds(v.q, v.w.p, i) else v.w.p == i
  }

  ghost predicate WaitsAfter(v: View) {
    v.ctx.In? && HoldsWait(v.q.pc)
  }

  /** Spinlocks stay, are taken, or are given back. */
  ghost predicate LocksOk(v: View, v': View, i: nat) {
    if i != v.w.j then HoldsAfter(v', i) <==> Holds(v.q, v.w.p, i)
    else
      || (v'.lock == v.lock && (HoldsAfter(v', i) <==> Holds(v.q, v.w.p, i)))
      || (v.lock.None? && v'.lock == Some(v.w.c) && HoldsAfter(v', i))
      || (v.lock == Some(v.w.c) && v'.lock.None? && !HoldsAfter(v', i))
  }

  ghost predicate WaitLockOk(v: View, v': View) {
    || (v'.wait == v.wait && (WaitsAfter(v') <==> HoldsWait(v.q.pc)))
    || (v.wait.None? && v'.wait == Some(v.w.c) && WaitsAfter(v'))
    || (v.wait == Some(v.w.c) && v'.wait.None? && !WaitsAfter(v'))
  }

  /** The process's own knowledge, the record of who makes whom, and the family tree. */
  ghost predicate LinksOk(v: View, v': View) {
    && (Points(v'.q.pc) ==>
        v'.q.pc == v.q.pc || (v'.q.pc.j == v.w.j && Knows(v'.q, v.w.p, if v.w.j == v.w.p then v'.q else v'.other)))
    && (v'.q.pc == v.q.pc ==>
        v'.other == v.other || (v.other.state.SLEEPING? && v'.other == v.other.(state := RUNNABLE)))
    && (Grips(v'.q.wake) ==> v'.q.wake.j < v.w.n)
    && (ForkHas(v.q.pc) ==> (ForkHas(v'.q.pc) && v'.q.pc.j == v.q.pc.j) || (v.w.j == v.q.pc.j && v'.other.maker.None?))
    && (v'.other.maker == v.other.maker || v'.other.maker.None?
        || (v'.other.maker == Some(v.w.p) && ForkHas(v'.q.pc) && v'.q.pc.j == v.w.j))
    && (v'.other.parent == v.other.parent || v'.other.parent.None? || (v'.other.parent == Some(0) && v.w.j != 0)
        || (v'.other.parent == Some(v.w.p) && MayHaveKid(v'.q.pc, v.w.j)))
    && (v.w.j == 0 ==> v'.other.parent.None?)
  }

  ghost predicate KidsOk(v: View, v': View, i: nat) {
    MayHaveKid(v.q.pc, i) ==>
      MayHaveKid(v'.q.pc, i) || (i == v.w.j && (v.w.j == v.w.p || v'.other.parent != Some(v.w.p)))
  }

  ghost predicate PidsOk(v: View, v': View) {
    && !v.q.state.UNUSED? && !v'.q.state.UNUSED?
    && v'.other.pid == if v.other.state.UNUSED? && !v'.other.state.UNUSED? then v.w.nextPid else v.other.pid
  }

  ghost predicate SelfOk(v: View, v': View) {
    v'.w == v.w && OwnOk(v, v') && WaitLockOk(v, v')
  }

  ghost predicate OthersOk(v: View, v': View) {
    (v.w.j != v.w.p ==> OtherOk(v, v')) && LinksOk(v, v') && PidsOk(v, v')
  }

  ghost predicate StepOk(v: View, v': View) {
    SelfOk(v, v') && OthersOk(v, v')
  }

  ghost predicate Ready(q: Process) {
    q.pause.Going? && q.wake.NoWake?
  }

  ghost predicate InWait(pc: Pc) {
    !pc.User? && !InFork(pc) && !InPublish(pc) && !InExit(pc) && !InDoze(pc)
  }

  lemma BeginOk(v: View, choice: nat)
    requires Seen(v) && Aimed(v, Code) && Ready(v.q) && v.q.pc.User?
    ensures SelfOk(v, BeginStep(v, choice))
  {
    hide Holds, MayHaveKid;
  }

  lemma BeginOthers(v: View, choice: nat)
    requires Seen(v) && Aimed(v, Code) && Ready(v.q) && v.q.pc.User?
    ensures OthersOk(v, BeginStep(v, choice))
  {
    hide Holds, Fits, MayHaveKid;
  }

  lemma BeginLocks(v: View, choice: nat, i: nat)
    requires Seen(v) && Aimed(v, Code) && Ready(v.q) && v.q.pc.User? && i < v.w.n
    ensures LocksOk(v, BeginStep(v, choice), i) && KidsOk(v, BeginStep(v, choice), i)
  {
    hide Knows, HoldsWait;
  }

  lemma ForkOk(v: View, choice: nat)
    requires Seen(v) && Aimed(v, Code) && Ready(v.q) && InFork(v.q.pc)
    ensures SelfOk(v, ForkStep(v, choice))
  {
    hide Holds, MayHaveKid;
  }

  lemma ForkOthers(v: View, choice: nat)
    requires Seen(v) && Aimed(v, Code) && Ready(v.q) && InFork(v.q.pc)
    ensures OthersOk(v, ForkStep(v, choice))
  {
    hide OthersOk, ForkStep;
    if v.q.pc.ForkGot? || v.q.pc.ForkMade? {
      AllocOthers(v, choice);
    } else {
      ScanOthers(v, choice);
    }
  }

  lemma AllocOthers(v: View, choice: nat)
    requires Seen(v) && Aimed(v, Code) && Ready(v.q) && (v.q.pc.ForkGot? || v.q.pc.ForkMade?)
    ensures OthersOk(v, ForkStep(v, choice))
  {
    hide Holds, Fits, MayHaveKid;
  }

  lemma ScanOthers(v: View, choice: nat)
    requires Seen(v) && Aimed(v, Code) && Ready(v.q) && (v.q.pc.ForkScan? || v.q.pc.ForkSkip? || v.q.pc.ForkDrop?)
    ensures OthersOk(v, ForkStep(v, choice))
  {
    hide Holds, Fits, MayHaveKid;
  }

  lemma ForkLocks(v: View, choice: nat, i: nat)
    requires Seen(v) && Aimed(v, Code) && Ready(v.q) && InFork(v.q.pc) && i < v.w.n
    ensures LocksOk(v, ForkStep(v, choice), i) && KidsOk(v, ForkStep(v, choice), i)
  {
    hide Knows, HoldsWait;
  }

  lemma PublishOk(v: View)
    requires Seen(v) && Aimed(v, Code) && Ready(v.q) && InPublish(v.q.pc)
    ensures SelfOk(v, PublishStep(v))
  {
    hide Holds, MayHaveKid;
  }

  lemma PublishOthers(v: View)
    requires Seen(v) && Aimed(v, Code) && Ready(v.q) && InPublish(v.q.pc)
    ensures OthersOk(v, PublishStep(v))
  {
    hide Holds, Fits;
  }

  lemma PublishLocks(v: View, i: nat)
    requires Seen(v) && Aimed(v, Code) && Ready(v.q) && InPublish(v.q.pc) && i < v.w.n
    ensures LocksOk(v, PublishStep(v), i) && KidsOk(v, PublishStep(v), i)
  {
    hide Knows, HoldsWait;
  }

  lemma ExitOk(v: View)
    requires Seen(v) && Aimed(v, Code) && Ready(v.q) && InExit(v.q.pc)
    ensures SelfOk(v, ExitStep(v))
  {
    hide Holds, MayHaveKid;
  }

  lemma ExitOthers(v: View)
    requires Seen(v) && Aimed(v, Code) && Ready(v.q) && InExit(v.q.pc)
    ensures OthersOk(v, ExitStep(v))
  {
    hide OthersOk, ExitStep;
    if v.q.pc.ExitGive? {
      GiveOthers(v);
    } else {
      LeaveOthers(v);
    }
  }

  lemma GiveOthers(v: View)
    requires Seen(v) && Aimed(v, Code) && Ready(v.q) && v.q.pc.ExitGive?
    ensures OthersOk(v, ExitStep(v))
  {
    hide OthersOk, ExitStep;
    if v.q.pc.j < v.w.n && v.other.parent == Some(v.w.p) {
      GivenOthers(v);
    } else {
      KeptOthers(v);
    }
  }

  lemma GivenOthers(v: View)
    requires Seen(v) && Aimed(v, Code) && Ready(v.q) && v.q.pc.ExitGive? && v.q.pc.j < v.w.n
    requires v.other.parent == Some(v.w.p)
    ensures OthersOk(v, ExitStep(v))
  {
    hide Holds, Fits;
  }

  lemma KeptOthers(v: View)
    requires Seen(v) && Aimed(v, Code) && Ready(v.q) && v.q.pc.ExitGive?
    requires v.q.pc.j < v.w.n ==> v.other.parent != Some(v.w.p)
    ensures OthersOk(v, ExitStep(v))
  {
    hide Holds, Fits, MayHaveKid;
  }

  lemma LeaveOthers(v: View)
    requires Seen(v) && Aimed(v, Code) && Ready(v.q) && InExit(v.q.pc) && !v.q.pc.ExitGive?
    ensures OthersOk(v, ExitStep(v))
  {
    hide Holds, Fits;
  }

  lemma ExitLocks(v: View, i: nat)
    requires Seen(v) && Aimed(v, Code) && Ready(v.q) && InExit(v.q.pc) && i < v.w.n
    ensures LocksOk(v, ExitStep(v), i) && KidsOk(v, ExitStep(v), i)
  {
    hide Knows, HoldsWait;
  }

  lemma WaitOk(v: View, choice: nat)
    requires Seen(v) && Aimed(v, Code) && Ready(v.q) && InWait(v.q.pc)
    ensures SelfOk(v, WaitStep(v, choice))
  {
    hide Holds, MayHaveKid;
  }

  lemma WaitOthers(v: View, choice: nat)
    requires Seen(v) && Aimed(v, Code) && Ready(v.q) && InWait(v.q.pc)
    ensures OthersOk(v, WaitStep(v, choice))
  {
    hide OthersOk, WaitStep;
    if v.q.pc.WaitFree? || v.q.pc.WaitUnused? {
      ReapOthers(v, choice);
    } else if v.q.pc.WaitGot? || v.q.pc.WaitSkip? {
      LookOthers(v, choice);
    } else {
      PassOthers(v, choice);
    }
  }

  lemma ReapOthers(v: View, choice: nat)
    requires Seen(v) && Aimed(v, Code) && Ready(v.q) && (v.q.pc.WaitFree? || v.q.pc.WaitUnused?)
    ensures OthersOk(v, WaitStep(v, choice))
  {
    hide Holds, Fits;
  }

  lemma LookOthers(v: View, choice: nat)
    requires Seen(v) && Aimed(v, Code) && Ready(v.q) && (v.q.pc.WaitGot? || v.q.pc.WaitSkip?)
    ensures OthersOk(v, WaitStep(v, choice))
  {
    hide Holds, Fits, MayHaveKid;
  }

  lemma PassOthers(v: View, choice: nat)
    requires Seen(v) && Aimed(v, Code) && Ready(v.q) && InWait(v.q.pc)
    requires !v.q.pc.WaitFree? && !v.q.pc.WaitUnused? && !v.q.pc.WaitGot? && !v.q.pc.WaitSkip?
    ensures OthersOk(v, WaitStep(v, choice))
  {
    hide OthersOk, WaitStep;
    if v.q.pc.WaitScan? {
      NextOthers(v, choice);
    } else {
      LockOthers(v, choice);
    }
  }

  lemma NextOthers(v: View, choice: nat)
    requires Seen(v) && Aimed(v, Code) && Ready(v.q) && v.q.pc.WaitScan?
    ensures OthersOk(v, WaitStep(v, choice))
  {
    hide Holds, Fits, MayHaveKid;
  }

  lemma LockOthers(v: View, choice: nat)
    requires Seen(v) && Aimed(v, Code) && Ready(v.q) && (v.q.pc.WaitLock? || v.q.pc.WaitDrop? || v.q.pc.WaitUnlock?)
    ensures OthersOk(v, WaitStep(v, choice))
  {
    hide Holds, Fits, MayHaveKid;
  }

  lemma WaitLocks(v: View, choice: nat, i: nat)
    requires Seen(v) && Aimed(v, Code) && Ready(v.q) && InWait(v.q.pc) && i < v.w.n
    ensures LocksOk(v, WaitStep(v, choice), i) && KidsOk(v, WaitStep(v, choice), i)
  {
    hide Knows, HoldsWait, Well;
    assert KidsOk(v, WaitStep(v, choice), i);
    hide MayHaveKid, KidsOk;
  }

  lemma DozeOk(v: View)
    requires Seen(v) && Aimed(v, Code) && Ready(v.q) && InDoze(v.q.pc)
    ensures SelfOk(v, DozeStep(v))
  {
    hide Holds, MayHaveKid;
  }

  lemma DozeOthers(v: View)
    requires Seen(v) && Aimed(v, Code) && Ready(v.q) && InDoze(v.q.pc)
    ensures OthersOk(v, DozeStep(v))
  {
    hide Holds, Fits, MayHaveKid;
  }

  lemma DozeLocks(v: View, i: nat)
    requires Seen(v) && Aimed(v, Code) && Ready(v.q) && InDoze(v.q.pc) && i < v.w.n
    ensures LocksOk(v, DozeStep(v), i) && KidsOk(v, DozeStep(v), i)
  {
    hide Knows, HoldsWait;
  }

  lemma PauseOk(v: View, choice: nat)
    requires Seen(v) && Aimed(v, Pausing)
    ensures SelfOk(v, PauseStep(v, choice))
  {
    hide Holds, MayHaveKid;
  }

  lemma PauseOthers(v: View, choice: nat)
    requires Seen(v) && Aimed(v, Pausing)
    ensures OthersOk(v, PauseStep(v, choice))
  {
    hide Holds, Fits, MayHaveKid;
  }

  lemma PauseLocks(v: View, choice: nat, i: nat)
    requires Seen(v) && Aimed(v, Pausing) && i < v.w.n
    ensures LocksOk(v, PauseStep(v, choice), i) && KidsOk(v, PauseStep(v, choice), i)
  {
    hide Knows, HoldsWait;
  }

  lemma WakeOk(v: View, choice: nat)
    requires Seen(v) && Aimed(v, Waking)
    ensures SelfOk(v, WakeStep(v, choice))
  {
    hide Holds, MayHaveKid;
  }

  lemma WakeOthers(v: View, choice: nat)
    requires Seen(v) && Aimed(v, Waking)
    ensures OthersOk(v, WakeStep(v, choice))
  {
    hide Holds, Fits, MayHaveKid;
  }

  lemma WakeLocks(v: View, choice: nat, i: nat)
    requires Seen(v) && Aimed(v, Waking) && i < v.w.n
    ensures LocksOk(v, WakeStep(v, choice), i) && KidsOk(v, WakeStep(v, choice), i)
  {
    hide Knows, HoldsWait;
  }


  // ------------------------------------------------------------ from views to states

  /** Every step of a process is one of these. */
  lemma ProcStepOk(v: View, kind: Kind, choice: nat)
    requires Seen(v) && Aimed(v, kind)
    ensures StepOk(v, ProcStep(v, kind, choice))
  {
    hide BeginStep, ForkStep, PublishStep, ExitStep, WaitStep, DozeStep, PauseStep, WakeStep, SelfOk, OthersOk, Seen,
         Aimed;
    if kind.Pausing? {
      PauseOk(v, choice);
      PauseOthers(v, choice);
    } else if kind.Waking? {
      WakeOk(v, choice);
      WakeOthers(v, choice);
    } else if !Ready(v.q) {
      StutterOk(v, kind);
    } else if v.q.pc.User? {
      BeginOk(v, choice);
      BeginOthers(v, choice);
    } else if InFork(v.q.pc) {
      ForkOk(v, choice);
      ForkOthers(v, choice);
    } else if InPublish(v.q.pc) {
      PublishOk(v);
      PublishOthers(v);
    } else if InExit(v.q.pc) {
      ExitOk(v);
      ExitOthers(v);
    } else if InDoze(v.q.pc) {
      DozeOk(v);
      DozeOthers(v);
    } else {
      WaitOk(v, choice);
      WaitOthers(v, choice);
    }
  }

  lemma StutterOk(v: View, kind: Kind)
    requires Seen(v) && Aimed(v, kind)
    ensures StepOk(v, v)
  {
    hide Holds;
  }

  lemma ProcStepLocks(v: View, kind: Kind, choice: nat, i: nat)
    requires Seen(v) && Aimed(v, kind) && i < v.w.n
    ensures LocksOk(v, ProcStep(v, kind, choice), i) && KidsOk(v, ProcStep(v, kind, choice), i)
  {
    hide BeginStep, ForkStep, PublishStep, ExitStep, WaitStep, DozeStep, PauseStep, WakeStep, LocksOk, KidsOk, Seen,
         Aimed;
    if kind.Pausing? {
      PauseLocks(v, choice, i);
    } else if kind.Waking? {
      WakeLocks(v, choice, i);
    } else if !Ready(v.q) {
      StutterLocks(v, i);
    } else if v.q.pc.User? {
      BeginLocks(v, choice, i);
    } else if InFork(v.q.pc) {
      ForkLocks(v, choice, i);
    } else if InPublish(v.q.pc) {
      PublishLocks(v, i);
    } else if InExit(v.q.pc) {
      ExitLocks(v, i);
    } else if InDoze(v.q.pc) {
      DozeLocks(v, i);
    } else {
      WaitLocks(v, choice, i);
    }
  }

  lemma StutterLocks(v: View, i: nat)
    requires Seen(v)
    ensures LocksOk(v, v, i) && KidsOk(v, v, i)
  {
  }

  ghost predicate At(s: State, c: nat, p: nat) {
    Sized(s) && c < |s.cpus| && p < |s.procs| && s.cpus[c].ctx == In(p)
  }

  /** A process whose spinlock another one holds is not between giving up the state RUNNING
      and having left its CPU. */
  lemma NotElsewhere(s: State, c: nat, p: nat, j: nat)
    requires Inv(s) && At(s, c, p) && j < |s.procs| && j != p && s.locks[j] == Some(c)
    ensures !Leaving(s.procs[j]) && (s.procs[j].state.ZOMBIE? ==> s.procs[j].on.None?)
  {
    hide Pids, KidInv, LinkInv, WaitInv;
    assert ProcInv(s, j);
    if s.procs[j].on.Some? {
      assert LockInv(s, s.procs[j].on.v, j);
    }
  }

  /** The invariant, seen by a step. */
  lemma LookSeen(s: State, c: nat, p: nat, kind: Kind, choice: nat)
    requires Inv(s) && At(s, c, p)
    ensures var j := Aim(s.procs[p], p, |s.procs|, kind, choice);
            j < |s.procs| && Seen(Look(s, c, p, j)) && Aimed(Look(s, c, p, j), kind)
  {
    hide Pids, HoldsWait, OwnPc;
    var j := Aim(s.procs[p], p, |s.procs|, kind, choice);
    assert ProcInv(s, p) && ProcInv(s, j) && CpuInv(s, c) && WaitInv(s, c) && LockInv(s, c, j) && LockInv(s, c, p);
    if j != p && s.locks[j] == Some(c) {
      NotElsewhere(s, c, p, j);
    }
  }

  /** v is what process p on CPU c sees in s, and v' is v after a step. */
  ghost predicate Steps(s: State, v: View, v': View) {
    && Inv(s) && At(s, v.w.c, v.w.p) && v.w.j < |s.procs| && v == Look(s, v.w.c, v.w.p, v.w.j) && Seen(v)
    && StepOk(v, v')
  }

  lemma ApplyOn(s: State, v: View, v': View, k: nat)
    requires Steps(s, v, v') && k < |s.procs|
    ensures Well(Apply(s, v').procs[k]) && OnInv(Apply(s, v'), k)
  {
    hide Pids, Locks, LinkInv, KidInv, WaitLockOk, LinksOk, PidsOk, Well, HoldsWait, InExit, Holds;
    assert ProcInv(s, k) && ProcInv(s, v.w.j) && CpuInv(s, v.w.c);
  }

  lemma ApplyCpu(s: State, v: View, v': View, d: nat)
    requires Steps(s, v, v') && d < |s.cpus|
    ensures CpuInv(Apply(s, v'), d) && WaitInv(Apply(s, v'), d)
  {
    hide Pids, Locks, LinkInv, KidInv, LinksOk, PidsOk, Well, HoldsWait, InExit, Holds;
    assert CpuInv(s, d) && WaitInv(s, d) && CpuInv(s, v.w.c) && WaitInv(s, v.w.c);
    assert ProcInv(s, v.w.j);
  }

  lemma ApplyLock(s: State, v: View, v': View, d: nat, i: nat)
    requires Steps(s, v, v') && d < |s.cpus| && i < |s.procs| && LocksOk(v, v', i)
    ensures LockInv(Apply(s, v'), d, i)
  {
    hide Pids, LinkInv, KidInv, LinksOk, PidsOk, Well, HoldsWait, InExit, OwnPc, TargetPc, WaitLockOk;
    assert CpuInv(s, d) && CpuInv(s, v.w.c) && LockInv(s, d, i) && LockInv(s, v.w.c, i);
    assert ProcInv(s, v.w.j);
  }

  lemma ApplyKid(s: State, v: View, v': View, i: nat)
    requires Steps(s, v, v') && i < |s.procs| && KidsOk(v, v', i)
    ensures KidInv(Apply(s, v'), i)
  {
    hide Pids, Locks, LinkInv, PidsOk, Well, HoldsWait, Holds, WaitLockOk, Knows;
    assert ProcInv(s, i) && ProcInv(s, v.w.p) && ProcInv(s, v.w.j);
  }

  /** Two processes cannot both be where wait_lock is held. */
  lemma OneWaiter(s: State, p: nat, k: nat)
    requires Inv(s) && p < |s.procs| && k < |s.procs| && HoldsWait(s.procs[p].pc) && HoldsWait(s.procs[k].pc)
    ensures p == k
  {
    hide Inv, HoldsWait;
    WaiterCpu(s, p);
    WaiterCpu(s, k);
  }

  lemma WaiterCpu(s: State, p: nat)
    requires Inv(s) && p < |s.procs| && HoldsWait(s.procs[p].pc)
    ensures s.procs[p].on.Some? && s.procs[p].on.v < |s.cpus| && s.waitLock == s.procs[p].on
    ensures s.cpus[s.procs[p].on.v].ctx == In(p)
  {
    hide Locks, Pids, LinkInv, KidInv, Holds;
    assert ProcInv(s, p);
    assert s.procs[p].pause.Going?;
    assert WaitInv(s, s.procs[p].on.v);
  }

  /** Wait_lock keeps the process p steps, and the one k has found, apart. */
  ghost predicate Exclusive(s: State, v: View, k: nat)
    requires k < |s.procs|
  {
    HoldsWait(v.q.pc) && HoldsWait(s.procs[k].pc) ==> v.w.p == k
  }

  lemma ApplyLinkOwn(s: State, v: View, v': View)
    requires Steps(s, v, v')
    ensures LinkInv(Apply(s, v'), v.w.p)
  {
    hide Pids, Locks, Cpus, PidsOk, Holds, WaitLockOk, KidInv, OnInv, MayHaveKid, HoldsWait;
    assert ProcInv(s, v.w.p) && ProcInv(s, v.w.j);
  }

  lemma ApplyLinkOther(s: State, v: View, v': View, k: nat)
    requires Steps(s, v, v') && k < |s.procs| && k != v.w.p && Exclusive(s, v, k)
    ensures LinkInv(Apply(s, v'), k)
  {
    hide Steps, ProcInv, LinksOk, OtherOk, OwnOk, Knows, Exclusive, Points, ForkHas;
    Sizes(s, v, v');
    KnowsKept(s, v, v', k);
    MakerKept(s, v, v', k);
  }

  lemma Sizes(s: State, v: View, v': View)
    requires Steps(s, v, v')
    ensures Sized(s) && v.w.c < |s.cpus| && v.w.p < |s.procs| && v.w.j < |s.procs| && v'.w == v.w
  {
  }

  lemma KnowsKept(s: State, v: View, v': View, k: nat)
    requires Steps(s, v, v') && k < |s.procs| && k != v.w.p && Exclusive(s, v, k)
    ensures var ps := Apply(s, v').procs; Points(ps[k].pc) ==> ps[k].pc.j < |ps| && Knows(ps[k], k, ps[ps[k].pc.j])
    ensures var q := Apply(s, v').procs[k]; Grips(q.wake) ==> q.wake.j < |s.procs|
  {
    hide Pids, Locks, Cpus, PidsOk, Holds, WaitLockOk, KidInv, OnInv, MayHaveKid, LinksOk;
    assert ProcInv(s, k) && ProcInv(s, v.w.p) && ProcInv(s, v.w.j);
  }

  lemma MakerKept(s: State, v: View, v': View, k: nat)
    requires Steps(s, v, v') && k < |s.procs| && k != v.w.p
    ensures var ps := Apply(s, v').procs; var m := ps[k].maker;
            m.Some? ==> m.v < |ps| && ForkHas(ps[m.v].pc) && ps[m.v].pc.j == k
  {
    hide Pids, Locks, Cpus, PidsOk, Holds, WaitLockOk, KidInv, OnInv, MayHaveKid, Knows, HoldsWait;
    assert ProcInv(s, k) && ProcInv(s, v.w.p) && ProcInv(s, v.w.j);
  }

  lemma ApplyPid(s: State, v: View, v': View, i: nat, k: nat)
    requires Steps(s, v, v') && i < |s.procs| && k < |s.procs|
    ensures PidInv(Apply(s, v'), i, k)
  {
    hide Locks, Cpus, Procs, Seen, OwnOk, OtherOk, WaitLockOk, LinksOk;
    assert PidInv(s, i, k) && PidInv(s, i, v.w.j) && PidInv(s, k, v.w.j) && PidInv(s, v.w.j, v.w.j);
    assert v'.q.pid == v.q.pid by { OwnPid(v, v'); }
  }

  lemma OwnPid(v: View, v': View)
    requires OwnOk(v, v')
    ensures v'.q.pid == v.q.pid
  {
  }

  lemma ApplyReaped(s: State, v: View, v': View)
    requires Steps(s, v, v')
    ensures ReapedInv(Apply(s, v')) && InitAlive(Apply(s, v'))
  {
    hide Locks, Cpus, Holds, WaitLockOk, KidInv, OnInv, LinkInv, MayHaveKid, Knows, HoldsWait;
    assert PidInv(s, v.w.j, v.w.j);
  }

  /** A step of a process keeps the invariant. */
  lemma StepOfInv(s: State, c: nat, p: nat, kind: Kind, choice: nat)
    requires Inv(s) && At(s, c, p)
    ensures Inv(StepOf(s, c, p, kind, choice))
  {
    hide ProcInv, CpuInv, WaitInv, LockInv, Pids, PidInv, ReapedInv, InitAlive, Seen, Aimed, ProcStep, OwnOk, OtherOk,
         WaitLockOk, LinksOk, PidsOk, Aim, Look, Apply;
    var j := Aim(s.procs[p], p, |s.procs|, kind, choice);
    LookSeen(s, c, p, kind, choice);
    var v := Look(s, c, p, j);
    LookFields(s, c, p, j);
    var v' := ProcStep(v, kind, choice);
    ProcStepOk(v, kind, choice);
    assert Steps(s, v, v');
    AppliedProcs(s, v, kind, choice);
    AppliedRest(s, v, kind, choice);
  }

  lemma LookFields(s: State, c: nat, p: nat, j: nat)
    requires Sized(s) && p < |s.procs| && j < |s.procs|
    ensures var v := Look(s, c, p, j); v.w.c == c && v.w.p == p && v.w.j == j && v.w.n == |s.procs|
  {
  }

  lemma AppliedProcs(s: State, v: View, kind: Kind, choice: nat)
    requires Steps(s, v, ProcStep(v, kind, choice)) && Aimed(v, kind) && v.w.n == |s.procs|
    ensures Procs(Apply(s, ProcStep(v, kind, choice)))
  {
    hide Cpus, Locks, Pids, InitAlive, Seen, Aimed, ProcStep, OwnOk, OtherOk, WaitLockOk, LinksOk, PidsOk, Look, Apply,
         LinkInv, KidInv, OnInv, Well, HoldsWait, LocksOk, KidsOk;
    var v' := ProcStep(v, kind, choice);
    var s' := Apply(s, v');
    forall k | 0 <= k < |s'.procs| ensures ProcInv(s', k) {
      ApplyOn(s, v, v', k);
      ProcStepLocks(v, kind, choice, k);
      ApplyKid(s, v, v', k);
      ExclusiveOf(s, v, k);
      if k == v.w.p {
        ApplyLinkOwn(s, v, v');
      } else {
        ApplyLinkOther(s, v, v', k);
      }
    }
  }

  lemma ExclusiveOf(s: State, v: View, k: nat)
    requires Inv(s) && At(s, v.w.c, v.w.p) && v.w.j < |s.procs| && v == Look(s, v.w.c, v.w.p, v.w.j) && k < |s.procs|
    ensures Exclusive(s, v, k)
  {
    hide Inv, HoldsWait;
    if HoldsWait(v.q.pc) && HoldsWait(s.procs[k].pc) {
      OneWaiter(s, v.w.p, k);
    }
  }

  lemma AppliedRest(s: State, v: View, kind: Kind, choice: nat)
    requires Steps(s, v, ProcStep(v, kind, choice)) && Aimed(v, kind) && v.w.n == |s.procs|
    ensures var s' := Apply(s, ProcStep(v, kind, choice)); Cpus(s') && Locks(s') && Pids(s') && InitAlive(s')
  {
    hide Inv, Seen, Aimed, ProcStep, OwnOk, OtherOk, WaitLockOk, LinksOk, PidsOk, Look, Apply, LocksOk, KidsOk, CpuInv,
         WaitInv, LockInv, PidInv, ReapedInv, InitAlive;
    var v' := ProcStep(v, kind, choice);
    var s' := Apply(s, v');
    forall d | 0 <= d < |s'.cpus| ensures CpuInv(s', d) && WaitInv(s', d) {
      ApplyCpu(s, v, v', d);
    }
    forall d, i | 0 <= d < |s'.cpus| && 0 <= i < |s'.procs| ensures LockInv(s', d, i) {
      ProcStepLocks(v, kind, choice, i);
      ApplyLock(s, v, v', d, i);
    }
    ApplyReaped(s, v, v');
    forall i, k | 0 <= i < |s'.procs| && 0 <= k < |s'.procs| ensures PidInv(s', i, k) {
      ApplyPid(s, v, v', i, k);
    }
  }

  // ------------------------------------------------------------------ the scheduler

  /** What a scheduler step does to process p and CPU c. */
  ghost predicate SchedMoves(s: State, s': State, c: nat, p: nat) {
    && Inv(s) && c < |s.cpus| && p < |s.procs| && !s.cpus[c].ctx.In? && (s.cpus[c].ctx.Loop? || s.cpus[c].ctx.p == p)
    && SchedTo(s, s', c, p, s.procs[p], s.locks[p], s.cpus[c].ctx)
  }

  ghost predicate SchedTo(s: State, s': State, c: nat, p: nat, q: Process, lock: Opt, ctx: Context)
    requires Sized(s) && c < |s.cpus| && p < |s.procs|
  {
    || (ctx.Loop? && lock.None? && s' == Sched(s, c, p, q, Some(c), Got(p), None))
    || (ctx.Got? && q.state.RUNNABLE? && s' == Sched(s, c, p, q.(state := RUNNING, on := Some(c)), lock, Ran(p), None))
    || (ctx.Got? && s' == Sched(s, c, p, q, lock, Rel(p), None))
    || (ctx.Ran? && s' == Sched(s, c, p, q, lock, Switch(p), Some(p)))
    || (ctx.Switch? && s' == Sched(s, c, p, Resumed(q), lock, In(p), Some(p)))
    || (ctx.Back? && s' == Sched(s, c, p, q.(on := None), lock, Rel(p), None))
    || (ctx.Rel? && s' == Sched(s, c, p, q, None, Loop, None))
  }

  lemma SchedOn(s: State, s': State, c: nat, p: nat, k: nat)
    requires SchedMoves(s, s', c, p) && k < |s.procs|
    ensures Well(s'.procs[k]) && OnInv(s', k)
  {
    hide Pids, HoldsWait, LinkInv, KidInv;
    assert ProcInv(s, k) && ProcInv(s, p) && CpuInv(s, c) && LockInv(s, c, p);
    if s.cpus[c].ctx.Got? && s.procs[p].on.Some? {
      assert LockInv(s, s.procs[p].on.v, p);
    }
  }

  ghost predicate SchedKept(q: Process, q': Process) {
    && q'.parent == q.parent && q'.maker == q.maker && q'.wake == q.wake && q'.chan == q.chan
    && (q'.state == q.state || (q.state.RUNNABLE? && q'.state.RUNNING?))
    && (q'.pc == q.pc || (q.pc.WaitOut? && q'.pc.WaitBack? && q.state.RUNNING?))
  }

  lemma SchedKeeps(s: State, s': State, c: nat, p: nat, k: nat)
    requires SchedMoves(s, s', c, p) && k < |s.procs|
    ensures |s'.procs| == |s.procs| && SchedKept(s.procs[k], s'.procs[k])
  {
    hide Pids, Locks, LinkInv, KidInv, WaitInv, Well;
    assert CpuInv(s, c) && ProcInv(s, p);
  }

  lemma SchedLink(s: State, s': State, c: nat, p: nat, k: nat)
    requires SchedMoves(s, s', c, p) && k < |s.procs|
    ensures LinkInv(s', k) && KidInv(s', k)
  {
    hide Pids, Locks, HoldsWait, Holds, Cpus, OnInv, SchedTo, Sched;
    assert ProcInv(s, k);
    var q := s.procs[k];
    SchedKeeps(s, s', c, p, k);
    if Points(q.pc) {
      SchedKeeps(s, s', c, p, q.pc.j);
    }
    if q.maker.Some? {
      SchedKeeps(s, s', c, p, q.maker.v);
    }
    if q.parent.Some? {
      SchedKeeps(s, s', c, p, q.parent.v);
    }
  }

  lemma SchedCpu(s: State, s': State, c: nat, p: nat, d: nat)
    requires SchedMoves(s, s', c, p) && d < |s.cpus|
    ensures CpuInv(s', d) && WaitInv(s', d)
  {
    hide Pids;
    assert ProcInv(s, p) && CpuInv(s, c) && WaitInv(s, c) && CpuInv(s, d) && WaitInv(s, d) && LockInv(s, c, p)
      && LockInv(s, d, p);
  }

  lemma SchedLock(s: State, s': State, c: nat, p: nat, d: nat, i: nat)
    requires SchedMoves(s, s', c, p) && d < |s.cpus| && i < |s.procs|
    ensures LockInv(s', d, i)
  {
    hide Pids;
    assert ProcInv(s, p) && CpuInv(s, c) && CpuInv(s, d) && LockInv(s, c, i) && LockInv(s, d, i);
    assert LockInv(s, c, p) && LockInv(s, d, p);
  }

  lemma SchedPids(s: State, s': State, c: nat, p: nat)
    requires SchedMoves(s, s', c, p)
    ensures Pids(s') && InitAlive(s')
  {
    assert ProcInv(s, p);
    forall i, k | 0 <= i < |s'.procs| && 0 <= k < |s'.procs| ensures PidInv(s', i, k) {
      assert PidInv(s, i, k);
    }
  }

  lemma SchedStepInv(s: State, c: nat, choice: nat)
    requires Inv(s) && c < |s.cpus| && !s.cpus[c].ctx.In?
    ensures Inv(SchedStep(s, c, choice))
  {
    hide Well, OnInv, LinkInv, KidInv, CpuInv, WaitInv, LockInv, Pids, InitAlive, Sched;
    var s' := SchedStep(s, c, choice);
    var p := if s.cpus[c].ctx.Loop? then choice else s.cpus[c].ctx.p;
    if s' != s {
      assert SchedMoves(s, s', c, p);
      forall k | 0 <= k < |s'.procs| ensures ProcInv(s', k) {
        SchedOn(s, s', c, p, k);
        SchedLink(s, s', c, p, k);
      }
      forall d | 0 <= d < |s'.cpus| ensures CpuInv(s', d) && WaitInv(s', d) {
        SchedCpu(s, s', c, p, d);
      }
      forall d, i | 0 <= d < |s'.cpus| && 0 <= i < |s'.procs| ensures LockInv(s', d, i) {
        SchedLock(s, s', c, p, d, i);
      }
      SchedPids(s, s', c, p);
    }
  }

  lemma {:induction false} RunInv(n: nat, cpus: nat, es: seq<Event>)
    requires n > 0
    ensures Inv(Run(Init(n, cpus), es))
  {
    hide Inv, StepOf, SchedStep, Init;
    if es == [] {
      InitInv(n, cpus);
    } else {
      var e, s := es[|es| - 1], Run(Init(n, cpus), es[..|es| - 1]);
      RunInv(n, cpus, es[..|es| - 1]);
      StepInv(s, e);
    }
  }

  lemma StepInv(s: State, e: Event)
    requires Inv(s)
    ensures Inv(Step(s, e))
  {
    hide ProcInv, WaitInv, Locks, Pids, StepOf, SchedStep;
    if e.c < |s.cpus| {
      assert CpuInv(s, e.c);
      var ctx := s.cpus[e.c].ctx;
      if ctx.In? {
        StepOfInv(s, e.c, ctx.p, e.kind, e.choice);
      } else {
        SchedStepInv(s, e.c, e.choice);
      }
    }
  }

  // -------------------------------------------------------------- what every run keeps

  /** Whenever a process's spinlock is free, the process is RUNNING exactly when a CPU has it
      as c->proc, and then exactly one CPU does. */
  lemma RunningIffOnCpu(n: nat, cpus: nat, es: seq<Event>, p: nat)
    requires p < n
    ensures var s := Run(Init(n, cpus), es);
            && (s.locks[p].None? ==> (s.procs[p].state.RUNNING? <==>
                                      exists c :: 0 <= c < |s.cpus| && s.cpus[c].proc == Some(p)))
            && (forall c, d ::
                  0 <= c < |s.cpus| && 0 <= d < |s.cpus| && s.cpus[c].proc == Some(p) && s.cpus[d].proc == Some(p) ==>
                    c == d)
  {
    hide Run, Locks, Pids, LinkInv, KidInv, WaitInv, Holds, Init;
    RunInv(n, cpus, es);
    var s := Run(Init(n, cpus), es);
    RunSizes(n, cpus, es);
    assert ProcInv(s, p);
    forall c | 0 <= c < |s.cpus| && s.cpus[c].proc == Some(p)
      ensures s.procs[p].on == Some(c) && (s.locks[p].None? ==> s.procs[p].state.RUNNING?)
    {
      assert CpuInv(s, c);
      FreeMeansRunning(s, c, p);
    }
    if s.locks[p].None? && s.procs[p].state.RUNNING? {
      var c := s.procs[p].on.v;
      assert CpuInv(s, c);
      FreeMeansProc(s, c, p);
    }
  }

  lemma RunSizes(n: nat, cpus: nat, es: seq<Event>)
    requires n > 0
    ensures |Run(Init(n, cpus), es).procs| == |Run(Init(n, cpus), es).locks| == n
    ensures |Run(Init(n, cpus), es).cpus| == cpus
  {
  }

  lemma FreeMeansRunning(s: State, c: nat, p: nat)
    requires Inv(s) && c < |s.cpus| && p < |s.procs| && s.cpus[c].proc == Some(p)
    ensures s.locks[p].None? ==> s.procs[p].state.RUNNING?
  {
    hide Pids, LinkInv, KidInv, WaitInv, TargetPc;
    assert CpuInv(s, c) && ProcInv(s, p) && LockInv(s, c, p);
  }

  lemma FreeMeansProc(s: State, c: nat, p: nat)
    requires Inv(s) && c < |s.cpus| && p < |s.procs| && s.procs[p].on == Some(c) && s.locks[p].None?
    ensures s.cpus[c].proc == Some(p)
  {
    hide Pids, LinkInv, KidInv, WaitInv, TargetPc;
    assert CpuInv(s, c) && ProcInv(s, p) && LockInv(s, c, p);
  }

  /** No process that is UNUSED or a ZOMBIE has children: an exiting process gives its
      children away, under wait_lock, before it becomes a zombie. */
  lemma NoOrphans(n: nat, cpus: nat, es: seq<Event>, i: nat)
    requires i < n
    ensures var s := Run(Init(n, cpus), es);
            s.procs[i].parent.Some? ==>
              var p := s.procs[i].parent.v; p < n && p != i && !s.procs[p].state.UNUSED? && !s.procs[p].state.ZOMBIE?
  {
    hide Run, Locks, Pids, LinkInv, WaitInv, Holds, Init, OnInv;
    RunInv(n, cpus, es);
    RunSizes(n, cpus, es);
    var s := Run(Init(n, cpus), es);
    assert ProcInv(s, i);
    if s.procs[i].parent.Some? {
      assert ProcInv(s, s.procs[i].parent.v);
    }
  }

  /** The process that wait is about to free is a zombie that no CPU runs or is still
      switching away from, and it is a child of the waiting process. */
  lemma ReapsOnlyTheDead(n: nat, cpus: nat, es: seq<Event>, c: nat, p: nat, j: nat)
    requires n > 0
    ensures var s := Run(Init(n, cpus), es);
            At(s, c, p) && s.procs[p].pc == WaitFree(j) ==>
              && j < n && s.procs[j].state.ZOMBIE? && s.procs[j].pc.Dead? && s.procs[j].parent == Some(p)
              && forall d :: 0 <= d < |s.cpus| ==> s.cpus[d].proc != Some(j)
  {
    hide Run, Locks, Pids, WaitInv, Holds, Init;
    RunInv(n, cpus, es);
    RunSizes(n, cpus, es);
    var s := Run(Init(n, cpus), es);
    if At(s, c, p) && s.procs[p].pc == WaitFree(j) {
      assert ProcInv(s, p);
      ReapedIsOff(s, c, p, j);
      assert ProcInv(s, j);
      forall d | 0 <= d < |s.cpus| ensures s.cpus[d].proc != Some(j) {
        assert CpuInv(s, d);
      }
    }
  }

  lemma ReapedIsOff(s: State, c: nat, p: nat, j: nat)
    requires Inv(s) && At(s, c, p) && s.procs[p].pc == WaitFree(j)
    ensures j < |s.procs| && j != p && s.procs[j].state.ZOMBIE? && s.procs[j].on.None? && s.procs[j].pc.Dead?
  {
    hide Pids, KidInv, WaitInv;
    assert ProcInv(s, p) && LockInv(s, c, j) && CpuInv(s, c);
    assert j != p;
    NotElsewhere(s, c, p, j);
    assert ProcInv(s, j);
  }

  /** Over every run no process is reaped twice: the pids wait returns are all different. */
  lemma ReapedOnce(n: nat, cpus: nat, es: seq<Event>, i: nat, j: nat)
    requires n > 0
    ensures var r := Run(Init(n, cpus), es).reaped; i < j < |r| ==> r[i] != r[j]
  {
    hide Run, Init, Locks, Procs, Cpus;
    RunInv(n, cpus, es);
  }

  /** sched's panics do not happen: a process that switches to the scheduler has given up the
      state RUNNING and holds its own spinlock and no other lock. */
  lemma SchedCalledRight(n: nat, cpus: nat, es: seq<Event>, c: nat, p: nat, i: nat)
    requires p < n && i < n
    ensures var s := Run(Init(n, cpus), es);
            At(s, c, p) && (s.procs[p].pause.PauseSet? || s.procs[p].pc.WaitSwitch? || s.procs[p].pc.ExitSwitch?) ==>
              !s.procs[p].state.RUNNING? && (s.locks[i] == Some(c) <==> i == p) && s.waitLock != Some(c)
  {
    hide Run, Init, Pids, KidInv;
    RunInv(n, cpus, es);
    RunSizes(n, cpus, es);
    var s := Run(Init(n, cpus), es);
    if At(s, c, p) {
      assert ProcInv(s, p) && CpuInv(s, c) && WaitInv(s, c) && LockInv(s, c, i);
    }
  }
}
