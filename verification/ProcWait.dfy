/**
 wait and exit together: the wakeups that exit makes under wait_lock are enough. Whenever
 wait_lock is free, no process that sleeps in wait has a zombie child.
 */
module ProcWait {

  import opened Proc

  /** In wait, the process has looked at entry i of the table, or sleeps having looked at all. */
  ghost predicate Past(q: Process, i: nat) {
    || ((q.pc.WaitScan? || q.pc.WaitGot?) && i < q.pc.j)
    || (q.pc.WaitSkip? && i <= q.pc.j)
    || q.pc.WaitOwn? || q.pc.WaitRel? || q.pc.WaitSleep?
    || (Asleep(q.pc) && q.state.SLEEPING?)
  }

  ghost predicate Asleep(pc: Pc) {
    pc.WaitSwitch? || pc.WaitOut?
  }

  /** The process is in a wakeup on the channel of p that has yet to look at p. */
  ghost predicate Alarm(q: Process, p: nat) {
    || (q.wake.WakeNext? && q.wake.t == p && q.wake.j <= p)
    || (q.wake.WakeGot? && q.wake.to == Some(p) && q.wake.j <= p)
    || (q.wake.WakeDone? && q.wake.to == Some(p) && q.wake.j < p)
  }

  /** The process has announced its end to its parent, or is doing so. */
  ghost predicate Tells(pc: Pc) {
    pc.ExitOwn? || pc.ExitZombie?
  }

  ghost predicate Chans(q: Process, p: nat) {
    && (Asleep(q.pc) ==> q.chan == Some(p))
    && (q.state.SLEEPING? && q.chan.Some? ==> Asleep(q.pc))
  }

  /** A zombie that its parent has missed is being announced. */
  ghost predicate DozeInv(s: State, p: nat, i: nat)
    requires p < |s.procs| && i < |s.procs|
  {
    Past(s.procs[p], i) && s.procs[i].state.ZOMBIE? && s.procs[i].parent == Some(p) ==>
      exists e :: 0 <= e < |s.procs| && Alarm(s.procs[e], p)
  }

  /** A process that is about to become a zombie has not been missed. */
  ghost predicate TellInv(s: State, p: nat, e: nat)
    requires p < |s.procs| && e < |s.procs|
  {
    Tells(s.procs[e].pc) && s.procs[e].parent == Some(p) ==> !Past(s.procs[p], e) || Alarm(s.procs[e], p)
  }

  ghost predicate WatchInv(s: State) {
    && (forall p :: 0 <= p < |s.procs| ==> Chans(s.procs[p], p))
    && (forall p, i :: 0 <= p < |s.procs| && 0 <= i < |s.procs| ==> DozeInv(s, p, i) && TellInv(s, p, i))
  }

  // ------------------------------------------------------------------ one step's view

  /** A process moves past entry i only under wait_lock, and not past a zombie child. */
  ghost predicate PastOk(v: View, v': View, i: nat) {
    Past(v'.q, i) ==>
      || Past(v.q, i)
      || (HoldsWait(v.q.pc) && i == v.w.j && (v'.other.parent != Some(v.w.p) || !v'.other.state.ZOMBIE?))
  }

  /** Another process does not move, or is woken; a zombie gets a new parent only with an alarm. */
  ghost predicate ElseOk(v: View, v': View, i: nat) {
    && (Past(v'.other, i) ==> Past(v.other, i))
    && (v'.other.state.ZOMBIE? ==> v.other.state.ZOMBIE?)
    && (Tells(v'.other.pc) ==> Tells(v.other.pc))
    && v'.other.wake == v.other.wake
    && (!HoldsWait(v.q.pc) ==> v'.other.parent == v.other.parent)
    && ( || v'.other.parent == v.other.parent || v'.other.parent.None? || !v'.other.state.ZOMBIE?
         || (v'.other.parent == Some(0) && Alarm(v'.q, 0)))
    && Chans(v'.other, v.w.j)
  }

  /** An alarm ends only when the process it is for is not asleep. */
  ghost predicate AlarmOk(v: View, v': View, p: nat, i: nat) {
    Alarm(v.q, p) ==> Alarm(v'.q, p) || p == v.w.p || (p == v.w.j && !Past(v'.other, i))
  }

  ghost predicate TellOk(v: View, v': View) {
    && (Tells(v'.q.pc) ==> Tells(v.q.pc) || (v.q.parent.Some? ==> Alarm(v'.q, v.q.parent.v)))
    && (v'.q.state.ZOMBIE? ==> v.q.state.ZOMBIE? || (v.q.pc.ExitZombie? && v.q.wake.NoWake?))
    && (v'.q.pc.ExitZombie? && !v.q.pc.ExitZombie? ==> v.q.wake.NoWake?)
    && v'.q.parent == v.q.parent
    && Chans(v'.q, v.w.p)
  }

  ghost predicate WatchOk(v: View, v': View, p: nat, i: nat) {
    && v'.w == v.w && PastOk(v, v', i) && AlarmOk(v, v', p, i) && TellOk(v, v')
    && (v.w.j != v.w.p ==> ElseOk(v, v', i))
  }

  /** What the step relies on: a process it has by the lock sleeps if it has gone past i. */
  ghost predicate Watches(v: View, i: nat) {
    && Chans(v.q, v.w.p) && Chans(v.other, v.w.j) && i < v.w.n
    && (Calling(v.q.wake) && v.w.j != v.w.p && v.lock == Some(v.w.c) && Past(v.other, i) ==> v.other.pc.WaitOut?)
  }

  lemma ForkWatch(v: View, choice: nat, p: nat, i: nat)
    requires Seen(v) && Aimed(v, Code) && Watches(v, i) && p < v.w.n && Ready(v.q) && InFork(v.q.pc)
    ensures WatchOk(v, ForkStep(v, choice), p, i)
  {
    hide Fits, Knows, MayHaveKid, Holds, HoldsWait;
  }

  lemma PublishWatch(v: View, p: nat, i: nat)
    requires Seen(v) && Aimed(v, Code) && Watches(v, i) && p < v.w.n && Ready(v.q) && InPublish(v.q.pc)
    ensures WatchOk(v, PublishStep(v), p, i)
  {
    hide Fits, MayHaveKid, Holds;
  }

  lemma ExitWatch(v: View, p: nat, i: nat)
    requires Seen(v) && Aimed(v, Code) && Watches(v, i) && p < v.w.n && Ready(v.q) && InExit(v.q.pc)
    ensures WatchOk(v, ExitStep(v), p, i)
  {
    hide Fits, Knows, MayHaveKid, Holds;
  }

  lemma WaitWatch(v: View, choice: nat, p: nat, i: nat)
    requires Seen(v) && Aimed(v, Code) && Watches(v, i) && p < v.w.n && Ready(v.q) && InWait(v.q.pc)
    ensures WatchOk(v, WaitStep(v, choice), p, i)
  {
    hide Fits, MayHaveKid, Holds;
  }

  lemma DozeWatch(v: View, p: nat, i: nat)
    requires Seen(v) && Aimed(v, Code) && Watches(v, i) && p < v.w.n && Ready(v.q) && InDoze(v.q.pc)
    ensures WatchOk(v, DozeStep(v), p, i)
  {
    hide Fits, Knows, MayHaveKid, Holds, HoldsWait;
  }

  lemma PauseWatch(v: View, choice: nat, p: nat, i: nat)
    requires Seen(v) && Aimed(v, Pausing) && Watches(v, i) && p < v.w.n
    ensures WatchOk(v, PauseStep(v, choice), p, i)
  {
    hide Fits, Knows, MayHaveKid, Holds, HoldsWait;
  }

  lemma WakeWatch(v: View, choice: nat, p: nat, i: nat)
    requires Seen(v) && Aimed(v, Waking) && Watches(v, i) && p < v.w.n
    ensures WatchOk(v, WakeStep(v, choice), p, i)
  {
    hide WatchOk, WakeStep, Seen, Watches;
    if v.q.wake.WakeGot? {
      LookWatch(v, choice, p, i);
    } else {
      MoveWatch(v, choice, p, i);
    }
  }

  lemma LookWatch(v: View, choice: nat, p: nat, i: nat)
    requires Seen(v) && Aimed(v, Waking) && Watches(v, i) && p < v.w.n && v.q.wake.WakeGot?
    ensures WatchOk(v, WakeStep(v, choice), p, i)
  {
    hide Fits, Knows, MayHaveKid, HoldsWait, Holds;
  }

  lemma MoveWatch(v: View, choice: nat, p: nat, i: nat)
    requires Seen(v) && Aimed(v, Waking) && Watches(v, i) && p < v.w.n && !v.q.wake.WakeGot?
    ensures WatchOk(v, WakeStep(v, choice), p, i)
  {
    hide Fits, Knows, MayHaveKid, HoldsWait, Holds, Well;
  }

  lemma WatchStep(v: View, kind: Kind, choice: nat, p: nat, i: nat)
    requires Seen(v) && Aimed(v, kind) && Watches(v, i) && p < v.w.n
    ensures WatchOk(v, ProcStep(v, kind, choice), p, i)
  {
    hide ForkStep, PublishStep, ExitStep, WaitStep, DozeStep, PauseStep, WakeStep, Seen, Aimed;
    if kind.Pausing? {
      PauseWatch(v, choice, p, i);
    } else if kind.Waking? {
      WakeWatch(v, choice, p, i);
    } else if Ready(v.q) {
      if InFork(v.q.pc) {
        ForkWatch(v, choice, p, i);
      } else if InPublish(v.q.pc) {
        PublishWatch(v, p, i);
      } else if InExit(v.q.pc) {
        ExitWatch(v, p, i);
      } else if InDoze(v.q.pc) {
        DozeWatch(v, p, i);
      } else if !v.q.pc.User? {
        WaitWatch(v, choice, p, i);
      }
    }
  }

  // ------------------------------------------------------------ from views to states

  /** A process whose spinlock an exiting process has, and that has gone past i, is switched
      out: before that it holds wait_lock or its own spinlock. */
  lemma HeldIsOut(s: State, c: nat, p: nat, j: nat, i: nat)
    requires Inv(s) && At(s, c, p) && j < |s.procs| && j != p && s.locks[j] == Some(c)
    requires HoldsWait(s.procs[p].pc) && Past(s.procs[j], i)
    ensures s.procs[j].pc.WaitOut?
  {
    hide Inv, HoldsWait, Past, Leaving;
    NotElsewhere(s, c, p, j);
    NotDozing(s, c, p, j);
    if HoldsWait(s.procs[j].pc) {
      OneWaiter(s, p, j);
    }
    OutIfPast(s.procs[j], i);
  }

  lemma OutIfPast(q: Process, i: nat)
    requires Past(q, i) && !HoldsWait(q.pc) && !Leaving(q) && !q.pc.WaitSleep?
    ensures q.pc.WaitOut?
  {
  }

  lemma NotDozing(s: State, c: nat, p: nat, j: nat)
    requires Inv(s) && At(s, c, p) && j < |s.procs| && j != p && s.locks[j] == Some(c)
    ensures !s.procs[j].pc.WaitSleep?
  {
    hide Pids, KidInv, LinkInv, WaitInv;
    assert ProcInv(s, j);
    if s.procs[j].on.Some? {
      assert LockInv(s, s.procs[j].on.v, j);
    }
  }

  /** The invariant, seen by a step. */
  lemma LookWatches(s: State, c: nat, p: nat, j: nat, i: nat)
    requires Inv(s) && WatchInv(s) && At(s, c, p) && j < |s.procs| && i < |s.procs|
    ensures Watches(Look(s, c, p, j), i)
  {
    hide Inv, Past;
    var v := Look(s, c, p, j);
    if Calling(v.q.wake) && j != p && v.lock == Some(c) && Past(v.other, i) {
      CallerHoldsWait(s, p);
      HeldIsOut(s, c, p, j, i);
    }
  }

  lemma CallerHoldsWait(s: State, p: nat)
    requires Inv(s) && p < |s.procs| && Calling(s.procs[p].wake)
    ensures HoldsWait(s.procs[p].pc) && (s.procs[p].pc.ExitGive? || s.procs[p].pc.ExitOwn?)
  {
    assert ProcInv(s, p);
  }

  /** v is what a process sees in s, and v' is v after a step, as far as p and i go. */
  ghost predicate Watched(s: State, v: View, v': View, p: nat, i: nat) {
    && Inv(s) && WatchInv(s) && At(s, v.w.c, v.w.p) && v.w.j < |s.procs| && v == Look(s, v.w.c, v.w.p, v.w.j)
    && p < |s.procs| && i < |s.procs| && WatchOk(v, v', p, i)
  }

  lemma DozeKept(s: State, v: View, v': View, p: nat, i: nat)
    requires Watched(s, v, v', p, i)
    ensures DozeInv(Apply(s, v'), p, i)
  {
    hide Procs, Cpus, Locks, Pids, Past, HoldsWait;
    var s' := Apply(s, v');
    assert DozeInv(s, p, i) && TellInv(s, p, v.w.p);
    NotOwnKid(s, i);
    if Past(s'.procs[p], i) && s'.procs[i].state.ZOMBIE? && s'.procs[i].parent == Some(p) {
      if s.procs[i].state.ZOMBIE? && s.procs[i].parent == Some(p) && Past(s.procs[p], i) {
        var e :| 0 <= e < |s.procs| && Alarm(s.procs[e], p);
        NotPastCaller(s, e, p, i);
        assert Alarm(s'.procs[e], p);
      } else {
        assert Alarm(s'.procs[v.w.p], p);
      }
    }
  }

  /** A process in one of exit's wakeups is not in wait. */
  lemma NotPastCaller(s: State, e: nat, p: nat, i: nat)
    requires Inv(s) && e < |s.procs| && p < |s.procs| && Alarm(s.procs[e], p) && Past(s.procs[p], i)
    ensures e != p
  {
    hide Inv;
    CallerHoldsWait(s, e);
  }

  lemma NotOwnKid(s: State, i: nat)
    requires Inv(s) && i < |s.procs|
    ensures s.procs[i].parent != Some(i)
  {
    assert ProcInv(s, i);
  }

  lemma TellKept(s: State, v: View, v': View, p: nat, i: nat)
    requires Watched(s, v, v', p, i)
    ensures TellInv(Apply(s, v'), p, i)
  {
    hide Procs, Cpus, Locks, Pids, Past, HoldsWait;
    var s' := Apply(s, v');
    assert TellInv(s, p, i);
    NotOwnKid(s, i);
    if Tells(s.procs[i].pc) {
      TellerHoldsWait(s.procs[i].pc);
      ExclusiveOf(s, v, i);
    }
  }

  lemma TellerHoldsWait(pc: Pc)
    requires Tells(pc)
    ensures HoldsWait(pc)
  {
  }

  /** A step of a process keeps the invariant. */
  lemma StepOfWatch(s: State, c: nat, p: nat, kind: Kind, choice: nat)
    requires Inv(s) && WatchInv(s) && At(s, c, p)
    ensures WatchInv(StepOf(s, c, p, kind, choice))
  {
    hide Inv, Seen, Aimed, ProcStep, DozeInv, TellInv, PastOk, AlarmOk, TellOk, ElseOk, Aim, Watches, Chans;
    var j := Aim(s.procs[p], p, |s.procs|, kind, choice);
    LookSeen(s, c, p, kind, choice);
    var v := Look(s, c, p, j);
    var v' := ProcStep(v, kind, choice);
    var s' := StepOf(s, c, p, kind, choice);
    LookWatches(s, c, p, j, p);
    WatchStep(v, kind, choice, p, p);
    assert s' == Apply(s, v');
    forall k, i | 0 <= k < |s.procs| && 0 <= i < |s.procs|
      ensures DozeInv(s', k, i) && TellInv(s', k, i)
    {
      LookWatches(s, c, p, j, i);
      WatchStep(v, kind, choice, k, i);
      DozeKept(s, v, v', k, i);
      TellKept(s, v, v', k, i);
    }
    forall k | 0 <= k < |s.procs| ensures Chans(s'.procs[k], k) {
      WatchStep(v, kind, choice, k, p);
      ChansKept(s, v, v', k, p);
    }
  }

  lemma ChansKept(s: State, v: View, v': View, p: nat, i: nat)
    requires Watched(s, v, v', p, i)
    ensures Chans(Apply(s, v').procs[p], p)
  {
    hide Inv, PastOk, AlarmOk, Past, Alarm, HoldsWait, Chans;
  }

  lemma SchedWatch(s: State, c: nat, choice: nat)
    requires Inv(s) && WatchInv(s) && c < |s.cpus| && !s.cpus[c].ctx.In?
    ensures WatchInv(SchedStep(s, c, choice))
  {
    hide Inv, Sched, DozeInv, TellInv, Chans;
    OnCpu(s, c);
    var s' := SchedStep(s, c, choice);
    var p := if s.cpus[c].ctx.Loop? then choice else s.cpus[c].ctx.p;
    if s' != s {
      assert SchedMoves(s, s', c, p);
      AllSchedKept(s, s', c, p);
      forall k, i | 0 <= k < |s'.procs| && 0 <= i < |s'.procs| ensures DozeInv(s', k, i) && TellInv(s', k, i) {
        KeptWatch(s, s', k, i);
      }
      forall k | 0 <= k < |s'.procs| ensures Chans(s'.procs[k], k) {
        KeptWatch(s, s', k, k);
      }
    }
  }

  ghost predicate AllKept(s: State, s': State) {
    |s'.procs| == |s.procs| && forall k :: 0 <= k < |s.procs| ==> SchedKept(s.procs[k], s'.procs[k])
  }

  lemma AllSchedKept(s: State, s': State, c: nat, p: nat)
    requires SchedMoves(s, s', c, p)
    ensures AllKept(s, s')
  {
    hide SchedKept, Inv, SchedTo;
    forall k | 0 <= k < |s.procs| ensures |s'.procs| == |s.procs| && SchedKept(s.procs[k], s'.procs[k]) {
      SchedKeeps(s, s', c, p, k);
    }
    SchedKeeps(s, s', c, p, p);
  }

  lemma KeptWatch(s: State, s': State, p: nat, i: nat)
    requires WatchInv(s) && AllKept(s, s') && p < |s.procs| && i < |s.procs|
    ensures DozeInv(s', p, i) && TellInv(s', p, i) && Chans(s'.procs[p], p)
  {
    assert DozeInv(s, p, i) && TellInv(s, p, i) && Chans(s.procs[p], p);
    assert SchedKept(s.procs[p], s'.procs[p]) && SchedKept(s.procs[i], s'.procs[i]);
    if Past(s'.procs[p], i) && s'.procs[i].state.ZOMBIE? && s'.procs[i].parent == Some(p) {
      var e :| 0 <= e < |s.procs| && Alarm(s.procs[e], p);
      assert SchedKept(s.procs[e], s'.procs[e]);
      assert Alarm(s'.procs[e], p);
    }
  }

  // -------------------------------------------------------------------------- runs

  lemma InitWatch(n: nat, cpus: nat)
    requires n > 0
    ensures WatchInv(Init(n, cpus))
  {
  }

  lemma {:induction false} RunWatch(n: nat, cpus: nat, es: seq<Event>)
    requires n > 0
    ensures WatchInv(Run(Init(n, cpus), es))
  {
    hide Inv, WatchInv, StepOf, SchedStep, Init;
    if es == [] {
      InitWatch(n, cpus);
    } else {
      var e, s := es[|es| - 1], Run(Init(n, cpus), es[..|es| - 1]);
      RunInv(n, cpus, es[..|es| - 1]);
      RunWatch(n, cpus, es[..|es| - 1]);
      if e.c < |s.cpus| {
        OnCpu(s, e.c);
        if s.cpus[e.c].ctx.In? {
          StepOfWatch(s, e.c, s.cpus[e.c].ctx.p, e.kind, e.choice);
        } else {
          SchedWatch(s, e.c, e.choice);
        }
      }
    }
  }

  lemma OnCpu(s: State, c: nat)
    requires Inv(s) && c < |s.cpus|
    ensures Sized(s) && (!s.cpus[c].ctx.Loop? ==> s.cpus[c].ctx.p < |s.procs|)
  {
    assert CpuInv(s, c);
  }

  /** In every run, whenever wait_lock is free, no process asleep in wait has a zombie child:
      exit's wakeup is never lost, and reparent's reaches init. */
  lemma NoMissedChild(n: nat, cpus: nat, es: seq<Event>, p: nat, i: nat)
    requires p < n && i < n
    ensures var s := Run(Init(n, cpus), es);
            s.waitLock.None? && s.procs[p].state.SLEEPING? && s.procs[p].chan == Some(p) && s.procs[i].parent == Some(p)
            ==> !s.procs[i].state.ZOMBIE?
  {
    hide Inv, Run, Init, Alarm;
    RunInv(n, cpus, es);
    RunWatch(n, cpus, es);
    RunSizes(n, cpus, es);
    var s := Run(Init(n, cpus), es);
    assert DozeInv(s, p, i) && Chans(s.procs[p], p);
    forall e | 0 <= e < |s.procs| && Alarm(s.procs[e], p) ensures s.waitLock.Some? {
      AlarmCalls(s.procs[e], p);
      CallerHoldsWait(s, e);
      WaiterCpu(s, e);
    }
  }

  lemma AlarmCalls(q: Process, p: nat)
    requires Alarm(q, p)
    ensures Calling(q.wake)
  {
  }

  /** The other side: the channel of a process is slept on only by that process, in wait. */
  lemma OwnChannel(n: nat, cpus: nat, es: seq<Event>, p: nat)
    requires p < n
    ensures var q := Run(Init(n, cpus), es).procs[p];
            q.state.SLEEPING? && q.chan.Some? <==> q.state.SLEEPING? && (q.pc.WaitSwitch? || q.pc.WaitOut?)
    ensures var q := Run(Init(n, cpus), es).procs[p]; q.state.SLEEPING? && q.chan.Some? ==> q.chan == Some(p)
  {
    hide Inv, Run, Init;
    RunWatch(n, cpus, es);
    RunSizes(n, cpus, es);
    assert Chans(Run(Init(n, cpus), es).procs[p], p);
  }
}
