/**
 The life of a process over every run: who may change its state, its parent and its pid, and
 what fork and wait have done when they are through.
 */
module ProcLife {

  import opened Proc
  import opened ProcWait

  // ------------------------------------------------------------------ one step's view

  /** A process gets a parent from the fork that makes it, init from its parent's exit, and
      loses it to its parent's wait. */
  ghost predicate FamilyOk(v: View, v': View) {
    || v'.other.parent == v.other.parent
    || (v.q.pc == ForkParent(v.w.j) && v.other.parent.None? && v.other.maker == v'.other.parent == Some(v.w.p))
    || (v.q.pc == ExitGive(v.w.j) && v.other.parent == Some(v.w.p) && v'.other.parent == Some(0))
    || (v.q.pc == WaitFree(v.w.j) && v.other.parent == Some(v.w.p) && v.other.state.ZOMBIE? && v'.other.parent.None?)
  }

  /** What another process may do to a process's state. */
  ghost predicate GivenOk(v: View, v': View) {
    || v'.other.state == v.other.state
    || (v.q.pc == ForkGot(v.w.j) && v.other.state.UNUSED? && v'.other.state.USED? && v'.other.pid == v.w.nextPid)
    || (v.q.pc == ForkMade(v.w.j) && v.other.maker == Some(v.w.p) && v.other.state.USED? && v'.other.state.UNUSED?)
    || (v.q.pc == ForkReady(v.w.j) && v.other.state.USED? && v'.other.state.RUNNABLE? && v.other.parent == Some(v.w.p))
    || (v.q.wake.WakeGot? && v.q.wake.j == v.w.j && v.other.state.SLEEPING? && v'.other.state.RUNNABLE?)
    || (v.q.pc == WaitUnused(v.w.j) && v.other.state.ZOMBIE? && v.other.parent.None? && v'.other.state.UNUSED?)
  }

  /** What a process does to its own. */
  ghost predicate TakenOk(v: View, v': View) {
    && v'.q.parent == v.q.parent && v'.q.pid == v.q.pid
    && ( || v'.q.state == v.q.state
         || (v.q.pause.PauseOwn? && v.q.state.RUNNING? && (v'.q.state.RUNNABLE? || v'.q.state.SLEEPING?))
         || (v.q.pc.WaitSleep? && v.q.state.RUNNING? && v'.q.state.SLEEPING?)
         || (v.q.pc.ExitZombie? && v.q.state.RUNNING? && v'.q.state.ZOMBIE?))
  }

  /** The pid changes only when the process is made. */
  ghost predicate PidOk(v: View, v': View) {
    v'.other.pid == v.other.pid || (v.q.pc == ForkGot(v.w.j) && v.other.state.UNUSED? && v'.other.pid == v.w.nextPid)
  }

  ghost predicate LifeOk(v: View, v': View) {
    && v'.w == v.w && TakenOk(v, v')
    && (v.w.j != v.w.p ==> FamilyOk(v, v') && GivenOk(v, v') && PidOk(v, v'))
  }

  lemma ForkLife(v: View, choice: nat)
    requires Seen(v) && Aimed(v, Code) && Ready(v.q) && InFork(v.q.pc)
    ensures LifeOk(v, ForkStep(v, choice))
  {
    hide Holds, MayHaveKid, HoldsWait;
  }

  lemma PublishLife(v: View)
    requires Seen(v) && Aimed(v, Code) && Ready(v.q) && InPublish(v.q.pc)
    ensures LifeOk(v, PublishStep(v))
  {
    hide Holds, MayHaveKid, HoldsWait;
  }

  lemma ExitLife(v: View)
    requires Seen(v) && Aimed(v, Code) && Ready(v.q) && InExit(v.q.pc)
    ensures LifeOk(v, ExitStep(v))
  {
    hide Holds, MayHaveKid, HoldsWait;
  }

  lemma WaitLife(v: View, choice: nat)
    requires Seen(v) && Aimed(v, Code) && Ready(v.q) && InWait(v.q.pc)
    ensures LifeOk(v, WaitStep(v, choice))
  {
    hide Holds, MayHaveKid, HoldsWait;
  }

  lemma DozeLife(v: View)
    requires Seen(v) && Aimed(v, Code) && Ready(v.q) && InDoze(v.q.pc)
    ensures LifeOk(v, DozeStep(v))
  {
    hide Holds, MayHaveKid, HoldsWait;
  }

  lemma PauseLife(v: View, choice: nat)
    requires Seen(v) && Aimed(v, Pausing)
    ensures LifeOk(v, PauseStep(v, choice))
  {
    hide Holds, MayHaveKid, HoldsWait;
  }

  lemma WakeLife(v: View, choice: nat)
    requires Seen(v) && Aimed(v, Waking)
    ensures LifeOk(v, WakeStep(v, choice))
  {
    hide Holds, MayHaveKid, HoldsWait;
  }

  lemma LifeStep(v: View, kind: Kind, choice: nat)
    requires Seen(v) && Aimed(v, kind)
    ensures LifeOk(v, ProcStep(v, kind, choice))
  {
    hide ForkStep, PublishStep, ExitStep, WaitStep, DozeStep, PauseStep, WakeStep, Seen, Aimed;
    if kind.Pausing? {
      PauseLife(v, choice);
    } else if kind.Waking? {
      WakeLife(v, choice);
    } else if Ready(v.q) {
      if InFork(v.q.pc) {
        ForkLife(v, choice);
      } else if InPublish(v.q.pc) {
        PublishLife(v);
      } else if InExit(v.q.pc) {
        ExitLife(v);
      } else if InDoze(v.q.pc) {
        DozeLife(v);
      } else if !v.q.pc.User? {
        WaitLife(v, choice);
      }
    }
  }

  // --------------------------------------------------------------------- over every run

  /** CPU c is running a process other than j; p is that process. */
  ghost predicate Other(s: State, c: nat, p: nat, j: nat) {
    c < |s.cpus| && s.cpus[c].ctx == In(p) && p < |s.procs| && p != j
  }

  ghost predicate ParentMoves(s: State, c: nat, s': State, p: nat, j: nat)
    requires j < |s.procs| == |s'.procs|
  {
    var a, b := s.procs[j], s'.procs[j];
    && Other(s, c, p, j)
    && ( || (s.procs[p].pc == ForkParent(j) && a.parent.None? && a.maker == Some(p) && b.parent == Some(p))
         || (s.procs[p].pc == ExitGive(j) && a.parent == Some(p) && b.parent == Some(0))
         || (s.procs[p].pc == WaitFree(j) && a.parent == Some(p) && a.state.ZOMBIE? && b.parent.None?))
  }

  /** A process is made, published, woken or freed by another one, ... */
  ghost predicate StateGiven(s: State, c: nat, s': State, p: nat, j: nat)
    requires j < |s.procs| == |s'.procs|
  {
    var a, b, q := s.procs[j].state, s'.procs[j].state, if p < |s.procs| then s.procs[p] else EMPTY;
    && Other(s, c, p, j)
    && ( || (q.pc == ForkGot(j) && a.UNUSED? && b.USED? && s'.procs[j].pid == s.nextPid)
         || (q.pc == ForkMade(j) && s.procs[j].maker == Some(p) && a.USED? && b.UNUSED?)
         || (q.pc == ForkReady(j) && s.procs[j].parent == Some(p) && a.USED? && b.RUNNABLE?)
         || (q.wake.WakeGot? && q.wake.j == j && a.SLEEPING? && b.RUNNABLE?)
         || (q.pc == WaitUnused(j) && s.procs[j].parent.None? && a.ZOMBIE? && b.UNUSED?))
  }

  /** ... started by a scheduler, and gives up the CPU or ends itself. */
  ghost predicate StateTaken(s: State, c: nat, s': State, j: nat)
    requires j < |s.procs| == |s'.procs|
  {
    var a, b, q := s.procs[j].state, s'.procs[j].state, s.procs[j];
    && c < |s.cpus|
    && ( || (s.cpus[c].ctx == Got(j) && a.RUNNABLE? && b.RUNNING?)
         || (s.cpus[c].ctx == In(j) && q.pause.PauseOwn? && a.RUNNING? && (b.RUNNABLE? || b.SLEEPING?))
         || (s.cpus[c].ctx == In(j) && q.pc.WaitSleep? && a.RUNNING? && b.SLEEPING?)
         || (s.cpus[c].ctx == In(j) && q.pc.ExitZombie? && a.RUNNING? && b.ZOMBIE?))
  }

  ghost predicate PidGiven(s: State, c: nat, s': State, p: nat, j: nat)
    requires j < |s.procs| == |s'.procs|
  {
    Other(s, c, p, j) && s.procs[p].pc == ForkGot(j) && s.procs[j].state.UNUSED? && s'.procs[j].pid == s.nextPid
  }

  /** What one step may do to process j. */
  ghost predicate Lives(s: State, c: nat, s': State, j: nat)
    requires j < |s.procs| == |s'.procs|
  {
    var a, b := s.procs[j], s'.procs[j];
    && (b.parent != a.parent ==> exists p :: ParentMoves(s, c, s', p, j))
    && (b.state != a.state ==> StateTaken(s, c, s', j) || exists p :: StateGiven(s, c, s', p, j))
    && (b.pid != a.pid ==> exists p :: PidGiven(s, c, s', p, j))
  }

  lemma LivesStep(s: State, c: nat, p: nat, kind: Kind, choice: nat, j: nat)
    requires Inv(s) && At(s, c, p) && j < |s.procs|
    ensures Lives(s, c, StepOf(s, c, p, kind, choice), j)
  {
    hide Inv, Seen, Aimed, ProcStep, Aim;
    LookSeen(s, c, p, kind, choice);
    var i := Aim(s.procs[p], p, |s.procs|, kind, choice);
    var v := Look(s, c, p, i);
    LifeStep(v, kind, choice);
    var s' := StepOf(s, c, p, kind, choice);
    if j == i && j != p {
      if s'.procs[j].parent != s.procs[j].parent {
        assert ParentMoves(s, c, s', p, j);
      }
      if s'.procs[j].state != s.procs[j].state {
        assert StateGiven(s, c, s', p, j);
      }
      if s'.procs[j].pid != s.procs[j].pid {
        assert PidGiven(s, c, s', p, j);
      }
    }
  }

  lemma LivesSched(s: State, c: nat, choice: nat, j: nat)
    requires Sized(s) && c < |s.cpus| && j < |s.procs|
    ensures Lives(s, c, SchedStep(s, c, choice), j)
  {
  }

  /** In every run, whatever step comes next: a process's parent changes only to its maker in
      fork, to init in its parent's exit, and to none in its parent's wait; its state only
      along the arrows of its life, and by the one who may; and it gets its pid when made. */
  lemma LifeCycle(n: nat, cpus: nat, es: seq<Event>, e: Event, j: nat)
    requires j < n
    ensures var s := Run(Init(n, cpus), es);
            |s.procs| == |Step(s, e).procs| == n && Lives(s, e.c, Step(s, e), j)
  {
    hide Inv, Run, Init, Lives, StepOf, SchedStep;
    RunInv(n, cpus, es);
    RunSizes(n, cpus, es);
    var s := Run(Init(n, cpus), es);
    if e.c < |s.cpus| {
      OnCpu(s, e.c);
      if s.cpus[e.c].ctx.In? {
        LivesStep(s, e.c, s.cpus[e.c].ctx.p, e.kind, e.choice, j);
      } else {
        LivesSched(s, e.c, e.choice, j);
      }
    } else {
      LivesSame(s, e.c, j);
    }
  }

  lemma LivesSame(s: State, c: nat, j: nat)
    requires j < |s.procs|
    ensures Lives(s, c, s, j)
  {
  }

  // ------------------------------------------------------------------------------ fork

  /** The state after i events. */
  ghost function After(n: nat, cpus: nat, es: seq<Event>, i: nat): (s: State)
    requires n > 0 && i <= |es|
    ensures |s.procs| == n && Sized(s)
  {
    Run(Init(n, cpus), es[..i])
  }

  /** At time a process p takes slot j, in allocproc. */
  ghost predicate Taken(n: nat, cpus: nat, es: seq<Event>, a: nat, p: nat, j: nat)
    requires p < n && a < |es|
  {
    After(n, cpus, es, a).procs[p].pc == ForkGot(j) && After(n, cpus, es, a + 1).procs[p].pc.ForkMade?
  }

  /** From then until time b it has not finished with that slot. */
  ghost predicate Keeps(n: nat, cpus: nat, es: seq<Event>, a: nat, b: nat, p: nat)
    requires p < n && a < b <= |es|
  {
    forall i :: a < i <= b ==> ForkHas(After(n, cpus, es, i).procs[p].pc)
  }

  /** fork's steps that deal with process j. */
  ghost predicate Making(pc: Pc) {
    pc.ForkGot? || ForkHas(pc)
  }

  /** What a step of a process that is making another one does: it goes on with that one. */
  ghost predicate MakeOk(q: Process, q': Process, t: Process, t': Process, nextPid: nat) {
    && (Making(q.pc) && ForkHas(q'.pc) ==> q'.pc.j == q.pc.j)
    && (q.pc.ForkGot? && q'.pc.ForkMade? ==> t'.pid == nextPid)
    && (ForkHas(q.pc) ==> t'.pid == t.pid)
    && (q.pc.ForkReady? && q'.pc.ForkEnd? ==> t'.state.RUNNABLE? && t'.parent == t.parent && t'.pc.User?)
  }

  lemma MakeView(v: View, kind: Kind, choice: nat)
    requires Seen(v) && Aimed(v, kind) && Making(v.q.pc) && (ForkHas(v.q.pc) ==> v.q.pc.j != v.w.p)
    ensures var v' := ProcStep(v, kind, choice);
            && (v.w.j == v.q.pc.j != v.w.p ==> MakeOk(v.q, v'.q, v.other, v'.other, v.w.nextPid))
            && (v.q.pc.j == v.w.p ==> !ForkHas(v'.q.pc))
    ensures var v' := ProcStep(v, kind, choice); v.w.j != v.q.pc.j ==> v'.q.pc == v.q.pc && v'.other.pid == v.other.pid
  {
    hide Holds, MayHaveKid, Fits;
  }

  /** A step of another process leaves p where it is. */
  lemma PcKept(s: State, c: nat, x: nat, kind: Kind, choice: nat, p: nat)
    requires Inv(s) && At(s, c, x) && p < |s.procs| && p != x && !s.procs[p].pc.Off? && !s.procs[p].pc.Dead?
    ensures StepOf(s, c, x, kind, choice).procs[p].pc == s.procs[p].pc
  {
    hide Inv, Seen, Aimed, ProcStep, Aim, LinksOk, PidsOk, OwnOk, WaitLockOk, Well;
    LookSeen(s, c, x, kind, choice);
    ProcStepOk(Look(s, c, x, Aim(s.procs[x], x, |s.procs|, kind, choice)), kind, choice);
  }

  lemma MadeIsUsed(s: State, p: nat)
    requires Inv(s) && p < |s.procs| && Making(s.procs[p].pc)
    ensures s.procs[p].pc.j < |s.procs| && (ForkHas(s.procs[p].pc) ==> s.procs[s.procs[p].pc.j].state.USED?)
    ensures ForkHas(s.procs[p].pc) ==> s.procs[p].pc.j != p
  {
    hide Pids, Locks, Cpus, KidInv;
    assert ProcInv(s, p);
  }

  /** Once named, the new process is the child of the one that makes it. */
  lemma ChildOf(s: State, p: nat)
    requires Inv(s) && p < |s.procs|
    ensures var pc := s.procs[p].pc;
            pc.ForkUnwait? || pc.ForkLock? || pc.ForkReady? ==> pc.j < |s.procs| && s.procs[pc.j].parent == Some(p)
  {
    hide Pids, Locks, Cpus, KidInv;
    assert ProcInv(s, p);
  }

  lemma MakeOwn(s: State, c: nat, p: nat, kind: Kind, choice: nat)
    requires Inv(s) && At(s, c, p) && Making(s.procs[p].pc)
    ensures var s', j := StepOf(s, c, p, kind, choice), s.procs[p].pc.j;
            && j < |s.procs|
            && if j == p then !ForkHas(s'.procs[p].pc)
               else MakeOk(s.procs[p], s'.procs[p], s.procs[j], s'.procs[j], s.nextPid)
  {
    hide Inv, Seen, Aimed, ProcStep, Aim;
    MadeIsUsed(s, p);
    LookSeen(s, c, p, kind, choice);
    var v := Look(s, c, p, Aim(s.procs[p], p, |s.procs|, kind, choice));
    MakeView(v, kind, choice);
    LifeStep(v, kind, choice);
  }

  lemma MakeStep(s: State, e: Event, p: nat)
    requires Inv(s) && p < |s.procs| && Making(s.procs[p].pc)
    ensures var s', j := Step(s, e), s.procs[p].pc.j;
            && j < |s.procs| && |s'.procs| == |s.procs|
            && if j == p then !ForkHas(s'.procs[p].pc)
               else MakeOk(s.procs[p], s'.procs[p], s.procs[j], s'.procs[j], s.nextPid)
  {
    hide Inv, StepOf, SchedStep;
    MadeIsUsed(s, p);
    var j := s.procs[p].pc.j;
    if e.c < |s.cpus| {
      OnCpu(s, e.c);
      var x := if s.cpus[e.c].ctx.In? then s.cpus[e.c].ctx.p else p;
      if !s.cpus[e.c].ctx.In? {
        SchedPc(s, e.c, e.choice, p);
        LivesSched(s, e.c, e.choice, j);
      } else if x == p {
        MakeOwn(s, e.c, p, e.kind, e.choice);
      } else {
        PcKept(s, e.c, x, e.kind, e.choice, p);
        LivesStep(s, e.c, x, e.kind, e.choice, j);
      }
    }
  }

  lemma SchedPc(s: State, c: nat, choice: nat, p: nat)
    requires Sized(s) && c < |s.cpus| && p < |s.procs| && !s.procs[p].pc.WaitOut?
    ensures SchedStep(s, c, choice).procs[p].pc == s.procs[p].pc
  {
  }

  lemma NextIs(n: nat, cpus: nat, es: seq<Event>, i: nat)
    requires n > 0 && i < |es|
    ensures After(n, cpus, es, i + 1) == Step(After(n, cpus, es, i), es[i])
  {
    assert es[..i + 1][..i] == es[..i];
  }

  lemma {:induction false} PidKept(n: nat, cpus: nat, es: seq<Event>, a: nat, b: nat, p: nat, j: nat)
    requires p < n && a < b <= |es| && Taken(n, cpus, es, a, p, j) && Keeps(n, cpus, es, a, b, p)
    ensures var s := After(n, cpus, es, b);
            j < n && j != p && s.procs[p].pc.j == j && s.procs[j].pid == After(n, cpus, es, a).nextPid
    decreases b
  {
    hide Inv, Init, Step, Run, After;
    var s := After(n, cpus, es, b - 1);
    AfterInv(n, cpus, es, b - 1);
    AfterInv(n, cpus, es, b);
    NextIs(n, cpus, es, b - 1);
    if b > a + 1 {
      PidKept(n, cpus, es, a, b - 1, p, j);
    }
    MakeStep(s, es[b - 1], p);
    MadeIsUsed(After(n, cpus, es, b), p);
  }

  lemma AfterInv(n: nat, cpus: nat, es: seq<Event>, i: nat)
    requires n > 0 && i <= |es|
    ensures Inv(After(n, cpus, es, i)) && |After(n, cpus, es, i).procs| == n
  {
    hide Inv, Run, Init;
    RunInv(n, cpus, es[..i]);
  }

  /** In every run, if p takes slot j at time a, and still has it, all steps since, at time b,
      when it makes j runnable: then j is runnable, is p's child, and has the pid that was the
      next one at time a. */
  lemma ForkDelivers(n: nat, cpus: nat, es: seq<Event>, a: nat, b: nat, p: nat, j: nat)
    requires p < n && a < b < |es| && Taken(n, cpus, es, a, p, j) && Keeps(n, cpus, es, a, b, p)
    requires After(n, cpus, es, b).procs[p].pc.ForkReady? && After(n, cpus, es, b + 1).procs[p].pc.ForkEnd?
    ensures j < n && j != p && After(n, cpus, es, b).procs[p].pc == ForkReady(j)
    ensures var t := After(n, cpus, es, b + 1).procs[j];
            t.state.RUNNABLE? && t.pc.User? && t.parent == Some(p) && t.pid == After(n, cpus, es, a).nextPid
  {
    hide Inv, Taken, Init, Step, Run, After;
    PidKept(n, cpus, es, a, b, p, j);
    AfterInv(n, cpus, es, b);
    ChildOf(After(n, cpus, es, b), p);
    NextIs(n, cpus, es, b);
    MakeStep(After(n, cpus, es, b), es[b], p);
  }

  // ------------------------------------------------------------------------------ wait

  /** One of the entries before j is a child of p. */
  ghost predicate HasKid(s: State, p: nat, j: nat) {
    exists i :: 0 <= i < j && i < |s.procs| && s.procs[i].parent == Some(p)
  }

  /** wait has noted whether it has a child among those it has looked at. */
  ghost predicate Noted(s: State, p: nat)
    requires p < |s.procs|
  {
    var pc := s.procs[p].pc;
    && (pc.WaitScan? ==> (pc.kids <==> HasKid(s, p, pc.j)))
    && (pc.WaitOwn? || pc.WaitRel? ==> HasKid(s, p, |s.procs|))
  }

  /** Here wait has wait_lock and changes no parent. */
  ghost predicate Looking(pc: Pc) {
    pc.WaitScan? || pc.WaitGot? || pc.WaitSkip? || pc.WaitOwn? || pc.WaitRel?
  }

  /** How p comes to where it has noted something. */
  ghost predicate NoteOk(pc: Pc, pc': Pc, t: Process, p: nat, n: nat) {
    && (pc'.WaitScan? && pc' != pc ==>
        || pc' == WaitScan(0, false)
        || (pc.WaitScan? && pc.j < n && pc' == WaitScan(pc.j + 1, pc.kids) && t.parent != Some(p))
        || (pc.WaitSkip? && pc' == WaitScan(pc.j + 1, true) && t.parent == Some(p)))
    && (pc'.WaitOwn? && pc' != pc ==> pc.WaitScan? && pc.j >= n && pc.kids)
    && (pc'.WaitRel? && pc' != pc ==> pc.WaitOwn?)
  }

  lemma NoteView(v: View, kind: Kind, choice: nat)
    requires Seen(v) && Aimed(v, kind)
    ensures NoteOk(v.q.pc, ProcStep(v, kind, choice).q.pc, v.other, v.w.p, v.w.n)
    ensures ProcStep(v, kind, choice).q.pc != v.q.pc && HasIndex(v.q.pc) && v.q.pc.j < v.w.n ==> v.w.j == v.q.pc.j
  {
    hide Holds, MayHaveKid, Fits, Well;
  }

  /** While p looks, no parent changes. */
  lemma ParentsStay(s: State, e: Event, p: nat, i: nat)
    requires Inv(s) && p < |s.procs| && Looking(s.procs[p].pc) && i < |s.procs|
    ensures Step(s, e).procs[i].parent == s.procs[i].parent
  {
    hide Inv, StepOf, SchedStep, HoldsWait;
    if e.c < |s.cpus| {
      OnCpu(s, e.c);
      if s.cpus[e.c].ctx.In? {
        var x := s.cpus[e.c].ctx.p;
        LivesStep(s, e.c, x, e.kind, e.choice, i);
        LookerWaits(s.procs[p].pc);
        MoverWaits(s.procs[x].pc);
        if HoldsWait(s.procs[x].pc) {
          OneWaiter(s, p, x);
        }
      } else {
        LivesSched(s, e.c, e.choice, i);
      }
    }
  }

  lemma LookerWaits(pc: Pc)
    requires Looking(pc)
    ensures HoldsWait(pc) && !pc.ForkParent? && !pc.ExitGive? && !pc.WaitFree?
  {
  }

  lemma MoverWaits(pc: Pc)
    ensures pc.ForkParent? || pc.ExitGive? || pc.WaitFree? ==> HoldsWait(pc)
  {
  }

  /** How p's place changes in a step. */
  lemma NoteStep(s: State, e: Event, p: nat)
    requires Inv(s) && p < |s.procs|
    ensures var pc, pc' := s.procs[p].pc, Step(s, e).procs[p].pc;
            || pc' == pc
            || !(pc'.WaitScan? || pc'.WaitOwn? || pc'.WaitRel?)
            || NoteOk(pc, pc', if HasIndex(pc) && pc.j < |s.procs| then s.procs[pc.j] else s.procs[p], p, |s.procs|)
  {
    hide Inv, StepOf, SchedStep, HasIndex;
    if e.c < |s.cpus| {
      OnCpu(s, e.c);
      if !s.cpus[e.c].ctx.In? {
        SchedMoved(s, e.c, e.choice, p);
      } else if s.cpus[e.c].ctx.p == p {
        NoteOwn(s, e.c, p, e.kind, e.choice);
      } else {
        PcMoved(s, e.c, s.cpus[e.c].ctx.p, e.kind, e.choice, p);
      }
    }
  }

  lemma SchedMoved(s: State, c: nat, choice: nat, p: nat)
    requires Sized(s) && c < |s.cpus| && p < |s.procs|
    ensures var pc' := SchedStep(s, c, choice).procs[p].pc; pc' == s.procs[p].pc || pc'.WaitBack?
  {
  }

  lemma PcMoved(s: State, c: nat, x: nat, kind: Kind, choice: nat, p: nat)
    requires Inv(s) && At(s, c, x) && p < |s.procs| && p != x
    ensures var pc' := StepOf(s, c, x, kind, choice).procs[p].pc; pc' == s.procs[p].pc || pc'.Off? || pc'.User?
  {
    hide Inv, Seen, Aimed, ProcStep, Aim, LinksOk, PidsOk, OwnOk, WaitLockOk, Well;
    LookSeen(s, c, x, kind, choice);
    ProcStepOk(Look(s, c, x, Aim(s.procs[x], x, |s.procs|, kind, choice)), kind, choice);
  }

  lemma NoteOwn(s: State, c: nat, p: nat, kind: Kind, choice: nat)
    requires Inv(s) && At(s, c, p)
    ensures var pc, pc' := s.procs[p].pc, StepOf(s, c, p, kind, choice).procs[p].pc;
            || pc' == pc
            || NoteOk(pc, pc', if HasIndex(pc) && pc.j < |s.procs| then s.procs[pc.j] else s.procs[p], p, |s.procs|)
  {
    hide Inv, Seen, Aimed, ProcStep, Aim, NoteOk;
    LookSeen(s, c, p, kind, choice);
    var v := Look(s, c, p, Aim(s.procs[p], p, |s.procs|, kind, choice));
    NoteView(v, kind, choice);
    LifeStep(v, kind, choice);
    if s.procs[p].pc.WaitSkip? {
      SkipIn(s, p);
    }
    NoteSame(s.procs[p].pc, StepOf(s, c, p, kind, choice).procs[p].pc, s, p, v);
  }

  lemma NoteSame(pc: Pc, pc': Pc, s: State, p: nat, v: View)
    requires p < |s.procs| && NoteOk(pc, pc', v.other, p, |s.procs|)
    requires pc' != pc && HasIndex(pc) && pc.j < |s.procs| ==> v.other == s.procs[pc.j]
    requires pc.WaitSkip? ==> pc.j < |s.procs|
    ensures || pc' == pc
            || NoteOk(pc, pc', if HasIndex(pc) && pc.j < |s.procs| then s.procs[pc.j] else s.procs[p], p, |s.procs|)
  {
  }

  lemma NotedStep(s: State, e: Event, p: nat)
    requires Inv(s) && p < |s.procs| && Noted(s, p)
    ensures Noted(Step(s, e), p)
  {
    hide Inv, Step, HasKid;
    InvSized(s);
    var s' := Step(s, e);
    var pc, pc' := s.procs[p].pc, s'.procs[p].pc;
    NoteStep(s, e, p);
    if Looking(pc) {
      KidsStay(s, e, p);
      if pc.WaitScan? && pc.j < |s.procs| {
        KidNext(s', p, pc.j);
      } else if pc.WaitScan? {
        KidAll(s', p, pc.j);
      } else if pc.WaitSkip? {
        SkipIn(s, p);
        KidNext(s', p, pc.j);
      }
    }
    KidNone(s', p);
  }

  lemma KidsStay(s: State, e: Event, p: nat)
    requires Inv(s) && p < |s.procs| && Looking(s.procs[p].pc)
    ensures |Step(s, e).procs| == |s.procs|
    ensures forall i :: 0 <= i < |s.procs| ==> Step(s, e).procs[i].parent == s.procs[i].parent
    ensures forall j: nat :: HasKid(Step(s, e), p, j) <==> HasKid(s, p, j)
  {
    hide Inv, Step;
    InvSized(s);
    forall i | 0 <= i < |s.procs| ensures Step(s, e).procs[i].parent == s.procs[i].parent {
      ParentsStay(s, e, p, i);
    }
  }

  lemma InvSized(s: State)
    requires Inv(s)
    ensures Sized(s)
  {
  }

  lemma KidNext(s: State, p: nat, j: nat)
    requires j < |s.procs|
    ensures HasKid(s, p, j + 1) <==> HasKid(s, p, j) || s.procs[j].parent == Some(p)
  {
  }

  lemma KidAll(s: State, p: nat, j: nat)
    requires j >= |s.procs|
    ensures HasKid(s, p, j) <==> HasKid(s, p, |s.procs|)
  {
  }

  lemma KidNone(s: State, p: nat)
    ensures !HasKid(s, p, 0)
  {
  }

  lemma SkipIn(s: State, p: nat)
    requires Inv(s) && p < |s.procs| && s.procs[p].pc.WaitSkip?
    ensures s.procs[p].pc.j < |s.procs| && HasIndex(s.procs[p].pc)
  {
    hide Pids, Locks, Cpus, KidInv;
    assert ProcInv(s, p);
  }

  lemma {:induction false} RunNoted(n: nat, cpus: nat, es: seq<Event>, p: nat)
    requires p < n
    ensures |Run(Init(n, cpus), es).procs| == n && Noted(Run(Init(n, cpus), es), p)
  {
    hide Inv, Step, Noted, Init;
    if es == [] {
      FirstNoted(n, cpus, p);
    } else {
      RunInv(n, cpus, es[..|es| - 1]);
      RunNoted(n, cpus, es[..|es| - 1], p);
      NotedStep(Run(Init(n, cpus), es[..|es| - 1]), es[|es| - 1], p);
    }
  }

  lemma FirstNoted(n: nat, cpus: nat, p: nat)
    requires p < n
    ensures Noted(Init(n, cpus), p)
  {
  }

  /** In every run, when wait has been through the whole table it knows whether it has a child,
      and none of its children is a zombie: so it fails only without children, or killed, and
      sleeps only with children that are all alive. */
  lemma ScanEnds(n: nat, cpus: nat, es: seq<Event>, p: nat, i: nat)
    requires p < n && i < n
    ensures var s := Run(Init(n, cpus), es);
            var pc := s.procs[p].pc;
            pc.WaitScan? && pc.j >= n ==>
              && (pc.kids <==> exists k :: 0 <= k < n && s.procs[k].parent == Some(p))
              && (s.procs[i].parent == Some(p) ==> !s.procs[i].state.ZOMBIE?)
  {
    hide Inv, Run, Init, Alarm, HoldsWait;
    RunInv(n, cpus, es);
    RunWatch(n, cpus, es);
    RunSizes(n, cpus, es);
    RunNoted(n, cpus, es, p);
    var s := Run(Init(n, cpus), es);
    assert DozeInv(s, p, i);
    if s.procs[p].pc.WaitScan? {
      LookerWaits(s.procs[p].pc);
      forall e | 0 <= e < |s.procs| && Alarm(s.procs[e], p) ensures false {
        AlarmCalls(s.procs[e], p);
        CallerHoldsWait(s, e);
        OneWaiter(s, p, e);
      }
    }
  }
}
