/**
 fork, exit, wait and the scheduler as calls: what each has done, from its first step to its
 last, when nothing else runs meanwhile.
 */
module ProcCalls {

  import opened Proc

  /** The next step of process p in the order of its code, on CPU c. */
  ghost function Next(s: State, c: nat, p: nat, choice: nat): (s': State)
    requires Sized(s) && p < |s.procs|
    ensures Sized(s') && |s'.procs| == |s.procs|
  {
    Step(s, Event(c, if s.procs[p].wake.NoWake? then Code else Waking, choice))
  }

  /** The state after k such steps. */
  ghost function Along(s: State, c: nat, p: nat, choice: nat, k: nat): (s': State)
    requires Sized(s) && p < |s.procs|
    ensures Sized(s') && |s'.procs| == |s.procs|
    decreases k
  {
    if k == 0 then s else Along(Next(s, c, p, choice), c, p, choice, k - 1)
  }

  /** Running on, with these choices, p comes to s'. */
  ghost predicate Leads(s: State, c: nat, p: nat, choice: nat, s': State) {
    Sized(s) && p < |s.procs| && exists k :: Along(s, c, p, choice, k) == s'
  }

  lemma Here(s: State, c: nat, p: nat, choice: nat)
    requires Sized(s) && p < |s.procs|
    ensures Leads(s, c, p, choice, s)
  {
    assert Along(s, c, p, choice, 0) == s;
  }

  lemma {:induction false} AlongThen(s: State, c: nat, p: nat, choice: nat, k: nat, m: nat)
    requires Sized(s) && p < |s.procs|
    ensures Along(s, c, p, choice, k + m) == Along(Along(s, c, p, choice, k), c, p, choice, m)
    decreases k
  {
    hide Next;
    if k > 0 {
      AlongThen(Next(s, c, p, choice), c, p, choice, k - 1, m);
    }
  }

  lemma Then(s: State, s1: State, s2: State, c: nat, p: nat, choice: nat)
    requires Leads(s, c, p, choice, s1) && Leads(s1, c, p, choice, s2)
    ensures Leads(s, c, p, choice, s2)
  {
    hide Along;
    var k :| Along(s, c, p, choice, k) == s1;
    var m :| Along(s1, c, p, choice, m) == s2;
    AlongThen(s, c, p, choice, k, m);
  }

  lemma One(s: State, s1: State, s2: State, c: nat, p: nat, choice: nat)
    requires Leads(s, c, p, choice, s1) && Sized(s1) && p < |s1.procs| && Next(s1, c, p, choice) == s2
    ensures Leads(s, c, p, choice, s2)
  {
    assert Along(s2, c, p, choice, 0) == s2;
    assert Along(s1, c, p, choice, 1) == s2;
    hide Along, Next;
    Then(s, s1, s2, c, p, choice);
  }

  // -------------------------------------------------------------------------- states

  ghost function Proc1(s: State, p: nat, q: Process): (s': State)
    requires p < |s.procs|
  {
    s.(procs := s.procs[p := q])
  }

  /** The same state, with process p at pc. */
  ghost function To(s: State, p: nat, pc: Pc): (s': State)
    requires p < |s.procs|
  {
    Proc1(s, p, s.procs[p].(pc := pc))
  }

  ghost function Lock(s: State, j: nat, lock: Opt): (s': State)
    requires j < |s.locks|
  {
    s.(locks := s.locks[j := lock])
  }

  /** Later changes of the same two processes replace earlier ones. */
  lemma Merged(s: State, p: nat, a: Process, a': Process, j: nat, b: Process, b': Process)
    requires p < |s.procs| && j < |s.procs| && j != p
    ensures Proc1(Proc1(Proc1(Proc1(s, j, b), p, a), j, b'), p, a') == Proc1(Proc1(s, j, b'), p, a')
  {
    assert s.procs[j := b][p := a][j := b'][p := a'] == s.procs[j := b'][p := a'];
  }

  /** Process p runs on CPU c, at pc, and is not pausing or waking anyone. */
  ghost predicate On(s: State, c: nat, p: nat, pc: Pc) {
    At(s, c, p) && s.procs[p].pc == pc && Ready(s.procs[p])
  }

  /** No process's spinlock is held. */
  ghost predicate Quiet(s: State) {
    forall i :: 0 <= i < |s.locks| ==> s.locks[i].None?
  }

  lemma QuietAt(s: State, j: nat)
    requires Quiet(s) && j < |s.locks|
    ensures s.locks[j].None?
  {
  }

  /** What a step leaves, when it does not give up the CPU. */
  ghost function Left(s: State, v: View): (s': State)
    requires Sized(s) && v.w.p < |s.procs| && v.w.j < |s.procs|
  {
    State(s.procs[v.w.j := v.other][v.w.p := v.q], s.locks[v.w.j := v.lock], v.wait, s.cpus,
          if Makes(s, v) then s.nextPid + 1 else s.nextPid,
          if Reaps(s, v) then s.reaped + [s.procs[v.w.j].pid] else s.reaped)
  }

  lemma CodeStep(s: State, c: nat, p: nat, j: nat, choice: nat)
    requires At(s, c, p) && Ready(s.procs[p]) && j == Aim(s.procs[p], p, |s.procs|, Code, choice) && j < |s.procs|
    ensures var v := ProcStep(Look(s, c, p, j), Code, choice);
            v.w == Look(s, c, p, j).w && v.ctx == In(p) ==> Next(s, c, p, choice) == Left(s, v)
  {
    hide ProcStep, Aim;
    var v := ProcStep(Look(s, c, p, j), Code, choice);
    assert v.ctx == In(p) ==> s.cpus[c := s.cpus[c].(ctx := v.ctx)] == s.cpus;
  }

  lemma DozeGo(s: State, c: nat, p: nat, choice: nat)
    requires At(s, c, p) && Ready(s.procs[p]) && InDoze(s.procs[p].pc)
    ensures var v := DozeStep(Look(s, c, p, p));
            v.w == Look(s, c, p, p).w && v.ctx == In(p) ==> Next(s, c, p, choice) == Left(s, v)
  {
    hide Next, DozeStep, Left;
    CodeStep(s, c, p, p, choice);
  }

  lemma ForkGo(s: State, c: nat, p: nat, j: nat, choice: nat)
    requires At(s, c, p) && Ready(s.procs[p]) && InFork(s.procs[p].pc)
    requires j < |s.procs| && j == Aim(s.procs[p], p, |s.procs|, Code, choice)
    ensures var v := ForkStep(Look(s, c, p, j), choice);
            v.w == Look(s, c, p, j).w && v.ctx == In(p) ==> Next(s, c, p, choice) == Left(s, v)
  {
    hide Next, Aim, ForkStep, Left;
    CodeStep(s, c, p, j, choice);
  }

  lemma PublishGo(s: State, c: nat, p: nat, j: nat, choice: nat)
    requires At(s, c, p) && Ready(s.procs[p]) && InPublish(s.procs[p].pc)
    requires j < |s.procs| && j == Aim(s.procs[p], p, |s.procs|, Code, choice)
    ensures var v := PublishStep(Look(s, c, p, j));
            v.w == Look(s, c, p, j).w && v.ctx == In(p) ==> Next(s, c, p, choice) == Left(s, v)
  {
    hide Next, Aim, PublishStep, Left;
    CodeStep(s, c, p, j, choice);
  }

  lemma ExitGo(s: State, c: nat, p: nat, j: nat, choice: nat)
    requires At(s, c, p) && Ready(s.procs[p]) && InExit(s.procs[p].pc)
    requires j < |s.procs| && j == Aim(s.procs[p], p, |s.procs|, Code, choice)
    ensures var v := ExitStep(Look(s, c, p, j));
            v.w == Look(s, c, p, j).w && v.ctx == In(p) ==> Next(s, c, p, choice) == Left(s, v)
  {
    hide Next, Aim, ExitStep, Left;
    CodeStep(s, c, p, j, choice);
  }

  lemma WaitGo(s: State, c: nat, p: nat, j: nat, choice: nat)
    requires At(s, c, p) && Ready(s.procs[p]) && InWait(s.procs[p].pc)
    requires j < |s.procs| && j == Aim(s.procs[p], p, |s.procs|, Code, choice)
    ensures var v := WaitStep(Look(s, c, p, j), choice);
            v.w == Look(s, c, p, j).w && v.ctx == In(p) ==> Next(s, c, p, choice) == Left(s, v)
  {
    hide Next, Aim, WaitStep, Left;
    CodeStep(s, c, p, j, choice);
  }

  // ---------------------------------------------------------------------------- fork

  lemma ForkLook(s: State, c: nat, p: nat, j: nat, choice: nat)
    requires On(s, c, p, ForkScan(j)) && j < |s.procs| && s.locks[j].None?
    ensures Next(s, c, p, choice) == Lock(To(s, p, ForkGot(j)), j, Some(c))
  {
    hide Next, ProcStep;
    ForkGo(s, c, p, j, choice);
    assert s.procs[j := s.procs[j]] == s.procs;
  }

  lemma ForkNot(s: State, c: nat, p: nat, j: nat, choice: nat)
    requires On(s, c, p, ForkGot(j)) && j < |s.procs| && !s.procs[j].state.UNUSED?
    ensures Next(s, c, p, choice) == To(s, p, ForkSkip(j))
  {
    hide Next, ProcStep;
    ForkGo(s, c, p, j, choice);
    assert s.procs[j := s.procs[j]] == s.procs && s.locks[j := s.locks[j]] == s.locks;
  }

  lemma ForkDropped(s: State, c: nat, p: nat, j: nat, choice: nat)
    requires On(s, c, p, ForkSkip(j)) && j < |s.procs|
    ensures Next(s, c, p, choice) == Lock(To(s, p, ForkScan(j + 1)), j, None)
  {
    hide Next, ProcStep;
    ForkGo(s, c, p, j, choice);
    assert s.procs[j := s.procs[j]] == s.procs;
  }

  /** A slot in use is passed over. */
  lemma ForkPass(s: State, c: nat, p: nat, j: nat, choice: nat)
    requires On(s, c, p, ForkScan(j)) && j < |s.procs| && s.locks[j].None? && !s.procs[j].state.UNUSED?
    ensures Leads(s, c, p, choice, To(s, p, ForkScan(j + 1)))
  {
    hide Leads, Next, ProcStep;
    var s1 := Lock(To(s, p, ForkGot(j)), j, Some(c));
    var s2, s3 := To(s1, p, ForkSkip(j)), To(s, p, ForkScan(j + 1));
    Here(s, c, p, choice);
    ForkLook(s, c, p, j, choice);
    One(s, s, s1, c, p, choice);
    ForkNot(s1, c, p, j, choice);
    One(s, s1, s2, c, p, choice);
    ForkDropped(s2, c, p, j, choice);
    assert s.locks[j := Some(c)][j := None] == s.locks && s3.procs == To(s2, p, ForkScan(j + 1)).procs;
    One(s, s2, s3, c, p, choice);
  }

  lemma {:induction false} ForkSeek(s: State, c: nat, p: nat, i: nat, j: nat, choice: nat)
    requires On(s, c, p, ForkScan(i)) && i <= j <= |s.procs| && Quiet(s)
    requires forall k :: i <= k < j ==> !s.procs[k].state.UNUSED?
    ensures Leads(s, c, p, choice, To(s, p, ForkScan(j)))
    decreases j - i
  {
    hide Leads;
    if i == j {
      Here(s, c, p, choice);
      assert To(s, p, ForkScan(j)) == s;
    } else {
      var s1 := To(s, p, ForkScan(i + 1));
      ForkPass(s, c, p, i, choice);
      ForkSeek(s1, c, p, i + 1, j, choice);
      assert To(s1, p, ForkScan(j)) == To(s, p, ForkScan(j));
      Then(s, s1, To(s, p, ForkScan(j)), c, p, choice);
    }
  }

  /** The child j of p, ready to run, with the next pid. */
  ghost function Child(s: State, p: nat, j: nat): (t: Process)
    requires j < |s.procs|
  {
    s.procs[j].(state := RUNNABLE, pid := s.nextPid, parent := Some(p), maker := None, pc := User, pause := PauseOut)
  }

  ghost function Forked(s: State, p: nat, j: nat): (s': State)
    requires p < |s.procs| && j < |s.procs|
  {
    To(Proc1(s, j, Child(s, p, j)), p, User).(nextPid := s.nextPid + 1)
  }

  /** allocproc has j, with its lock. */
  ghost function Allocated(s: State, c: nat, p: nat, j: nat): (s': State)
    requires p < |s.procs| && j < |s.procs| && j < |s.locks|
  {
    var t := s.procs[j].(state := USED, pid := s.nextPid, maker := Some(p));
    Lock(To(Proc1(s, j, t), p, ForkMade(j)), j, Some(c)).(nextPid := s.nextPid + 1)
  }

  lemma ForkAlloc(s: State, c: nat, p: nat, j: nat, choice: nat)
    requires On(s, c, p, ForkScan(j)) && j < |s.procs| && j != p && s.locks[j].None? && s.procs[j].state.UNUSED?
    ensures Leads(s, c, p, choice, Allocated(s, c, p, j))
  {
    hide Leads, Next, ProcStep;
    var s1 := Lock(To(s, p, ForkGot(j)), j, Some(c));
    Here(s, c, p, choice);
    ForkLook(s, c, p, j, choice);
    One(s, s, s1, c, p, choice);
    ForkGo(s1, c, p, j, choice);
    var s2 := Allocated(s, c, p, j);
    assert Next(s1, c, p, choice).procs == s2.procs && Next(s1, c, p, choice).locks == s2.locks;
    One(s, s1, s2, c, p, choice);
  }

  /** The new process, with its parent named or not yet, and the one that makes it at pc. */
  ghost function Making(s: State, p: nat, j: nat, parent: Opt, lock: Opt, wait: Opt, pc: Pc): (s': State)
    requires p < |s.procs| && j < |s.procs| && j < |s.locks|
  {
    Lock(To(Proc1(s, j, s.procs[j].(parent := parent)), p, pc), j, lock).(waitLock := wait)
  }

  lemma ForkLetGo(s: State, c: nat, p: nat, j: nat)
    requires On(s, c, p, ForkMade(j)) && j < |s.procs| && j != p && s.locks[j] == Some(c)
    ensures Leads(s, c, p, 1, Making(s, p, j, s.procs[j].parent, None, s.waitLock, ForkWait(j)))
  {
    hide Leads, Next, ProcStep;
    var s1 := Making(s, p, j, s.procs[j].parent, Some(c), s.waitLock, ForkRel(j));
    var s2 := Making(s, p, j, s.procs[j].parent, None, s.waitLock, ForkWait(j));
    Here(s, c, p, 1);
    ForkGo(s, c, p, j, 1);
    assert Next(s, c, p, 1) == s1;
    One(s, s, s1, c, p, 1);
    PublishGo(s1, c, p, j, 1);
    assert Next(s1, c, p, 1) == s2;
    One(s, s1, s2, c, p, 1);
  }

  lemma ForkName(s: State, c: nat, p: nat, j: nat)
    requires On(s, c, p, ForkWait(j)) && j < |s.procs| && j != p && s.locks[j].None? && s.waitLock.None?
    ensures Leads(s, c, p, 1, Making(s, p, j, Some(p), None, Some(c), ForkUnwait(j)))
  {
    hide Leads, Next, ProcStep;
    var s1 := Making(s, p, j, s.procs[j].parent, None, Some(c), ForkParent(j));
    var s2 := Making(s, p, j, Some(p), None, Some(c), ForkUnwait(j));
    Here(s, c, p, 1);
    PublishGo(s, c, p, j, 1);
    assert Next(s, c, p, 1) == s1;
    One(s, s, s1, c, p, 1);
    PublishGo(s1, c, p, j, 1);
    assert Next(s1, c, p, 1) == s2;
    One(s, s1, s2, c, p, 1);
  }

  lemma ForkUnlock(s: State, c: nat, p: nat, j: nat)
    requires On(s, c, p, ForkUnwait(j)) && j < |s.procs| && j != p && s.locks[j].None? && s.waitLock == Some(c)
    ensures Leads(s, c, p, 1, Making(s, p, j, s.procs[j].parent, Some(c), None, ForkReady(j)))
  {
    hide Leads, Next, ProcStep;
    var s1 := Making(s, p, j, s.procs[j].parent, None, None, ForkLock(j));
    var s2 := Making(s, p, j, s.procs[j].parent, Some(c), None, ForkReady(j));
    Here(s, c, p, 1);
    PublishGo(s, c, p, j, 1);
    assert Next(s, c, p, 1) == s1;
    One(s, s, s1, c, p, 1);
    PublishGo(s1, c, p, j, 1);
    assert Next(s1, c, p, 1) == s2;
    One(s, s1, s2, c, p, 1);
  }

  /** Ready to run for the first time. */
  ghost function Started(t: Process): (t': Process) {
    t.(state := RUNNABLE, maker := None, pc := User, pause := PauseOut)
  }

  lemma ForkFinish(s: State, c: nat, p: nat, j: nat)
    requires On(s, c, p, ForkReady(j)) && j < |s.procs| && j != p && s.locks[j] == Some(c) && s.procs[j].state.USED?
    ensures Leads(s, c, p, 1, Lock(To(Proc1(s, j, Started(s.procs[j])), p, User), j, None))
  {
    hide Leads, Next, ProcStep;
    var s1 := To(Proc1(s, j, Started(s.procs[j])), p, ForkEnd(j));
    var s2 := Lock(To(Proc1(s, j, Started(s.procs[j])), p, User), j, None);
    Here(s, c, p, 1);
    PublishGo(s, c, p, j, 1);
    assert Next(s, c, p, 1) == s1;
    One(s, s, s1, c, p, 1);
    PublishGo(s1, c, p, j, 1);
    assert Next(s1, c, p, 1) == s2;
    One(s, s1, s2, c, p, 1);
  }

  lemma MakingOn(s: State, p: nat, j: nat, parent: Opt, lock: Opt, wait: Opt, pc: Pc, parent': Opt, lock': Opt,
                 wait': Opt, pc': Pc)
    requires p < |s.procs| && j < |s.procs| && j < |s.locks| && j != p
    ensures Making(Making(s, p, j, parent, lock, wait, pc), p, j, parent', lock', wait', pc')
            == Making(s, p, j, parent', lock', wait', pc')
  {
  }

  lemma ForkNamed(s: State, c: nat, p: nat, j: nat)
    requires On(s, c, p, ForkMade(j)) && j < |s.procs| && j != p && s.locks[j] == Some(c) && s.waitLock.None?
    ensures Leads(s, c, p, 1, Making(s, p, j, Some(p), None, Some(c), ForkUnwait(j)))
  {
    hide Leads, Next, ProcStep;
    var s1 := Making(s, p, j, s.procs[j].parent, None, None, ForkWait(j));
    var s2 := Making(s, p, j, Some(p), None, Some(c), ForkUnwait(j));
    ForkLetGo(s, c, p, j);
    ForkName(s1, c, p, j);
    MakingOn(s, p, j, s.procs[j].parent, None, None, ForkWait(j), Some(p), None, Some(c), ForkUnwait(j));
    Then(s, s1, s2, c, p, 1);
  }

  /** fork's second half. */
  lemma ForkRest(s: State, c: nat, p: nat, j: nat)
    requires On(s, c, p, ForkMade(j)) && j < |s.procs| && j != p && s.locks[j] == Some(c) && s.procs[j].state.USED?
    requires s.waitLock.None?
    ensures var t := s.procs[j].(parent := Some(p));
            Leads(s, c, p, 1, Lock(To(Proc1(s, j, Started(t)), p, User), j, None))
  {
    hide Leads, Next, ProcStep;
    var s2 := Making(s, p, j, Some(p), None, Some(c), ForkUnwait(j));
    var s3 := Making(s, p, j, Some(p), Some(c), None, ForkReady(j));
    var s4 := Lock(To(Proc1(s, j, Started(s.procs[j].(parent := Some(p)))), p, User), j, None);
    ForkNamed(s, c, p, j);
    ForkUnlock(s2, c, p, j);
    MakingOn(s, p, j, Some(p), None, Some(c), ForkUnwait(j), Some(p), Some(c), None, ForkReady(j));
    Then(s, s2, s3, c, p, 1);
    ForkFinish(s3, c, p, j);
    FinishedIs(s, c, p, j);
    Then(s, s3, s4, c, p, 1);
  }

  lemma FinishedIs(s: State, c: nat, p: nat, j: nat)
    requires Sized(s) && p < |s.procs| && j < |s.procs| && j != p && s.waitLock.None?
    ensures var s3 := Making(s, p, j, Some(p), Some(c), None, ForkReady(j));
            Lock(To(Proc1(s3, j, Started(s3.procs[j])), p, User), j, None)
            == Lock(To(Proc1(s, j, Started(s.procs[j].(parent := Some(p)))), p, User), j, None)
  {
    var s3 := Making(s, p, j, Some(p), Some(c), None, ForkReady(j));
    var t := Started(s.procs[j].(parent := Some(p)));
    Merged(s, p, s3.procs[p], s3.procs[p].(pc := User), j, s3.procs[j], t);
    assert s.locks[j := Some(c)][j := None] == s.locks[j := None];
  }

  /** fork: the first unused slot becomes a child of p, ready to run, with the next pid, and
      nothing else changes. */
  lemma ForkCall(s: State, c: nat, p: nat, j: nat)
    requires On(s, c, p, ForkScan(0)) && Quiet(s) && s.waitLock.None?
    requires j < |s.procs| && j != p && s.procs[j].state.UNUSED? && forall k :: 0 <= k < j ==> !s.procs[k].state.UNUSED?
    ensures Leads(s, c, p, 1, Forked(s, p, j))
  {
    hide Leads;
    var s1 := To(s, p, ForkScan(j));
    ForkSeek(s, c, p, 0, j, 1);
    ForkAlloc(s1, c, p, j, 1);
    var s2 := Allocated(s1, c, p, j);
    Then(s, s1, s2, c, p, 1);
    ForkRest(s2, c, p, j);
    QuietAt(s, j);
    ForkedIs(s, c, p, j);
    Then(s, s2, Forked(s, p, j), c, p, 1);
  }

  lemma ForkedIs(s: State, c: nat, p: nat, j: nat)
    requires Sized(s) && p < |s.procs| && j < |s.procs| && j != p && s.locks[j].None?
    ensures var s2 := Allocated(To(s, p, ForkScan(j)), c, p, j);
            && s2.procs[j].state.USED? && s2.waitLock == s.waitLock
            && Lock(To(Proc1(s2, j, Started(s2.procs[j].(parent := Some(p)))), p, User), j, None) == Forked(s, p, j)
  {
    var s2 := Allocated(To(s, p, ForkScan(j)), c, p, j);
    var q, t := s.procs[p].(pc := User), Child(s, p, j);
    assert s2.procs[j := t][p := q] == s.procs[j := t][p := q];
    assert s.locks[j := Some(c)][j := None] == s.locks;
  }

  /** With no slot free it fails, and nothing has changed. */
  lemma ForkFull(s: State, c: nat, p: nat, choice: nat)
    requires On(s, c, p, ForkScan(0)) && Quiet(s) && forall k :: 0 <= k < |s.procs| ==> !s.procs[k].state.UNUSED?
    ensures Leads(s, c, p, choice, To(s, p, User))
  {
    hide Leads, Next, ProcStep;
    var n := |s.procs|;
    var s1 := To(s, p, ForkScan(n));
    ForkSeek(s, c, p, 0, n, choice);
    ForkGaveUp(s1, c, p, n, choice);
    assert To(s1, p, User).procs == To(s, p, User).procs;
    One(s, s1, To(s, p, User), c, p, choice);
  }

  lemma ForkGaveUp(s: State, c: nat, p: nat, j: nat, choice: nat)
    requires On(s, c, p, ForkScan(j)) && j >= |s.procs|
    ensures Next(s, c, p, choice) == To(s, p, User)
  {
    hide Next, ProcStep;
    ForkGo(s, c, p, p, choice);
    assert s.procs[p := s.procs[p]] == s.procs && s.locks[p := s.locks[p]] == s.locks;
  }

  /** Without memory for it, the slot is free again, and only a pid has been used up. */
  lemma ForkNoMemory(s: State, c: nat, p: nat, j: nat)
    requires On(s, c, p, ForkScan(0)) && Quiet(s)
    requires j < |s.procs| && j != p && s.procs[j].state.UNUSED? && forall k :: 0 <= k < j ==> !s.procs[k].state.UNUSED?
    ensures var t := s.procs[j].(pid := s.nextPid, maker := None);
            Leads(s, c, p, 0, To(Proc1(s, j, t), p, User).(nextPid := s.nextPid + 1))
  {
    hide Leads, Next, ProcStep;
    var s1 := To(s, p, ForkScan(j));
    ForkSeek(s, c, p, 0, j, 0);
    ForkAlloc(s1, c, p, j, 0);
    var s2 := Allocated(s1, c, p, j);
    Then(s, s1, s2, c, p, 0);
    ForkUndoes(s2, c, p, j);
    var t := s.procs[j].(pid := s.nextPid, maker := None);
    var s4 := To(Proc1(s, j, t), p, User).(nextPid := s.nextPid + 1);
    QuietAt(s, j);
    UndoneIs(s, c, p, j);
    Then(s, s2, s4, c, p, 0);
  }

  lemma ForkUndoes(s: State, c: nat, p: nat, j: nat)
    requires On(s, c, p, ForkMade(j)) && j < |s.procs| && j != p && s.procs[j].state.USED?
    ensures Leads(s, c, p, 0, Lock(To(Proc1(s, j, s.procs[j].(state := UNUSED, maker := None)), p, User), j, None))
  {
    hide Leads, Next, ProcStep;
    var t := s.procs[j].(state := UNUSED, maker := None);
    var s1 := To(Proc1(s, j, t), p, ForkDrop(j));
    Here(s, c, p, 0);
    ForkGo(s, c, p, j, 0);
    assert s.locks[j := s.locks[j]] == s.locks;
    One(s, s, s1, c, p, 0);
    ForkGo(s1, c, p, j, 0);
    Merged(s, p, s1.procs[p], s1.procs[p].(pc := User), j, t, t);
    One(s, s1, Lock(To(Proc1(s, j, t), p, User), j, None), c, p, 0);
  }

  lemma UndoneIs(s: State, c: nat, p: nat, j: nat)
    requires Sized(s) && p < |s.procs| && j < |s.procs| && j != p && s.locks[j].None? && s.procs[j].state.UNUSED?
    ensures var s2 := Allocated(To(s, p, ForkScan(j)), c, p, j);
            Lock(To(Proc1(s2, j, s2.procs[j].(state := UNUSED, maker := None)), p, User), j, None)
            == To(Proc1(s, j, s.procs[j].(pid := s.nextPid, maker := None)), p, User).(nextPid := s.nextPid + 1)
  {
    var s2 := Allocated(To(s, p, ForkScan(j)), c, p, j);
    var q, t := s.procs[p].(pc := User), s.procs[j].(pid := s.nextPid, maker := None);
    assert s2.procs[j := t][p := q] == s.procs[j := t][p := q];
    assert s.locks[j := Some(c)][j := None] == s.locks;
  }

  // ---------------------------------------------------------------------------- wait

  /** wait is looking at entry j, with wait_lock. */
  ghost predicate Scans(s: State, c: nat, p: nat, j: nat, kids: bool) {
    On(s, c, p, WaitScan(j, kids)) && s.waitLock == Some(c)
  }

  ghost predicate IsKid(s: State, p: nat, k: nat)
    requires k < |s.procs|
  {
    s.procs[k].parent == Some(p)
  }

  lemma WaitStranger(s: State, c: nat, p: nat, j: nat, kids: bool, choice: nat)
    requires Scans(s, c, p, j, kids) && j < |s.procs| && !IsKid(s, p, j)
    ensures Leads(s, c, p, choice, To(s, p, WaitScan(j + 1, kids)))
  {
    hide Next, ProcStep;
    WaitGo(s, c, p, j, choice);
    assert s.procs[j := s.procs[j]] == s.procs && s.locks[j := s.locks[j]] == s.locks;
    Here(s, c, p, choice);
    hide Leads;
    One(s, s, To(s, p, WaitScan(j + 1, kids)), c, p, choice);
  }

  lemma WaitLook(s: State, c: nat, p: nat, j: nat, kids: bool, choice: nat)
    requires Scans(s, c, p, j, kids) && j < |s.procs| && IsKid(s, p, j) && s.locks[j].None?
    ensures Leads(s, c, p, choice, Lock(To(s, p, WaitGot(j)), j, Some(c)))
  {
    hide Next, ProcStep;
    WaitGo(s, c, p, j, choice);
    assert s.procs[j := s.procs[j]] == s.procs;
    Here(s, c, p, choice);
    hide Leads;
    One(s, s, Lock(To(s, p, WaitGot(j)), j, Some(c)), c, p, choice);
  }

  /** A child that is no zombie is noted. */
  lemma WaitAlive(s: State, c: nat, p: nat, j: nat, kids: bool, choice: nat)
    requires Scans(s, c, p, j, kids) && j < |s.procs| && IsKid(s, p, j) && s.locks[j].None? && !s.procs[j].state.ZOMBIE?
    ensures Leads(s, c, p, choice, To(s, p, WaitScan(j + 1, true)))
  {
    hide Leads, Next, ProcStep;
    var s1 := Lock(To(s, p, WaitGot(j)), j, Some(c));
    var s2, s3 := To(s1, p, WaitSkip(j)), To(s, p, WaitScan(j + 1, true));
    WaitLook(s, c, p, j, kids, choice);
    WaitSaw(s1, c, p, j, choice);
    One(s, s1, s2, c, p, choice);
    WaitSkips(s2, c, p, j, choice);
    AliveIs(s, c, p, j);
    One(s, s2, s3, c, p, choice);
  }

  lemma AliveIs(s: State, c: nat, p: nat, j: nat)
    requires Sized(s) && p < |s.procs| && j < |s.procs| && s.locks[j].None?
    ensures var s2 := To(Lock(To(s, p, WaitGot(j)), j, Some(c)), p, WaitSkip(j));
            Lock(To(s2, p, WaitScan(j + 1, true)), j, None) == To(s, p, WaitScan(j + 1, true))
  {
    var s2 := To(Lock(To(s, p, WaitGot(j)), j, Some(c)), p, WaitSkip(j));
    var q := s.procs[p].(pc := WaitScan(j + 1, true));
    assert s2.procs[p := q] == s.procs[p := q] && s.locks[j := Some(c)][j := None] == s.locks;
  }

  lemma WaitSkips(s: State, c: nat, p: nat, j: nat, choice: nat)
    requires On(s, c, p, WaitSkip(j)) && j < |s.procs|
    ensures Next(s, c, p, choice) == Lock(To(s, p, WaitScan(j + 1, true)), j, None)
  {
    hide Next, ProcStep;
    WaitGo(s, c, p, j, choice);
    assert s.procs[j := s.procs[j]] == s.procs;
  }

  ghost predicate SomeKid(s: State, p: nat, i: nat, j: nat)
    requires i <= j <= |s.procs|
  {
    exists k :: i <= k < j && IsKid(s, p, k)
  }

  lemma {:induction false} WaitSeek(s: State, c: nat, p: nat, i: nat, kids: bool, j: nat, choice: nat)
    requires Scans(s, c, p, i, kids) && i <= j <= |s.procs| && Quiet(s)
    requires forall k :: i <= k < j && IsKid(s, p, k) ==> !s.procs[k].state.ZOMBIE?
    ensures Leads(s, c, p, choice, To(s, p, WaitScan(j, kids || SomeKid(s, p, i, j))))
    decreases j - i
  {
    hide Leads;
    if i == j {
      Here(s, c, p, choice);
      assert To(s, p, WaitScan(j, kids)) == s;
    } else {
      var kids' := kids || IsKid(s, p, i);
      var s1 := To(s, p, WaitScan(i + 1, kids'));
      if IsKid(s, p, i) {
        WaitAlive(s, c, p, i, kids, choice);
      } else {
        WaitStranger(s, c, p, i, kids, choice);
      }
      assert forall k :: 0 <= k < |s.procs| ==> (IsKid(s1, p, k) <==> IsKid(s, p, k));
      WaitSeek(s1, c, p, i + 1, kids', j, choice);
      assert SomeKid(s, p, i, j) <==> IsKid(s, p, i) || SomeKid(s1, p, i + 1, j);
      var s2 := To(s, p, WaitScan(j, kids || SomeKid(s, p, i, j)));
      assert To(s1, p, WaitScan(j, kids' || SomeKid(s1, p, i + 1, j))).procs == s2.procs;
      Then(s, s1, s2, c, p, choice);
    }
  }

  /** The slot of a reaped process. */
  ghost function Freed(t: Process): (t': Process) {
    t.(state := UNUSED, parent := None, chan := None, pc := Off)
  }

  ghost function Reaped(s: State, p: nat, j: nat): (s': State)
    requires p < |s.procs| && j < |s.procs|
  {
    To(Proc1(s, j, Freed(s.procs[j])), p, User).(reaped := s.reaped + [s.procs[j].pid], waitLock := None)
  }

  lemma WaitSaw(s: State, c: nat, p: nat, j: nat, choice: nat)
    requires On(s, c, p, WaitGot(j)) && j < |s.procs| && (s.procs[j].state.ZOMBIE? ==> choice != 0)
    ensures Next(s, c, p, choice) == To(s, p, if s.procs[j].state.ZOMBIE? then WaitFree(j) else WaitSkip(j))
  {
    hide Next, ProcStep;
    WaitGo(s, c, p, j, choice);
    assert s.procs[j := s.procs[j]] == s.procs && s.locks[j := s.locks[j]] == s.locks;
  }

  lemma WaitFrees(s: State, c: nat, p: nat, j: nat, choice: nat)
    requires On(s, c, p, WaitFree(j)) && j < |s.procs| && j != p && s.procs[j].state.ZOMBIE?
    ensures Next(s, c, p, choice) == To(Proc1(s, j, s.procs[j].(parent := None)), p, WaitUnused(j))
  {
    hide Next, ProcStep;
    WaitGo(s, c, p, j, choice);
    assert s.locks[j := s.locks[j]] == s.locks;
  }

  lemma WaitEmpties(s: State, c: nat, p: nat, j: nat, choice: nat)
    requires On(s, c, p, WaitUnused(j)) && j < |s.procs| && j != p && s.procs[j].state.ZOMBIE?
    ensures var t := s.procs[j].(state := UNUSED, chan := None, pc := Off);
            Next(s, c, p, choice) == To(Proc1(s, j, t), p, WaitDrop(j)).(reaped := s.reaped + [s.procs[j].pid])
  {
    hide Next, ProcStep;
    WaitGo(s, c, p, j, choice);
    assert s.locks[j := s.locks[j]] == s.locks;
  }

  /** From a zombie child that wait has found: three steps free it, whatever comes after. */
  lemma ReapSteps(s: State, c: nat, p: nat, j: nat)
    requires On(s, c, p, WaitGot(j)) && j < |s.procs| && j != p && s.procs[j].state.ZOMBIE?
    ensures Along(s, c, p, 1, 3) ==
            To(Proc1(s, j, Freed(s.procs[j])), p, WaitDrop(j)).(reaped := s.reaped + [s.procs[j].pid])
  {
    hide Next, Along;
    var s1 := To(s, p, WaitFree(j));
    WaitSaw(s, c, p, j, 1);
    ReapTwo(s1, c, p, j);
    AlongOne(s, c, p, 1, 2);
    var q, t := s.procs[p], Freed(s.procs[j]);
    assert s.procs[p := s1.procs[p]][j := t][p := q.(pc := WaitDrop(j))] == s.procs[j := t][p := q.(pc := WaitDrop(j))];
  }

  lemma AlongOne(s: State, c: nat, p: nat, choice: nat, k: nat)
    requires Sized(s) && p < |s.procs|
    ensures Along(s, c, p, choice, k + 1) == Along(Next(s, c, p, choice), c, p, choice, k)
    ensures Along(s, c, p, choice, 0) == s
  {
    hide Next;
  }

  lemma ReapTwo(s: State, c: nat, p: nat, j: nat)
    requires On(s, c, p, WaitFree(j)) && j < |s.procs| && j != p && s.procs[j].state.ZOMBIE?
    ensures Along(s, c, p, 1, 2) ==
            To(Proc1(s, j, Freed(s.procs[j])), p, WaitDrop(j)).(reaped := s.reaped + [s.procs[j].pid])
  {
    hide Next, Along;
    var s1 := To(Proc1(s, j, s.procs[j].(parent := None)), p, WaitUnused(j));
    WaitFrees(s, c, p, j, 1);
    WaitEmpties(s1, c, p, j, 1);
    AlongOne(s, c, p, 1, 1);
    AlongOne(s1, c, p, 1, 0);
    AlongOne(Next(s1, c, p, 1), c, p, 1, 0);
    Merged(s, p, s1.procs[p], s1.procs[p].(pc := WaitDrop(j)), j, s1.procs[j], Freed(s.procs[j]));
  }

  lemma WaitTakes(s: State, c: nat, p: nat, choice: nat)
    requires On(s, c, p, WaitLock) && s.waitLock.None?
    ensures Leads(s, c, p, choice, To(s, p, WaitScan(0, false)).(waitLock := Some(c)))
  {
    hide Next, ProcStep;
    WaitGo(s, c, p, p, choice);
    var s1 := To(s, p, WaitScan(0, false)).(waitLock := Some(c));
    assert s.procs[p := s.procs[p]] == s.procs && s.locks[p := s.locks[p]] == s.locks;
    Here(s, c, p, choice);
    hide Leads;
    One(s, s, s1, c, p, choice);
  }

  lemma WaitLeaves(s: State, c: nat, p: nat, choice: nat)
    requires On(s, c, p, WaitUnlock)
    ensures Leads(s, c, p, choice, To(s, p, User).(waitLock := None))
  {
    hide Next, ProcStep;
    WaitGo(s, c, p, p, choice);
    assert s.procs[p := s.procs[p]] == s.procs && s.locks[p := s.locks[p]] == s.locks;
    Here(s, c, p, choice);
    hide Leads;
    One(s, s, To(s, p, User).(waitLock := None), c, p, choice);
  }

  lemma WaitLetsGo(s: State, c: nat, p: nat, j: nat, choice: nat)
    requires On(s, c, p, WaitDrop(j)) && j < |s.procs|
    ensures Leads(s, c, p, choice, Lock(To(s, p, User), j, None).(waitLock := None))
  {
    hide Next, ProcStep;
    WaitGo(s, c, p, j, choice);
    var s1 := Lock(To(s, p, WaitUnlock), j, None);
    assert s.procs[j := s.procs[j]] == s.procs;
    Here(s, c, p, choice);
    hide Leads;
    One(s, s, s1, c, p, choice);
    WaitLeaves(s1, c, p, choice);
    assert To(s1, p, User).procs == To(s, p, User).procs;
    Then(s, s1, Lock(To(s, p, User), j, None).(waitLock := None), c, p, choice);
  }

  /** wait has come to entry j, all children before it being alive. */
  lemma WaitCome(s: State, c: nat, p: nat, j: nat, choice: nat)
    requires On(s, c, p, WaitLock) && Quiet(s) && s.waitLock.None? && j <= |s.procs|
    requires forall k :: 0 <= k < j && IsKid(s, p, k) ==> !s.procs[k].state.ZOMBIE?
    ensures Leads(s, c, p, choice, To(s, p, WaitScan(j, SomeKid(s, p, 0, j))).(waitLock := Some(c)))
  {
    hide Leads;
    var s1 := To(s, p, WaitScan(0, false)).(waitLock := Some(c));
    WaitTakes(s, c, p, choice);
    assert forall k :: 0 <= k < |s.procs| ==> (IsKid(s1, p, k) <==> IsKid(s, p, k));
    WaitSeek(s1, c, p, 0, false, j, choice);
    assert SomeKid(s1, p, 0, j) <==> SomeKid(s, p, 0, j);
    var s2 := To(s, p, WaitScan(j, SomeKid(s, p, 0, j))).(waitLock := Some(c));
    assert To(s1, p, WaitScan(j, SomeKid(s, p, 0, j))).procs == s2.procs;
    Then(s, s1, s2, c, p, choice);
  }

  /** wait has found the child j, and has its lock. */
  ghost function Found(s: State, c: nat, p: nat, j: nat): (s': State)
    requires p < |s.procs| && j < |s.locks|
  {
    Lock(To(s, p, WaitGot(j)), j, Some(c)).(waitLock := Some(c))
  }

  lemma WaitFinds(s: State, c: nat, p: nat, j: nat, choice: nat)
    requires On(s, c, p, WaitLock) && Quiet(s) && s.waitLock.None? && j < |s.procs| && j != p && IsKid(s, p, j)
    requires forall k :: 0 <= k < j && IsKid(s, p, k) ==> !s.procs[k].state.ZOMBIE?
    ensures Leads(s, c, p, choice, Found(s, c, p, j))
  {
    hide Leads, Next, SomeKid, Quiet;
    QuietAt(s, j);
    var kids := SomeKid(s, p, 0, j);
    WaitCome(s, c, p, j, choice);
    var s1 := To(s, p, WaitScan(j, kids)).(waitLock := Some(c));
    WaitLook(s1, c, p, j, kids, choice);
    assert Lock(To(s1, p, WaitGot(j)), j, Some(c)).procs == Found(s, c, p, j).procs;
    Then(s, s1, Found(s, c, p, j), c, p, choice);
  }

  /** wait, with a zombie child: the first one in the table is freed, its pid is reported, and
      nothing else changes. */
  lemma WaitCall(s: State, c: nat, p: nat, j: nat)
    requires On(s, c, p, WaitLock) && Quiet(s) && s.waitLock.None?
    requires j < |s.procs| && j != p && IsKid(s, p, j) && s.procs[j].state.ZOMBIE?
    requires forall k :: 0 <= k < j && IsKid(s, p, k) ==> !s.procs[k].state.ZOMBIE?
    ensures Leads(s, c, p, 1, Reaped(s, p, j))
  {
    hide Leads, Along, Quiet;
    WaitFinds(s, c, p, j, 1);
    var s2 := Found(s, c, p, j);
    ReapSteps(s2, c, p, j);
    var s3 := Along(s2, c, p, 1, 3);
    LeadsBy(s2, c, p, 1, 3);
    Then(s, s2, s3, c, p, 1);
    WaitLetsGo(s3, c, p, j, 1);
    QuietAt(s, j);
    ReapedIs(s, c, p, j);
    Then(s, s3, Reaped(s, p, j), c, p, 1);
  }

  lemma ReapedIs(s: State, c: nat, p: nat, j: nat)
    requires Sized(s) && p < |s.procs| && j < |s.procs| && j != p && s.locks[j].None?
    ensures var s2 := Found(s, c, p, j);
            var s3 := To(Proc1(s2, j, Freed(s.procs[j])), p, WaitDrop(j)).(reaped := s.reaped + [s.procs[j].pid]);
            Lock(To(s3, p, User), j, None).(waitLock := None) == Reaped(s, p, j)
  {
    var s2 := Found(s, c, p, j);
    var q, t := s.procs[p], Freed(s.procs[j]);
    assert s2.procs[j := t][p := q.(pc := WaitDrop(j))][p := q.(pc := User)] == s.procs[j := t][p := q.(pc := User)];
    assert s.locks[j := Some(c)][j := None] == s.locks;
  }

  lemma LeadsBy(s: State, c: nat, p: nat, choice: nat, k: nat)
    requires Sized(s) && p < |s.procs|
    ensures Leads(s, c, p, choice, Along(s, c, p, choice, k))
  {
  }

  /** If the pid cannot be copied out, the child stays as it is. */
  lemma WaitNoCopy(s: State, c: nat, p: nat, j: nat)
    requires On(s, c, p, WaitLock) && Quiet(s) && s.waitLock.None?
    requires j < |s.procs| && j != p && IsKid(s, p, j) && s.procs[j].state.ZOMBIE?
    requires forall k :: 0 <= k < j && IsKid(s, p, k) ==> !s.procs[k].state.ZOMBIE?
    ensures Leads(s, c, p, 0, To(s, p, User))
  {
    hide Leads, Next, Quiet;
    WaitFinds(s, c, p, j, 0);
    var s2 := Found(s, c, p, j);
    var s3 := To(s2, p, WaitDrop(j));
    WaitRefused(s2, c, p, j);
    One(s, s2, s3, c, p, 0);
    WaitLetsGo(s3, c, p, j, 0);
    QuietAt(s, j);
    RefusedIs(s, c, p, j);
    Then(s, s3, To(s, p, User), c, p, 0);
  }

  lemma RefusedIs(s: State, c: nat, p: nat, j: nat)
    requires Sized(s) && p < |s.procs| && j < |s.procs| && s.locks[j].None? && s.waitLock.None?
    ensures var s3 := To(Found(s, c, p, j), p, WaitDrop(j));
            Lock(To(s3, p, User), j, None).(waitLock := None) == To(s, p, User)
  {
    var s3 := To(Found(s, c, p, j), p, WaitDrop(j));
    assert s3.procs[p := s.procs[p].(pc := User)] == s.procs[p := s.procs[p].(pc := User)];
    assert s.locks[j := Some(c)][j := None] == s.locks;
  }

  lemma WaitRefused(s: State, c: nat, p: nat, j: nat)
    requires On(s, c, p, WaitGot(j)) && j < |s.procs| && s.procs[j].state.ZOMBIE?
    ensures Next(s, c, p, 0) == To(s, p, WaitDrop(j))
  {
    hide Next, ProcStep;
    WaitGo(s, c, p, j, 0);
    assert s.procs[j := s.procs[j]] == s.procs && s.locks[j := s.locks[j]] == s.locks;
  }

  lemma WaitEnds(s: State, c: nat, p: nat, j: nat, kids: bool, choice: nat)
    requires Scans(s, c, p, j, kids) && j >= |s.procs|
    ensures Next(s, c, p, choice) == To(s, p, if kids && choice != 0 then WaitOwn else WaitUnlock)
  {
    hide Next, ProcStep;
    WaitGo(s, c, p, p, choice);
    assert s.procs[p := s.procs[p]] == s.procs && s.locks[p := s.locks[p]] == s.locks;
  }

  lemma WaitScanned(s: State, c: nat, p: nat, choice: nat)
    requires On(s, c, p, WaitLock) && Quiet(s) && s.waitLock.None?
    requires forall k :: 0 <= k < |s.procs| && IsKid(s, p, k) ==> !s.procs[k].state.ZOMBIE?
    ensures var pc := if SomeKid(s, p, 0, |s.procs|) && choice != 0 then WaitOwn else WaitUnlock;
            Leads(s, c, p, choice, To(s, p, pc).(waitLock := Some(c)))
  {
    hide Leads, Next, SomeKid, Quiet;
    var n := |s.procs|;
    var kids := SomeKid(s, p, 0, n);
    var pc := if kids && choice != 0 then WaitOwn else WaitUnlock;
    WaitCome(s, c, p, n, choice);
    var s1, s2 := To(s, p, WaitScan(n, kids)).(waitLock := Some(c)), To(s, p, pc).(waitLock := Some(c));
    WaitEnds(s1, c, p, n, kids, choice);
    assert To(s1, p, pc).procs == s2.procs;
    One(s, s1, s2, c, p, choice);
  }

  /** wait without a zombie child: it fails, and nothing has changed, if there is no child at
      all or the process has been killed; ... */
  lemma WaitFails(s: State, c: nat, p: nat, choice: nat)
    requires On(s, c, p, WaitLock) && Quiet(s) && s.waitLock.None?
    requires forall k :: 0 <= k < |s.procs| && IsKid(s, p, k) ==> !s.procs[k].state.ZOMBIE?
    requires choice == 0 || !SomeKid(s, p, 0, |s.procs|)
    ensures Leads(s, c, p, choice, To(s, p, User))
  {
    hide Leads, Next;
    WaitScanned(s, c, p, choice);
    var s2, s3 := To(s, p, WaitUnlock).(waitLock := Some(c)), To(s, p, User);
    WaitLeaves(s2, c, p, choice);
    assert To(s2, p, User).procs == s3.procs;
    Then(s, s2, s3, c, p, choice);
  }

  /** ... otherwise it sleeps on its own channel, with its own lock and without wait_lock. */
  lemma WaitSleeps(s: State, c: nat, p: nat)
    requires On(s, c, p, WaitLock) && Quiet(s) && s.waitLock.None? && SomeKid(s, p, 0, |s.procs|)
    requires forall k :: 0 <= k < |s.procs| && IsKid(s, p, k) ==> !s.procs[k].state.ZOMBIE?
    requires s.procs[p].state.RUNNING?
    ensures var q := s.procs[p].(state := SLEEPING, chan := Some(p), pc := WaitOut);
            Leads(s, c, p, 1, Away1(Lock(Proc1(s, p, q), p, Some(c)), c, p))
  {
    hide Leads, Next, SomeKid, Quiet;
    QuietAt(s, p);
    WaitScanned(s, c, p, 1);
    var s2 := To(s, p, WaitOwn).(waitLock := Some(c));
    WaitDozes(s2, c, p);
    var s3 := Lock(To(s2, p, WaitSleep), p, Some(c)).(waitLock := None);
    Then(s, s2, s3, c, p, 1);
    WaitSwitches(s3, c, p);
    var q := s.procs[p].(state := SLEEPING, chan := Some(p), pc := WaitOut);
    var s4 := Away1(Lock(Proc1(s, p, q), p, Some(c)), c, p);
    assert Away1(Proc1(s3, p, q), c, p).procs == s4.procs;
    Then(s, s3, s4, c, p, 1);
  }

  /** CPU c has left process p. */
  ghost function Away1(s: State, c: nat, p: nat): (s': State)
    requires c < |s.cpus|
  {
    s.(cpus := s.cpus[c := s.cpus[c].(ctx := Back(p))])
  }

  lemma WaitDozes(s: State, c: nat, p: nat)
    requires On(s, c, p, WaitOwn) && s.locks[p].None?
    ensures Leads(s, c, p, 1, Lock(To(s, p, WaitSleep), p, Some(c)).(waitLock := None))
  {
    hide Leads, Next, ProcStep;
    var s1 := Lock(To(s, p, WaitRel), p, Some(c));
    var s2 := Lock(To(s, p, WaitSleep), p, Some(c)).(waitLock := None);
    Here(s, c, p, 1);
    DozeGo(s, c, p, 1);
    assert s.procs[p := s.procs[p]] == s.procs;
    One(s, s, s1, c, p, 1);
    DozeGo(s1, c, p, 1);
    assert Next(s1, c, p, 1).procs == s2.procs && Next(s1, c, p, 1).locks == s2.locks;
    One(s, s1, s2, c, p, 1);
  }

  lemma WaitSwitches(s: State, c: nat, p: nat)
    requires On(s, c, p, WaitSleep) && s.procs[p].state.RUNNING?
    ensures var q := s.procs[p].(state := SLEEPING, chan := Some(p), pc := WaitOut);
            Leads(s, c, p, 1, Away1(Proc1(s, p, q), c, p))
  {
    var s1 := Proc1(s, p, s.procs[p].(state := SLEEPING, chan := Some(p), pc := WaitSwitch));
    var s2 := Away1(Proc1(s, p, s.procs[p].(state := SLEEPING, chan := Some(p), pc := WaitOut)), c, p);
    Here(s, c, p, 1);
    DozeGo(s, c, p, 1);
    assert Next(s, c, p, 1) == s1 by { assert s.locks[p := s.locks[p]] == s.locks; }
    hide Leads;
    One(s, s, s1, c, p, 1);
    assert s1.locks[p := s1.locks[p]] == s1.locks && s1.procs[p := s1.procs[p]] == s1.procs;
    assert Next(s1, c, p, 1) == s2;
    One(s, s1, s2, c, p, 1);
  }

  /** Once it runs again, it gives up its lock and begins anew, with wait_lock. */
  lemma WaitResumes(s: State, c: nat, p: nat, choice: nat)
    requires On(s, c, p, WaitBack) && s.waitLock.None?
    ensures var q := s.procs[p].(chan := None, pc := WaitScan(0, false));
            Leads(s, c, p, choice, Lock(Proc1(s, p, q), p, None).(waitLock := Some(c)))
  {
    hide Next, ProcStep;
    var s1 := Lock(Proc1(s, p, s.procs[p].(chan := None, pc := WaitLock)), p, None);
    var s2 := Lock(Proc1(s, p, s.procs[p].(chan := None, pc := WaitScan(0, false))), p, None).(waitLock := Some(c));
    Here(s, c, p, choice);
    DozeGo(s, c, p, choice);
    assert Next(s, c, p, choice).procs == s1.procs;
    hide Leads;
    One(s, s, s1, c, p, choice);
    WaitTakes(s1, c, p, choice);
    assert To(s1, p, WaitScan(0, false)).procs == s2.procs;
    Then(s, s1, s2, c, p, choice);
  }

  // -------------------------------------------------------------------------- wakeup

  /** p is in a wakeup on the channel of t, about to look at entry j. */
  ghost predicate Wakes(s: State, c: nat, p: nat, j: nat, t: nat) {
    At(s, c, p) && s.procs[p].wake == WakeNext(j, t) && s.procs[p].pause.Going?
  }

  ghost function Waking1(s: State, p: nat, w: Wake): (s': State)
    requires p < |s.procs|
  {
    Proc1(s, p, s.procs[p].(wake := w))
  }

  /** A process that sleeps on the channel of t is awake. */
  ghost function Roused(q: Process, t: nat): (q': Process) {
    if q.state.SLEEPING? && q.chan == Some(t) then q.(state := RUNNABLE) else q
  }

  lemma WakeGo(s: State, c: nat, p: nat, j: nat, choice: nat)
    requires At(s, c, p) && !s.procs[p].wake.NoWake?
    requires j < |s.procs| && j == Aim(s.procs[p], p, |s.procs|, Waking, choice)
    ensures var v := WakeStep(Look(s, c, p, j), choice);
            v.w == Look(s, c, p, j).w && v.ctx == In(p) ==> Next(s, c, p, choice) == Left(s, v)
  {
    hide WakeStep, Aim;
    var v := WakeStep(Look(s, c, p, j), choice);
    assert v.ctx == In(p) ==> s.cpus[c := s.cpus[c].(ctx := v.ctx)] == s.cpus;
  }

  lemma WakeTakes(s: State, c: nat, p: nat, j: nat, t: nat, choice: nat)
    requires Wakes(s, c, p, j, t) && j < |s.procs| && j != p && s.locks[j].None?
    ensures Next(s, c, p, choice) == Lock(Waking1(s, p, WakeGot(j, Some(t))), j, Some(c))
  {
    hide Next;
    WakeGo(s, c, p, j, choice);
    assert s.procs[j := s.procs[j]] == s.procs;
  }

  lemma WakeTests(s: State, c: nat, p: nat, j: nat, t: nat, choice: nat)
    requires At(s, c, p) && s.procs[p].wake == WakeGot(j, Some(t)) && j < |s.procs| && j != p
    ensures Next(s, c, p, choice) == Waking1(Proc1(s, j, Roused(s.procs[j], t)), p, WakeDone(j, Some(t)))
  {
    hide Next;
    WakeGo(s, c, p, j, choice);
    assert s.procs[j := s.procs[j]] == s.procs && s.locks[j := s.locks[j]] == s.locks;
  }

  lemma WakeDrops(s: State, c: nat, p: nat, j: nat, t: nat, choice: nat)
    requires At(s, c, p) && s.procs[p].wake == WakeDone(j, Some(t)) && j < |s.procs| && j != p
    ensures Next(s, c, p, choice) == Lock(Waking1(s, p, WakeNext(j + 1, t)), j, None)
  {
    hide Next;
    WakeGo(s, c, p, j, choice);
    assert s.procs[j := s.procs[j]] == s.procs;
  }

  lemma WakeOne(s: State, c: nat, p: nat, j: nat, t: nat, choice: nat)
    requires Wakes(s, c, p, j, t) && j < |s.procs| && j != p && s.locks[j].None?
    ensures Leads(s, c, p, choice, Waking1(Proc1(s, j, Roused(s.procs[j], t)), p, WakeNext(j + 1, t)))
  {
    hide Leads, Next, Roused;
    var s1 := Lock(Waking1(s, p, WakeGot(j, Some(t))), j, Some(c));
    Here(s, c, p, choice);
    WakeTakes(s, c, p, j, t, choice);
    One(s, s, s1, c, p, choice);
    WakeTests(s1, c, p, j, t, choice);
    var s2 := Waking1(Proc1(s1, j, Roused(s1.procs[j], t)), p, WakeDone(j, Some(t)));
    One(s, s1, s2, c, p, choice);
    WakeDrops(s2, c, p, j, t, choice);
    var s3 := Waking1(Proc1(s, j, Roused(s.procs[j], t)), p, WakeNext(j + 1, t));
    var s4 := Lock(Waking1(s2, p, WakeNext(j + 1, t)), j, None);
    assert s4.procs == s3.procs && s4.locks == s3.locks;
    One(s, s2, s3, c, p, choice);
  }

  lemma WakeSelf(s: State, c: nat, p: nat, t: nat, choice: nat)
    requires Wakes(s, c, p, p, t)
    ensures Leads(s, c, p, choice, Waking1(s, p, WakeNext(p + 1, t)))
  {
    hide Next;
    WakeGo(s, c, p, p, choice);
    assert s.procs[p := s.procs[p]] == s.procs && s.locks[p := s.locks[p]] == s.locks;
    Here(s, c, p, choice);
    hide Leads;
    One(s, s, Waking1(s, p, WakeNext(p + 1, t)), c, p, choice);
  }

  lemma WakeEnd(s: State, c: nat, p: nat, j: nat, t: nat, choice: nat)
    requires Wakes(s, c, p, j, t) && j >= |s.procs|
    ensures Leads(s, c, p, choice, Waking1(s, p, NoWake))
  {
    hide Next;
    WakeGo(s, c, p, p, choice);
    assert s.procs[p := s.procs[p]] == s.procs && s.locks[p := s.locks[p]] == s.locks;
    Here(s, c, p, choice);
    hide Leads;
    One(s, s, Waking1(s, p, NoWake), c, p, choice);
  }

  /** Everyone from entry i on, other than p, who sleeps on the channel of t is awake. */
  ghost function Woken(s: State, p: nat, i: nat, t: nat): (s': State)
    requires p < |s.procs|
    ensures |s'.procs| == |s.procs|
  {
    s.(procs := seq(|s.procs|, k requires 0 <= k < |s.procs| =>
      if k == p then s.procs[p].(wake := NoWake) else if k >= i then Roused(s.procs[k], t) else s.procs[k]))
  }

  /** wakeup, from entry i on. */
  lemma {:induction false} WakeCall(s: State, c: nat, p: nat, i: nat, t: nat, choice: nat)
    requires Wakes(s, c, p, i, t) && i <= |s.procs| && Quiet(s)
    ensures Leads(s, c, p, choice, Woken(s, p, i, t))
    decreases |s.procs| - i
  {
    hide Leads, Roused;
    if i == |s.procs| {
      WakeEnd(s, c, p, i, t, choice);
      assert Woken(s, p, i, t).procs == Waking1(s, p, NoWake).procs;
    } else {
      var s1 := if i == p then Waking1(s, p, WakeNext(p + 1, t))
                else Waking1(Proc1(s, i, Roused(s.procs[i], t)), p, WakeNext(i + 1, t));
      if i == p {
        WakeSelf(s, c, p, t, choice);
      } else {
        WakeOne(s, c, p, i, t, choice);
      }
      WakeCall(s1, c, p, i + 1, t, choice);
      assert Woken(s1, p, i + 1, t).procs == Woken(s, p, i, t).procs;
      Then(s, s1, Woken(s, p, i, t), c, p, choice);
    }
  }

  // ---------------------------------------------------------------------------- exit

  /** A process after entry i of reparent: init's child if it was p's, and awake if it slept on
      init's channel and init has got a child. */
  ghost function Heir(q: Process, p: nat, past: bool, got: bool): (q': Process) {
    var q1 := if got then Roused(q, 0) else q;
    if past && q.parent == Some(p) then q1.(parent := Some(0)) else q1
  }

  /** reparent has dealt with the entries before i. */
  ghost function Handed(s: State, p: nat, i: nat): (s': State)
    requires p < |s.procs| && i <= |s.procs|
    ensures |s'.procs| == |s.procs|
  {
    s.(procs := seq(|s.procs|, k requires 0 <= k < |s.procs| =>
      if k == p then s.procs[p].(pc := ExitGive(i)) else Heir(s.procs[k], p, k < i, SomeKid(s, p, 0, i))))
  }

  lemma GiveStranger(s: State, c: nat, p: nat, j: nat, choice: nat)
    requires On(s, c, p, ExitGive(j)) && j < |s.procs| && !IsKid(s, p, j)
    ensures Next(s, c, p, choice) == To(s, p, ExitGive(j + 1))
  {
    hide Next, ProcStep;
    ExitGo(s, c, p, j, choice);
    assert s.procs[j := s.procs[j]] == s.procs && s.locks[j := s.locks[j]] == s.locks;
  }

  lemma GiveKid(s: State, c: nat, p: nat, j: nat, choice: nat)
    requires On(s, c, p, ExitGive(j)) && j < |s.procs| && j != p && IsKid(s, p, j)
    ensures Next(s, c, p, choice) ==
            Waking1(To(Proc1(s, j, s.procs[j].(parent := Some(0))), p, ExitGive(j + 1)), p, WakeNext(0, 0))
  {
    hide Next, ProcStep;
    ExitGo(s, c, p, j, choice);
    assert s.locks[j := s.locks[j]] == s.locks;
  }

  /** One entry of reparent. */
  lemma GiveOne(s: State, c: nat, p: nat, j: nat, choice: nat)
    requires On(s, c, p, ExitGive(j)) && j < |s.procs| && Quiet(s) && !IsKid(s, p, p)
    ensures Leads(s, c, p, choice, Gave(s, p, j))
  {
    hide Leads, Next, Woken;
    Here(s, c, p, choice);
    if IsKid(s, p, j) {
      var s1 := Waking1(To(Proc1(s, j, s.procs[j].(parent := Some(0))), p, ExitGive(j + 1)), p, WakeNext(0, 0));
      GiveKid(s, c, p, j, choice);
      One(s, s, s1, c, p, choice);
      WakeCall(s1, c, p, 0, 0, choice);
      Then(s, s1, Woken(s1, p, 0, 0), c, p, choice);
    } else {
      GiveStranger(s, c, p, j, choice);
      One(s, s, To(s, p, ExitGive(j + 1)), c, p, choice);
    }
  }

  ghost function Gave(s: State, p: nat, j: nat): (s': State)
    requires p < |s.procs| && j < |s.procs|
  {
    if IsKid(s, p, j) && j != p
    then Woken(Waking1(To(Proc1(s, j, s.procs[j].(parent := Some(0))), p, ExitGive(j + 1)), p, WakeNext(0, 0)), p, 0, 0)
    else To(s, p, ExitGive(j + 1))
  }

  lemma HandedOn(s: State, p: nat, i: nat)
    requires p < |s.procs| && i < |s.procs| && p != 0 && !IsKid(s, p, p) && s.procs[p].wake.NoWake?
    ensures Gave(Handed(s, p, i), p, i) == Handed(s, p, i + 1)
  {
    var a, b := Gave(Handed(s, p, i), p, i), Handed(s, p, i + 1);
    assert SomeKid(s, p, 0, i + 1) <==> SomeKid(s, p, 0, i) || IsKid(s, p, i);
    hide SomeKid;
    assert |a.procs| == |b.procs|;
    forall k | 0 <= k < |s.procs| ensures a.procs[k] == b.procs[k] {
    }
  }

  lemma {:induction false} GiveAll(s: State, c: nat, p: nat, i: nat, choice: nat)
    requires On(s, c, p, ExitGive(0)) && Quiet(s) && i <= |s.procs| && p != 0 && !IsKid(s, p, p)
    ensures Leads(s, c, p, choice, Handed(s, p, i))
    decreases i
  {
    hide Leads, Gave;
    if i == 0 {
      Here(s, c, p, choice);
      assert Handed(s, p, 0).procs == s.procs;
    } else {
      var s1 := Handed(s, p, i - 1);
      GiveAll(s, c, p, i - 1, choice);
      GiveOne(s1, c, p, i - 1, choice);
      HandedOn(s, p, i - 1);
      Then(s, s1, Handed(s, p, i), c, p, choice);
    }
  }

  /** Waking the parent, once the children are given away. */
  lemma ExitTells(s: State, c: nat, p: nat, j: nat, choice: nat)
    requires On(s, c, p, ExitGive(j)) && j >= |s.procs| && Quiet(s) && s.procs[p].parent.Some?
    ensures Leads(s, c, p, choice, Woken(To(s, p, ExitOwn), p, 0, s.procs[p].parent.v))
  {
    hide Leads, Next, ProcStep, Woken;
    var t := s.procs[p].parent.v;
    var s1 := Waking1(To(s, p, ExitOwn), p, WakeNext(0, t));
    Here(s, c, p, choice);
    ExitGo(s, c, p, p, choice);
    assert s.procs[p := s.procs[p]] == s.procs && s.locks[p := s.locks[p]] == s.locks;
    assert Next(s, c, p, choice) == s1;
    One(s, s, s1, c, p, choice);
    WakeCall(s1, c, p, 0, t, choice);
    SameWoken(To(s, p, ExitOwn), p, t);
    Then(s, s1, Woken(To(s, p, ExitOwn), p, 0, t), c, p, choice);
  }

  lemma SameWoken(s: State, p: nat, t: nat)
    requires p < |s.procs|
    ensures Woken(Waking1(s, p, WakeNext(0, t)), p, 0, t) == Woken(s, p, 0, t)
  {
    assert Woken(Waking1(s, p, WakeNext(0, t)), p, 0, t).procs == Woken(s, p, 0, t).procs;
  }

  lemma ExitLocks(s: State, c: nat, p: nat, choice: nat)
    requires On(s, c, p, ExitOwn) && s.locks[p].None? && s.procs[p].state.RUNNING?
    ensures var q := s.procs[p].(state := ZOMBIE, pc := ExitUnwait);
            Leads(s, c, p, choice, Lock(Proc1(s, p, q), p, Some(c)))
  {
    hide Leads, Next, ProcStep;
    var s1 := Lock(To(s, p, ExitZombie), p, Some(c));
    var s2 := Lock(Proc1(s, p, s.procs[p].(state := ZOMBIE, pc := ExitUnwait)), p, Some(c));
    Here(s, c, p, choice);
    ExitGo(s, c, p, p, choice);
    assert s.procs[p := s.procs[p]] == s.procs;
    One(s, s, s1, c, p, choice);
    ExitGo(s1, c, p, p, choice);
    assert Next(s1, c, p, choice).procs == s2.procs && Next(s1, c, p, choice).locks == s2.locks;
    One(s, s1, s2, c, p, choice);
  }

  lemma ExitSwitches(s: State, c: nat, p: nat, choice: nat)
    requires On(s, c, p, ExitUnwait)
    ensures Leads(s, c, p, choice, Away1(To(s, p, Dead), c, p).(waitLock := None))
  {
    var s1 := To(s, p, ExitSwitch).(waitLock := None);
    var s2 := Away1(To(s, p, Dead), c, p).(waitLock := None);
    Here(s, c, p, choice);
    ExitGo(s, c, p, p, choice);
    assert s.procs[p := s.procs[p]] == s.procs && s.locks[p := s.locks[p]] == s.locks;
    assert Next(s, c, p, choice) == s1;
    hide Leads;
    One(s, s, s1, c, p, choice);
    assert s1.locks[p := s1.locks[p]] == s1.locks && s1.procs[p := s1.procs[p]] == s1.procs;
    assert Next(s1, c, p, choice) == s2;
    One(s, s1, s2, c, p, choice);
  }

  /** The rest of the table after exit. */
  ghost function Survivor(s: State, p: nat, k: nat): (q: Process)
    requires p < |s.procs| && k < |s.procs| && s.procs[p].parent.Some?
  {
    Roused(Heir(s.procs[k], p, true, SomeKid(s, p, 0, |s.procs|)), s.procs[p].parent.v)
  }

  ghost function Exited(s: State, c: nat, p: nat): (s': State)
    requires p < |s.procs| && c < |s.cpus| && p < |s.locks| && s.procs[p].parent.Some?
  {
    var procs := seq(|s.procs|, k requires 0 <= k < |s.procs| =>
      if k == p then s.procs[p].(state := ZOMBIE, pc := Dead) else Survivor(s, p, k));
    Away1(Lock(s.(procs := procs), p, Some(c)), c, p)
  }

  lemma ExitTakes(s: State, c: nat, p: nat, choice: nat)
    requires On(s, c, p, ExitWait) && s.waitLock.None?
    ensures Leads(s, c, p, choice, To(s, p, ExitGive(0)).(waitLock := Some(c)))
  {
    hide Next, ProcStep;
    ExitGo(s, c, p, p, choice);
    assert s.procs[p := s.procs[p]] == s.procs && s.locks[p := s.locks[p]] == s.locks;
    Here(s, c, p, choice);
    hide Leads;
    One(s, s, To(s, p, ExitGive(0)).(waitLock := Some(c)), c, p, choice);
  }

  /** The end of exit, once the others have been told. */
  ghost function Gone(s: State, c: nat, p: nat): (s': State)
    requires p < |s.procs| && c < |s.cpus| && p < |s.locks|
  {
    Away1(Lock(Proc1(s, p, s.procs[p].(state := ZOMBIE, pc := Dead)), p, Some(c)), c, p).(waitLock := None)
  }

  lemma ExitGone(s: State, c: nat, p: nat, choice: nat)
    requires On(s, c, p, ExitOwn) && s.locks[p].None? && s.procs[p].state.RUNNING?
    ensures Leads(s, c, p, choice, Gone(s, c, p))
  {
    hide Leads, Next;
    var s1 := Lock(Proc1(s, p, s.procs[p].(state := ZOMBIE, pc := ExitUnwait)), p, Some(c));
    ExitLocks(s, c, p, choice);
    ExitSwitches(s1, c, p, choice);
    assert Away1(To(s1, p, Dead), c, p).procs == Gone(s, c, p).procs;
    Then(s, s1, Gone(s, c, p), c, p, choice);
  }

  /** The children are given away and the parent is awake. */
  ghost function Told(s: State, c: nat, p: nat): (s': State)
    requires p < |s.procs| && s.procs[p].parent.Some?
  {
    var s1 := To(s, p, ExitGive(0)).(waitLock := Some(c));
    Woken(To(Handed(s1, p, |s.procs|), p, ExitOwn), p, 0, s.procs[p].parent.v)
  }

  lemma ExitTold(s: State, c: nat, p: nat, choice: nat)
    requires On(s, c, p, ExitWait) && Quiet(s) && s.waitLock.None? && p != 0 && s.procs[p].parent.Some?
    requires !IsKid(s, p, p)
    ensures Leads(s, c, p, choice, Told(s, c, p))
  {
    hide Leads, Next, Woken;
    var n := |s.procs|;
    var s1 := To(s, p, ExitGive(0)).(waitLock := Some(c));
    ExitTakes(s, c, p, choice);
    GiveAll(s1, c, p, n, choice);
    var s2 := Handed(s1, p, n);
    Then(s, s1, s2, c, p, choice);
    ExitTells(s2, c, p, n, choice);
    Then(s, s2, Told(s, c, p), c, p, choice);
  }

  lemma ToldIs(s: State, c: nat, p: nat)
    requires At(s, c, p) && s.procs[p].parent.Some? && s.procs[p].wake.NoWake? && s.waitLock.None?
    ensures var t := Told(s, c, p);
            && |t.procs| == |s.procs| && t.procs[p] == s.procs[p].(pc := ExitOwn)
            && t.locks == s.locks && t.cpus == s.cpus
            && Gone(t, c, p) == Exited(s, c, p)
  {
    var s1 := To(s, p, ExitGive(0)).(waitLock := Some(c));
    var n := |s.procs|;
    assert forall k :: 0 <= k < n ==> (IsKid(s1, p, k) <==> IsKid(s, p, k));
    assert SomeKid(s1, p, 0, n) <==> SomeKid(s, p, 0, n);
    hide SomeKid, Heir, Roused;
    var a, b := Gone(Told(s, c, p), c, p), Exited(s, c, p);
    forall k | 0 <= k < n ensures a.procs[k] == b.procs[k] {
    }
    assert a.procs == b.procs;
  }

  /** exit: p is a zombie, its children are init's, its parent is awake if it was asleep in
      wait, and so is init if it has got a child; nothing else changes. CPU c is back in its
      scheduler, with p's lock. */
  lemma ExitCall(s: State, c: nat, p: nat, choice: nat)
    requires On(s, c, p, ExitWait) && Quiet(s) && s.waitLock.None? && s.procs[p].state.RUNNING?
    requires p != 0 && s.procs[p].parent.Some? && !IsKid(s, p, p)
    ensures Leads(s, c, p, choice, Exited(s, c, p))
  {
    hide Leads, Next, Exited, Told, Gone, IsKid;
    ExitTold(s, c, p, choice);
    ToldIs(s, c, p);
    ExitGone(Told(s, c, p), c, p, choice);
    Then(s, Told(s, c, p), Exited(s, c, p), c, p, choice);
  }

  // ------------------------------------------------------------------- the scheduler

  /** k steps of CPU c's scheduler, which looks at process j. */
  ghost function Sched(s: State, c: nat, j: nat, k: nat): (s': State)
    requires Sized(s)
    ensures Sized(s') && |s'.procs| == |s.procs| && |s'.cpus| == |s.cpus|
    decreases k
  {
    if k == 0 then s else Sched(Step(s, Event(c, Code, j)), c, j, k - 1)
  }

  ghost predicate Idle(s: State, c: nat) {
    Sized(s) && c < |s.cpus| && s.cpus[c] == Cpu(Loop, None)
  }

  /** A process that is ready to run gets the CPU, where it left off, with its own lock. */
  lemma SchedStarts(s: State, c: nat, j: nat)
    requires Idle(s, c) && j < |s.procs| && s.procs[j].state.RUNNABLE? && s.locks[j].None?
    ensures Sched(s, c, j, 4) ==
            Lock(Proc1(s, j, Resumed(s.procs[j].(state := RUNNING, on := Some(c)))), j, Some(c))
            .(cpus := s.cpus[c := Cpu(In(j), Some(j))])
  {
    hide Resumed;
    var q := s.procs[j].(state := RUNNING, on := Some(c));
    var s1 := Lock(s, j, Some(c)).(cpus := s.cpus[c := Cpu(Got(j), None)]);
    var s2 := Lock(Proc1(s, j, q), j, Some(c)).(cpus := s.cpus[c := Cpu(Ran(j), None)]);
    var s3 := Lock(Proc1(s, j, q), j, Some(c)).(cpus := s.cpus[c := Cpu(Switch(j), Some(j))]);
    var s4 := Lock(Proc1(s, j, Resumed(q)), j, Some(c)).(cpus := s.cpus[c := Cpu(In(j), Some(j))]);
    var e := Event(c, Code, j);
    assert Step(s, e) == s1 by { assert s.procs[j := s.procs[j]] == s.procs; }
    assert Step(s1, e) == s2;
    assert Step(s2, e) == s3;
    assert Step(s3, e) == s4;
    assert Sched(s, c, j, 4) == Sched(s1, c, j, 3) == Sched(s2, c, j, 2) == Sched(s3, c, j, 1) == Sched(s4, c, j, 0);
  }

  /** One that is not is left alone. */
  lemma SchedPasses(s: State, c: nat, j: nat)
    requires Idle(s, c) && j < |s.procs| && !s.procs[j].state.RUNNABLE? && s.locks[j].None?
    ensures Sched(s, c, j, 3) == s
  {
    var s1 := Lock(s, j, Some(c)).(cpus := s.cpus[c := Cpu(Got(j), None)]);
    var s2 := Lock(s, j, Some(c)).(cpus := s.cpus[c := Cpu(Rel(j), None)]);
    var e := Event(c, Code, j);
    assert s.procs[j := s.procs[j]] == s.procs;
    assert Step(s, e) == s1;
    assert Step(s1, e) == s2;
    assert Step(s2, e) == s by { assert s.locks[j := Some(c)][j := None] == s.locks; }
    assert Sched(s, c, j, 3) == Sched(s1, c, j, 2) == Sched(s2, c, j, 1) == Sched(s, c, j, 0);
  }

  /** A process that has given up the CPU is let go. */
  lemma SchedLeaves(s: State, c: nat, j: nat)
    requires Sized(s) && c < |s.cpus| && s.cpus[c].ctx == Back(j) && j < |s.procs|
    ensures Sched(s, c, j, 2) ==
            Lock(Proc1(s, j, s.procs[j].(on := None)), j, None).(cpus := s.cpus[c := Cpu(Loop, None)])
  {
    var s1 := Proc1(s, j, s.procs[j].(on := None)).(cpus := s.cpus[c := Cpu(Rel(j), None)]);
    var s2 := Lock(Proc1(s, j, s.procs[j].(on := None)), j, None).(cpus := s.cpus[c := Cpu(Loop, None)]);
    var e := Event(c, Code, j);
    assert Step(s, e) == s1 by { assert s.locks[j := s.locks[j]] == s.locks; }
    assert Step(s1, e) == s2;
    assert Sched(s, c, j, 2) == Sched(s1, c, j, 1) == Sched(s2, c, j, 0);
  }

  // ------------------------------------------------------------------- yield and sleep

  /** yield, or a sleep that is not wait's: the process is ready to run, or asleep, and its CPU
      is back in its scheduler, with the process's lock. */
  lemma PauseCall(s: State, c: nat, p: nat, choice: nat)
    requires At(s, c, p) && Ready(s.procs[p]) && Calm(s.procs[p].pc) && s.locks[p].None? && s.procs[p].state.RUNNING?
    ensures var e := Event(c, Pausing, choice);
            var st := if choice == 0 then RUNNABLE else SLEEPING;
            Step(Step(Step(s, e), e), e) ==
            Away1(Lock(Proc1(s, p, s.procs[p].(state := st, chan := None, pause := PauseOut)), p, Some(c)), c, p)
  {
    var e := Event(c, Pausing, choice);
    var st := if choice == 0 then RUNNABLE else SLEEPING;
    var s1 := Lock(Proc1(s, p, s.procs[p].(pause := PauseOwn)), p, Some(c));
    var s2 := Lock(Proc1(s, p, s.procs[p].(state := st, chan := None, pause := PauseSet)), p, Some(c));
    var s3 := Away1(Lock(Proc1(s, p, s.procs[p].(state := st, chan := None, pause := PauseOut)), p, Some(c)), c, p);
    assert s.cpus[c := s.cpus[c].(ctx := In(p))] == s.cpus;
    assert Step(s, e) == s1;
    assert Step(s1, e) == s2;
    assert Step(s2, e) == s3;
  }

  /** Once it runs again, it gives up its lock and goes on where it was. */
  lemma PauseReturns(s: State, c: nat, p: nat, choice: nat)
    requires At(s, c, p) && s.procs[p].pause.PauseBack?
    ensures Step(s, Event(c, Pausing, choice)) == Lock(Proc1(s, p, s.procs[p].(pause := Going)), p, None)
  {
    assert s.cpus[c := s.cpus[c].(ctx := In(p))] == s.cpus;
  }

  /** What a process in user space begins: fork, wait, or, unless it is init, exit. */
  lemma Begins(s: State, c: nat, p: nat, choice: nat)
    requires On(s, c, p, User)
    ensures var pc := if choice == 0 then ForkScan(0) else if choice == 1 then WaitLock
                      else if p != 0 then ExitWait else User;
            Step(s, Event(c, Code, choice)) == To(s, p, pc)
  {
    assert s.cpus[c := s.cpus[c].(ctx := In(p))] == s.cpus && s.locks[p := s.locks[p]] == s.locks;
    assert s.procs[p := s.procs[p]] == s.procs;
  }

  /** A look of any other wakeup, or of kill, at a process it is for: if that sleeps, it is
      awake, and nothing else changes. */
  lemma LookCall(s: State, c: nat, p: nat, j: nat)
    requires At(s, c, p) && Ready(s.procs[p]) && Calm(s.procs[p].pc) && j < |s.procs| && j != p && s.locks[j].None?
    ensures var e := Event(c, Waking, 0);
            var t := s.procs[j];
            Step(Step(Step(s, Event(c, Waking, j)), e), e) ==
            Proc1(s, j, if t.state.SLEEPING? then t.(state := RUNNABLE) else t)
  {
    var t := s.procs[j];
    var t' := if t.state.SLEEPING? then t.(state := RUNNABLE) else t;
    var s1 := Lock(Waking1(s, p, WakeGot(j, None)), j, Some(c));
    var s2 := Lock(Waking1(Proc1(s, j, t'), p, WakeDone(j, None)), j, Some(c));
    var e := Event(c, Waking, 0);
    assert s.cpus[c := s.cpus[c].(ctx := In(p))] == s.cpus && s.procs[j := s.procs[j]] == s.procs;
    assert Step(s, Event(c, Waking, j)) == s1;
    assert Step(s1, e) == s2 by { assert Step(s1, e).procs == s2.procs; }
    assert Step(s2, e) == Proc1(s, j, t') by {
      assert Step(s2, e).procs == Proc1(s, j, t').procs && Step(s2, e).locks == s.locks;
    }
  }
}
