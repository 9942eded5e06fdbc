/**
 What sleep, wakeup, kill, acquiresleep and releasesleep bring about: every wakeup reaches
 every sleeper, whatever runs beside it.
 */
module SleepCalls {

  import opened SleepLock

  /** The channel that a scan is for. */
  ghost function ChanFor(why: Why): (c: Chan) {
    if why == Release then TheLock else Elsewhere
  }

  ghost predicate Scanning(pc: Pc, why: Why) {
    (pc.Scan? || pc.ScanGot? || pc.ScanDone?) && pc.why == why
  }

  /** The scan has looked at process k. */
  ghost predicate Passed(pc: Pc, k: nat) {
    if pc.ScanDone? then pc.j >= k else (pc.Scan? || pc.ScanGot?) && pc.j > k
  }

  ghost predicate SleepsOn(q: Proc, c: Chan) {
    q.state.Sleeping? && q.chan == c
  }

  /** A process that scans moves on only by its own code. */
  lemma PcKept(s: State, e: Event, p: nat)
    requires Sized(s) && p < |s.procs| && !s.procs[p].pc.Asleep? && (e.Code? ==> e.p != p)
    ensures Step(s, e).procs[p].pc == s.procs[p].pc
  {
    if e.Code? && e.p < |s.procs| {
      hide Advance, Step;
      OtherCode(s, e.p, e.choice, p);
      StepCode(s, e.p, e.choice);
    }
  }

  lemma StepCode(s: State, p: nat, choice: nat)
    requires Sized(s) && p < |s.procs|
    ensures Step(s, Code(p, choice)) == if s.procs[p].timer.NoYield? then Advance(s, p, choice) else s
  {
    hide Advance;
  }

  /** Another process's code changes no more of a process than its state, to Runnable. */
  lemma OtherCode(s: State, x: nat, choice: nat, k: nat)
    requires Sized(s) && x < |s.procs| && k < |s.procs| && k != x
    ensures var q, q' := s.procs[k], Advance(s, x, choice).procs[k]; q' == q || q' == q.(state := Runnable)
  {
  }

  /** A process that sleeps stays on its channel as long as it sleeps. */
  lemma ChanKept(s: State, e: Event, k: nat)
    requires Sized(s) && k < |s.procs| && Fits(s.procs[k]) && s.procs[k].state.Sleeping?
    ensures Step(s, e).procs[k].chan == s.procs[k].chan
  {
    if e.Code? && e.p < |s.procs| {
      hide Advance, Step;
      StepCode(s, e.p, e.choice);
      if e.p == k {
        SleeperCode(s, k, e.choice);
      } else {
        OtherCode(s, e.p, e.choice, k);
      }
    }
  }

  lemma SleeperCode(s: State, k: nat, choice: nat)
    requires Sized(s) && k < |s.procs| && (s.procs[k].pc.SwitchOut? || s.procs[k].pc.Asleep?)
    ensures Advance(s, k, choice).procs[k].chan == s.procs[k].chan
  {
  }

  lemma ScanMoves(s: State, p: nat, choice: nat, k: nat, why: Why)
    requires Sized(s) && p < |s.procs| && k < |s.procs| && k != p && why != Kill
    requires Scanning(s.procs[p].pc, why) && !Passed(s.procs[p].pc, k) && SleepsOn(s.procs[k], ChanFor(why))
    requires Advance(s, p, choice).procs[k].state.Sleeping? && Scanning(Advance(s, p, choice).procs[p].pc, why)
    ensures !Passed(Advance(s, p, choice).procs[p].pc, k)
  {
  }

  /** A step does not bring the scan past a process that goes on sleeping on its channel. */
  lemma NotPassed(s: State, e: Event, p: nat, k: nat, why: Why)
    requires Inv(s) && p < |s.procs| && k < |s.procs| && k != p && why != Kill
    requires Scanning(s.procs[p].pc, why) && !Passed(s.procs[p].pc, k) && SleepsOn(s.procs[k], ChanFor(why))
    requires Step(s, e).procs[k].state.Sleeping? && Scanning(Step(s, e).procs[p].pc, why)
    ensures !Passed(Step(s, e).procs[p].pc, k) && SleepsOn(Step(s, e).procs[k], ChanFor(why))
  {
    FitsOf(s, k);
    hide Inv, Step, Advance, Fits;
    InvSized(s);
    ChanKept(s, e, k);
    if e.Code? && e.p == p {
      StepCode(s, p, e.choice);
      if s.procs[p].timer.NoYield? {
        ScanMoves(s, p, e.choice, k, why);
      }
    } else {
      PcKept(s, e, p);
    }
  }

  lemma InvSized(s: State)
    requires Inv(s)
    ensures Sized(s)
  {
  }

  // --------------------------------------------------------------------- over every run

  /** The state after i events. */
  ghost function After(n: nat, es: seq<Event>, i: nat): (s: State)
    requires i <= |es|
    ensures Sized(s) && |s.procs| == n
  {
    Run(Init(n), es[..i])
  }

  lemma NextIs(n: nat, es: seq<Event>, i: nat)
    requires i < |es|
    ensures After(n, es, i + 1) == Step(After(n, es, i), es[i])
  {
    assert es[..i + 1][..i] == es[..i];
  }

  /** From time a to time b process p is in a wakeup, and process k sleeps. */
  ghost predicate Beside(n: nat, es: seq<Event>, a: nat, b: nat, p: nat, k: nat, why: Why)
    requires a <= b <= |es| && p < n && k < n
  {
    forall i :: a <= i <= b ==>
      Scanning(After(n, es, i).procs[p].pc, why) && After(n, es, i).procs[k].state.Sleeping?
  }

  lemma {:induction false} NotReached(n: nat, es: seq<Event>, a: nat, b: nat, p: nat, k: nat, why: Why)
    requires a <= b <= |es| && p < n && k < n && k != p && why != Kill
    requires After(n, es, a).procs[p].pc == Scan(why, 0) && SleepsOn(After(n, es, a).procs[k], ChanFor(why))
    requires Beside(n, es, a, b, p, k, why)
    ensures !Passed(After(n, es, b).procs[p].pc, k) && SleepsOn(After(n, es, b).procs[k], ChanFor(why))
    decreases b
  {
    hide Inv, Step, Init, After, Run;
    if a < b {
      NotReached(n, es, a, b - 1, p, k, why);
      AfterInv(n, es, b - 1);
      NextIs(n, es, b - 1);
      assert Scanning(After(n, es, b).procs[p].pc, why) && Scanning(After(n, es, b - 1).procs[p].pc, why);
      NotPassed(After(n, es, b - 1), es[b - 1], p, k, why);
    }
  }

  lemma AfterInv(n: nat, es: seq<Event>, i: nat)
    requires i <= |es|
    ensures Inv(After(n, es, i))
  {
    hide Inv, Run, Init;
    RunInv(n, es[..i]);
  }

  /** Whatever runs beside it: a wakeup that has gone from the beginning of the table past a
      process which slept on its channel has found it awake, or woken it. */
  lemma WakeupReaches(n: nat, es: seq<Event>, a: nat, b: nat, p: nat, k: nat, why: Why)
    requires a <= b <= |es| && p < n && k < n && k != p && why != Kill
    requires After(n, es, a).procs[p].pc == Scan(why, 0) && SleepsOn(After(n, es, a).procs[k], ChanFor(why))
    requires forall i :: a <= i <= b ==> Scanning(After(n, es, i).procs[p].pc, why)
    requires Passed(After(n, es, b).procs[p].pc, k)
    ensures exists i :: a <= i <= b && !After(n, es, i).procs[k].state.Sleeping?
  {
    if Beside(n, es, a, b, p, k, why) {
      NotReached(n, es, a, b, p, k, why);
    }
  }

  /** A kill that has found its victim leaves it awake. */
  lemma KillWakes(n: nat, es: seq<Event>, p: nat, j: nat)
    requires p < n && Run(Init(n), es).procs[p].pc == ScanGot(Kill, j) && j < n
    ensures !Step(Run(Init(n), es), Code(p, 0)).procs[j].state.Sleeping?
  {
    hide Run, LocksInv, Bound, WillWake;
    RunInv(n, es);
    FitsOf(Run(Init(n), es), p);
  }

  // ------------------------------------------------------------- acquire and release

  /** acquiresleep of a lock that nobody has: four steps take it. */
  lemma AcquireGets(s: State, p: nat)
    requires Sized(s) && p < |s.procs| && s.procs[p].pc.WantInner? && s.procs[p].timer.NoYield? && s.inner == Free
    requires !s.locked
    ensures var e := Code(p, 0);
            Step(Step(Step(Step(s, e), e), e), e) ==
            s.(locked := true, pid := p, procs := s.procs[p := s.procs[p].(pc := Idle, has := true)])
  {
    var e := Code(p, 0);
    var s1 := To(s.(inner := By(p)), p, Test);
    var s2 := To(s.(inner := By(p)), p, TakeLock);
    var q := s.procs[p].(pc := GotLock, has := true);
    var s3 := s.(inner := By(p), locked := true, pid := p, procs := s.procs[p := q]);
    assert Step(s, e) == s1;
    assert Step(s1, e) == s2;
    assert Step(s2, e) == s3;
    assert Step(s3, e) == s.(locked := true, pid := p, procs := s.procs[p := s.procs[p].(pc := Idle, has := true)]);
  }

  /** Of one that somebody has: six steps put the process to sleep on the lock, without the
      inner spinlock and with its own. */
  lemma AcquireSleeps(s: State, p: nat)
    requires Sized(s) && p < |s.procs| && s.procs[p].pc.WantInner? && s.procs[p].timer.NoYield? && s.inner == Free
    requires s.locked && s.locks[p] == Free
    ensures var e := Code(p, 0);
            var q := s.procs[p].(pc := SwitchOut(TheLock), chan := TheLock, state := Sleeping);
            Step(Step(Step(Step(Step(Step(s, e), e), e), e), e), e) == Lock(s.(procs := s.procs[p := q]), p, By(p))
  {
    hide Step;
    var s3 := To(Lock(s.(inner := By(p)), p, By(p)), p, SleepRel);
    FindsTaken(s, p);
    FallsAsleep(s3, p);
    var q := s.procs[p].(pc := SwitchOut(TheLock), chan := TheLock, state := Sleeping);
    assert s3.procs[p := q] == s.procs[p := q];
  }

  lemma FindsTaken(s: State, p: nat)
    requires Sized(s) && p < |s.procs| && s.procs[p].pc.WantInner? && s.procs[p].timer.NoYield? && s.inner == Free
    requires s.locked && s.locks[p] == Free
    ensures var e := Code(p, 0); Step(Step(Step(s, e), e), e) == To(Lock(s.(inner := By(p)), p, By(p)), p, SleepRel)
  {
    var e := Code(p, 0);
    assert Step(s, e) == To(s.(inner := By(p)), p, Test);
    assert Step(Step(s, e), e) == To(s.(inner := By(p)), p, SleepOwn);
  }

  lemma FallsAsleep(s: State, p: nat)
    requires Sized(s) && p < |s.procs| && s.procs[p].pc.SleepRel? && s.procs[p].timer.NoYield?
    ensures var e := Code(p, 0);
            var q := s.procs[p].(pc := SwitchOut(TheLock), chan := TheLock, state := Sleeping);
            Step(Step(Step(s, e), e), e) == s.(inner := Free, procs := s.procs[p := q])
  {
    var e := Code(p, 0);
    var q := s.procs[p].(pc := SetState(TheLock), chan := TheLock);
    assert Step(s, e) == To(s.(inner := Free), p, SetChan(TheLock));
    assert Step(Step(s, e), e) == s.(inner := Free, procs := s.procs[p := q]);
  }

  /** releasesleep: two steps clear the lock and begin the wakeup of its sleepers. */
  lemma ReleaseClears(s: State, p: nat)
    requires Sized(s) && p < |s.procs| && s.procs[p].pc.RelWant? && s.procs[p].timer.NoYield? && s.inner == Free
    ensures var e := Code(p, 0);
            var q := s.procs[p].(pc := Scan(Release, 0), has := false);
            Step(Step(s, e), e) == s.(inner := By(p), locked := false, pid := 0, procs := s.procs[p := q])
  {
    var e := Code(p, 0);
    assert Step(s, e) == To(s.(inner := By(p)), p, RelClear);
  }

  // ------------------------------------------------------------------ undisturbed calls

  /** The state after k steps of p's code. */
  ghost function Along(s: State, p: nat, choice: nat, k: nat): (s': State)
    requires Sized(s)
    ensures Sized(s') && |s'.procs| == |s.procs|
    decreases k
  {
    if k == 0 then s else Along(Step(s, Code(p, choice)), p, choice, k - 1)
  }

  /** Running on, with these choices, p comes to s'. */
  ghost predicate Leads(s: State, p: nat, choice: nat, s': State) {
    Sized(s) && exists k :: Along(s, p, choice, k) == s'
  }

  lemma Here(s: State, p: nat, choice: nat)
    requires Sized(s)
    ensures Leads(s, p, choice, s)
  {
    assert Along(s, p, choice, 0) == s;
  }

  lemma {:induction false} AlongThen(s: State, p: nat, choice: nat, k: nat, m: nat)
    requires Sized(s)
    ensures Along(s, p, choice, k + m) == Along(Along(s, p, choice, k), p, choice, m)
    decreases k
  {
    hide Step;
    if k > 0 {
      AlongThen(Step(s, Code(p, choice)), p, choice, k - 1, m);
    }
  }

  lemma Join(s: State, s1: State, s2: State, p: nat, choice: nat)
    requires Leads(s, p, choice, s1) && Leads(s1, p, choice, s2)
    ensures Leads(s, p, choice, s2)
  {
    hide Along;
    var k :| Along(s, p, choice, k) == s1;
    var m :| Along(s1, p, choice, m) == s2;
    AlongThen(s, p, choice, k, m);
  }

  lemma One(s: State, s1: State, s2: State, p: nat, choice: nat)
    requires Leads(s, p, choice, s1) && Sized(s1) && Step(s1, Code(p, choice)) == s2
    ensures Leads(s, p, choice, s2)
  {
    assert Along(s2, p, choice, 0) == s2;
    assert Along(s1, p, choice, 1) == s2;
    hide Along, Step;
    Join(s, s1, s2, p, choice);
  }

  /** p's code may go on, at pc. */
  ghost predicate On(s: State, p: nat, pc: Pc) {
    Sized(s) && p < |s.procs| && s.procs[p].pc == pc && s.procs[p].timer.NoYield?
  }

  ghost predicate Quiet(s: State) {
    forall i :: 0 <= i < |s.locks| ==> s.locks[i] == Free
  }

  ghost function Proc1(s: State, p: nat, q: Proc): (s': State)
    requires p < |s.procs|
  {
    s.(procs := s.procs[p := q])
  }

  /** What a scan leaves of a process it looks at. */
  ghost function Roused(q: Proc, why: Why): (q': Proc) {
    if why != Kill && SleepsOn(q, ChanFor(why)) then q.(state := Runnable) else q
  }

  lemma ScanTakes(s: State, p: nat, why: Why, j: nat, choice: nat)
    requires On(s, p, Scan(why, j)) && j < |s.procs| && (j == p ==> why == Kill) && s.locks[j] == Free
    ensures Step(s, Code(p, choice)) == To(Lock(s, j, By(p)), p, ScanGot(why, j))
  {
  }

  lemma ScanTests(s: State, p: nat, why: Why, j: nat)
    requires On(s, p, ScanGot(why, j)) && j < |s.procs|
    ensures Step(s, Code(p, 1)) == To(Proc1(s, j, Roused(s.procs[j], why)), p, ScanDone(why, j))
  {
    assert s.procs[j := s.procs[j]] == s.procs;
  }

  lemma ScanDrops(s: State, p: nat, why: Why, j: nat)
    requires On(s, p, ScanDone(why, j)) && j < |s.procs|
    ensures Step(s, Code(p, 1)) == To(Lock(s, j, Free), p, Scan(why, j + 1))
  {
  }

  lemma ScanOne(s: State, p: nat, why: Why, j: nat)
    requires On(s, p, Scan(why, j)) && j < |s.procs| && j != p && s.locks[j] == Free
    ensures Leads(s, p, 1, To(Proc1(s, j, Roused(s.procs[j], why)), p, Scan(why, j + 1)))
  {
    hide Leads, Step, Roused;
    var s1 := To(Lock(s, j, By(p)), p, ScanGot(why, j));
    Here(s, p, 1);
    ScanTakes(s, p, why, j, 1);
    One(s, s, s1, p, 1);
    ScanTests(s1, p, why, j);
    var s2 := To(Proc1(s1, j, Roused(s1.procs[j], why)), p, ScanDone(why, j));
    One(s, s1, s2, p, 1);
    ScanDrops(s2, p, why, j);
    var s3 := To(Proc1(s, j, Roused(s.procs[j], why)), p, Scan(why, j + 1));
    var s4 := To(Lock(s2, j, Free), p, Scan(why, j + 1));
    assert s4.procs == s3.procs && s4.locks == s3.locks;
    One(s, s2, s3, p, 1);
  }

  /** The scan's own entry: wakeup leaves it out, and kill finds it running. */
  lemma ScanSelf(s: State, p: nat, why: Why)
    requires On(s, p, Scan(why, p)) && s.locks[p] == Free && !s.procs[p].state.Sleeping?
    ensures Leads(s, p, 1, To(s, p, Scan(why, p + 1)))
  {
    hide Leads, Step;
    var s3 := To(s, p, Scan(why, p + 1));
    Here(s, p, 1);
    if why == Kill {
      var s1, s2 := To(Lock(s, p, By(p)), p, ScanGot(why, p)), To(Lock(s, p, By(p)), p, ScanDone(why, p));
      ScanTakes(s, p, why, p, 1);
      One(s, s, s1, p, 1);
      ScanTests(s1, p, why, p);
      assert To(Proc1(s1, p, s1.procs[p]), p, ScanDone(why, p)).procs == s2.procs;
      One(s, s1, s2, p, 1);
      ScanDrops(s2, p, why, p);
      assert To(Lock(s2, p, Free), p, Scan(why, p + 1)).procs == s3.procs && s2.locks[p := Free] == s3.locks;
      One(s, s2, s3, p, 1);
    } else {
      ScanSkips(s, p, why);
      One(s, s, s3, p, 1);
    }
  }

  lemma ScanSkips(s: State, p: nat, why: Why)
    requires On(s, p, Scan(why, p)) && why != Kill
    ensures Step(s, Code(p, 1)) == To(s, p, Scan(why, p + 1))
  {
  }

  /** The scan has gone from entry i to entry j. */
  ghost function Scanned(s: State, p: nat, why: Why, i: nat, j: nat): (s': State)
    requires p < |s.procs|
    ensures |s'.procs| == |s.procs|
  {
    s.(procs := seq(|s.procs|, k requires 0 <= k < |s.procs| =>
      if k == p then s.procs[p].(pc := Scan(why, j)) else if i <= k < j then Roused(s.procs[k], why) else s.procs[k]))
  }

  lemma {:induction false} ScanTo(s: State, p: nat, why: Why, i: nat, j: nat)
    requires On(s, p, Scan(why, i)) && i <= j <= |s.procs| && Quiet(s) && !s.procs[p].state.Sleeping?
    ensures Leads(s, p, 1, Scanned(s, p, why, i, j))
    decreases j - i
  {
    hide Leads, Roused;
    if i == j {
      Here(s, p, 1);
      assert Scanned(s, p, why, i, j).procs == s.procs;
    } else {
      var s1 := if i == p then To(s, p, Scan(why, i + 1))
                else To(Proc1(s, i, Roused(s.procs[i], why)), p, Scan(why, i + 1));
      if i == p {
        ScanSelf(s, p, why);
      } else {
        ScanOne(s, p, why, i);
      }
      ScanTo(s1, p, why, i + 1, j);
      assert Scanned(s1, p, why, i + 1, j).procs == Scanned(s, p, why, i, j).procs;
      Join(s, s1, Scanned(s, p, why, i, j), p, 1);
    }
  }

  /** wakeup, undisturbed: exactly the other processes that sleep on its channel are awake, and
      releasesleep has given up the inner spinlock. */
  lemma WakeupCall(s: State, p: nat, why: Why)
    requires On(s, p, Scan(why, 0)) && why != Kill && Quiet(s) && !s.procs[p].state.Sleeping?
    ensures var s' := To(Scanned(s, p, why, 0, |s.procs|), p, Idle);
            Leads(s, p, 1, if why == Release then s'.(inner := Free) else s')
  {
    hide Leads, Scanned;
    var n := |s.procs|;
    var s1 := Scanned(s, p, why, 0, n);
    ScanTo(s, p, why, 0, n);
    ScannedAt(s, p, why, n);
    var s2 := To(s1, p, Idle);
    ScanEnds(s1, p, why, n);
    One(s, s1, if why == Release then s2.(inner := Free) else s2, p, 1);
  }

  lemma ScannedAt(s: State, p: nat, why: Why, j: nat)
    requires On(s, p, Scan(why, 0)) && j <= |s.procs|
    ensures On(Scanned(s, p, why, 0, j), p, Scan(why, j)) && Scanned(s, p, why, 0, j).locks == s.locks
  {
  }

  lemma ScanEnds(s: State, p: nat, why: Why, j: nat)
    requires On(s, p, Scan(why, j)) && j >= |s.procs|
    ensures var s' := To(s, p, Idle); Step(s, Code(p, 1)) == if why == Release then s'.(inner := Free) else s'
  {
  }

  /** kill, undisturbed, with process j its victim: if j sleeps it is awake, and nothing else
      changes. */
  lemma KillCall(s: State, p: nat, j: nat)
    requires On(s, p, Scan(Kill, 0)) && Quiet(s) && !s.procs[p].state.Sleeping? && j < |s.procs| && j != p
    ensures var t, e := s.procs[j], Code(p, 0);
            var s1 := To(s, p, Scan(Kill, j));
            && Leads(s, p, 1, s1)
            && Step(Step(Step(s1, e), e), e) ==
               To(Proc1(s, j, if t.state.Sleeping? then t.(state := Runnable) else t), p, Idle)
  {
    ScanTo(s, p, Kill, 0, j);
    var t, e, s1 := s.procs[j], Code(p, 0), To(s, p, Scan(Kill, j));
    assert Scanned(s, p, Kill, 0, j).procs == s1.procs;
    hide Leads;
    KillOne(s1, p, j);
    var t' := if t.state.Sleeping? then t.(state := Runnable) else t;
    assert To(Proc1(s1, j, t'), p, Idle).procs == To(Proc1(s, j, t'), p, Idle).procs;
  }

  lemma KillOne(s: State, p: nat, j: nat)
    requires On(s, p, Scan(Kill, j)) && j < |s.procs| && j != p && s.locks[j] == Free
    ensures var t, e := s.procs[j], Code(p, 0);
            Step(Step(Step(s, e), e), e) ==
            To(Proc1(s, j, if t.state.Sleeping? then t.(state := Runnable) else t), p, Idle)
  {
    var t, e := s.procs[j], Code(p, 0);
    var t' := if t.state.Sleeping? then t.(state := Runnable) else t;
    var s1 := To(Lock(s, j, By(p)), p, ScanGot(Kill, j));
    var s2 := Lock(To(Proc1(s, j, t'), p, ScanDone(Kill, j)), j, By(p));
    var s3 := To(Proc1(s, j, t'), p, Idle);
    hide Step;
    ScanTakes(s, p, Kill, j, 0);
    KillTests(s1, p, j);
    assert To(Proc1(s1, j, t'), p, ScanDone(Kill, j)).procs == s2.procs;
    KillDrops(s2, p, j);
    assert To(s2, p, Idle).procs == s3.procs && s2.locks[j := Free] == s.locks;
  }

  lemma KillTests(s: State, p: nat, j: nat)
    requires On(s, p, ScanGot(Kill, j)) && j < |s.procs| && j != p
    ensures var t := s.procs[j];
            Step(s, Code(p, 0)) ==
            To(Proc1(s, j, if t.state.Sleeping? then t.(state := Runnable) else t), p, ScanDone(Kill, j))
  {
    assert s.procs[j := s.procs[j]] == s.procs;
  }

  lemma KillDrops(s: State, p: nat, j: nat)
    requires On(s, p, ScanDone(Kill, j)) && j < |s.procs|
    ensures Step(s, Code(p, 0)) == To(Lock(s, j, Free), p, Idle)
  {
  }

  // ------------------------------------------------------------- going to sleep and back

  /** A sleeper leaves its CPU, and its lock is free; ... */
  lemma SleepLeaves(s: State, p: nat, c: Chan)
    requires On(s, p, SwitchOut(c))
    ensures Step(Step(s, Code(p, 0)), Scheduler(p)) == To(Lock(s, p, Free), p, Asleep(c))
  {
    assert s.locks[p := Leaving][p := Free] == s.locks[p := Free];
  }

  /** ... once runnable, a scheduler that finds it lets it run, and it goes on: to take the
      sleep lock, if that was what it slept on. */
  lemma SleepReturns(s: State, p: nat, c: Chan)
    requires On(s, p, Asleep(c)) && s.procs[p].state == Runnable && s.locks[p] == Free
    ensures var e, f := Scheduler(p), Code(p, 0);
            var pc := if c == TheLock then WantInner else Idle;
            Step(Step(Step(Step(s, e), e), f), f) ==
            Proc1(s, p, s.procs[p].(pc := pc, state := Running, chan := NoChan))
  {
    var e, f, q := Scheduler(p), Code(p, 0), s.procs[p].(state := Running);
    var pc := if c == TheLock then WantInner else Idle;
    var s1 := Lock(s, p, Looking);
    var s2 := Lock(Proc1(s, p, q.(pc := Woken(c))), p, By(p));
    var s3 := Lock(Proc1(s, p, q.(pc := SleepEnd(c), chan := NoChan)), p, By(p));
    assert Step(s, e) == s1;
    assert Step(s1, e) == s2 by { assert Step(s1, e).locks == s2.locks; }
    assert Step(s2, f) == s3;
    assert Step(s3, f).locks == s.locks;
  }

  /** yield: the process is runnable and off its CPU, its lock free; ... */
  lemma YieldLeaves(s: State, p: nat)
    requires Sized(s) && p < |s.procs| && s.procs[p].timer.NoYield? && Interruptible(s.procs[p].pc)
    requires s.locks[p] == Free
    ensures var t := Timer(p);
            Step(Step(Step(Step(s, t), t), t), Scheduler(p)) ==
            Proc1(s, p, s.procs[p].(timer := YieldOut, state := Runnable))
  {
    var t, q := Timer(p), s.procs[p];
    var s1 := Lock(Proc1(s, p, q.(timer := YieldOwn)), p, By(p));
    var s2 := Lock(Proc1(s, p, q.(timer := YieldSet, state := Runnable)), p, By(p));
    var s3 := Lock(Proc1(s, p, q.(timer := YieldOut, state := Runnable)), p, Leaving);
    assert Step(s, t) == s1;
    assert Step(s1, t) == s2;
    assert Step(s2, t) == s3 by { assert Step(s2, t).locks == s3.locks; }
    assert Step(s3, Scheduler(p)).locks == s.locks;
  }

  /** ... and it goes on where it was. */
  lemma YieldReturns(s: State, p: nat)
    requires Sized(s) && p < |s.procs| && s.procs[p].timer.YieldOut? && s.procs[p].state == Runnable
    requires s.locks[p] == Free
    ensures var e := Scheduler(p);
            Step(Step(Step(s, e), e), Timer(p)) == Proc1(s, p, s.procs[p].(timer := NoYield, state := Running))
  {
    var e, q := Scheduler(p), s.procs[p].(state := Running);
    var s1 := Lock(s, p, Looking);
    var s2 := Lock(Proc1(s, p, q.(timer := YieldBack)), p, By(p));
    assert Step(s, e) == s1;
    assert Step(s1, e) == s2 by { assert Step(s1, e).locks == s2.locks; }
    assert Step(s2, Timer(p)).locks == s.locks;
  }

  /** A scheduler leaves a process that is not runnable as it is. */
  lemma SchedulePasses(s: State, p: nat)
    requires Sized(s) && p < |s.procs| && s.procs[p].state != Runnable && s.locks[p] == Free
    ensures Step(Step(s, Scheduler(p)), Scheduler(p)) == s
  {
    assert s.locks[p := Looking][p := Free] == s.locks;
  }

  /** What a process may begin, with the lock or without it. */
  lemma Begins(s: State, p: nat, choice: nat)
    requires On(s, p, Idle) && s.locks[p] == Free
    ensures Step(s, Code(p, choice)) ==
            if choice == 0 then To(s, p, WantInner)
            else if choice == 1 then To(s, p, Scan(Wakeup, 0))
            else if choice == 2 then To(s, p, Scan(Kill, 0))
            else if choice == 3 && s.procs[p].has then To(s, p, RelWant)
            else To(Lock(s, p, By(p)), p, SetChan(Elsewhere))
  {
  }
}
