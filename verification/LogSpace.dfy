/**
 Log space: begin_op reserves MAXOPBLOCKS per operation, but log_write stops at
 log.size - 1 and checks before absorption. With log.size == LOGSIZE, as mkfs
 writes it, the reservation is enough exactly when no operation dirties more than
 MAXOPBLOCKS - 1 distinct blocks.
 */
module LogSpace {
  import opened Blocks
  import opened LogSpec
  import opened Transactions

  /** Blocks the outstanding operations may still add to the log. */
  ghost function Slack(active: map<OpId, set<nat>>, cap: nat): (n: int)
    decreases |active|
  {
    if active == map[] then 0 else
    var op :| op in active;
    cap - |active[op]| + Slack(active - {op}, cap)
  }

  lemma {:induction false} SlackSplit(active: map<OpId, set<nat>>, cap: nat, op: OpId)
    requires op in active
    ensures Slack(active, cap) == cap - |active[op]| + Slack(active - {op}, cap)
    decreases |active|
  {
    var op' :| op' in active && Slack(active, cap) == cap - |active[op']| + Slack(active - {op'}, cap);
    if op' != op {
      SlackSplit(active - {op'}, cap, op);
      SlackSplit(active - {op}, cap, op');
      assert active - {op} - {op'} == active - {op'} - {op};
    }
  }

  lemma SlackUpdate(active: map<OpId, set<nat>>, cap: nat, op: OpId, blocks: set<nat>)
    ensures Slack(active[op := blocks], cap) == cap - |blocks| + Slack(active - {op}, cap)
  {
    SlackSplit(active[op := blocks], cap, op);
    assert active[op := blocks] - {op} == active - {op};
  }

  lemma {:induction false} SlackBound(active: map<OpId, set<nat>>, cap: nat)
    ensures Slack(active, cap) <= cap * |active|
    decreases |active|
  {
    if active != map[] {
      var op :| op in active;
      SlackSplit(active, cap, op);
      SlackBound(active - {op}, cap);
      assert |active - {op}| == |active| - 1;
      assert cap * |active| == cap * (|active| - 1) + cap;
    }
  }

  /** What is logged plus what may still be: two below LOGSIZE. */
  ghost predicate Reserved(c: Config, s: State) {
    && (forall op :: op in s.active ==> |s.active[op]| <= c.cap)
    && (forall op, b :: op in s.active && b in s.active[op] ==> b in s.lh)
    && (s.phase.Idle? ==> |s.lh| + Slack(s.active, c.cap) <= LOGSIZE - 2)
  }

  lemma {:induction false} SlackNonNegative(active: map<OpId, set<nat>>, cap: nat)
    requires forall op :: op in active ==> |active[op]| <= cap
    ensures Slack(active, cap) >= 0
    decreases |active|
  {
    if active != map[] {
      var op :| op in active;
      SlackSplit(active, cap, op);
      SlackNonNegative(active - {op}, cap);
    }
  }

  lemma BeginReserves(c: Config, s: State, op: OpId, s': State)
    requires c.cap < MAXOPBLOCKS && Reserved(c, s) && DoBegin(s, op, s')
    requires op !in s.active && (s.active == map[] ==> s.lh == [])
    ensures Reserved(c, s')
  {
    hide Slack;
    SlackUpdate(s.active, c.cap, op, {});
    assert s.active - {op} == s.active;
    SlackBound(s.active, c.cap);
    BudgetFits(|s.lh|, |s.active|, c.cap, Slack(s.active, c.cap));
  }

  lemma BudgetFits(logged: nat, ops: nat, cap: nat, slack: int)
    requires cap < MAXOPBLOCKS && slack <= cap * ops
    requires logged + (ops + 1) * MAXOPBLOCKS <= LOGSIZE && (ops == 0 ==> logged == 0)
    ensures logged + slack + cap <= LOGSIZE - 2
  {
    assert ops == 0 || ops == 1 || ops == 2;
  }

  lemma LogWriteReserves(c: Config, s: State, w: Write, s': State)
    requires Reserved(c, s) && DoLogWrite(c, s, w, s')
    ensures Reserved(c, s')
  {
    var before := s.active[w.op];
    SlackSplit(s.active, c.cap, w.op);
    SlackUpdate(s.active, c.cap, w.op, before + {w.block});
    if w.block in before {
      assert before + {w.block} == before;
    }
  }

  lemma EndReserves(c: Config, s: State, op: OpId, t: seq<Disk>, s': State)
    requires Reserved(c, s) && DoEnd(c, s, op, t, s')
    ensures Reserved(c, s')
  {
    SlackSplit(s.active, c.cap, op);
  }

  lemma StepReserves(c: Config, s: State, step: Step, s': State)
    requires c.cap < MAXOPBLOCKS && Inv(c, s) && Reserved(c, s) && Next(c, s, step, s')
    ensures Reserved(c, s')
  {
    match step
    case Begin(op) => BeginReserves(c, s, op, s');
    case LogWrite(w) => LogWriteReserves(c, s, w, s');
    case End(op, t) => EndReserves(c, s, op, t, s');
    case _ => QuietReserves(c, s');
  }

  lemma QuietReserves(c: Config, s: State)
    requires s.active == map[] && (s.phase.Idle? ==> s.lh == [])
    ensures Reserved(c, s)
  {
  }

  lemma InitReserves(c: Config, s: State)
    requires Init(c, s)
    ensures Reserved(c, s)
  {
  }

  lemma {:induction false} RunReserves(c: Config, states: seq<State>, steps: seq<Step>)
    requires c.cap < MAXOPBLOCKS && Run(c, states, steps)
    ensures Reserved(c, states[|states| - 1])
  {
    hide Next, Inv, Reserved;
    var n := |steps|;
    if n == 0 {
      InitReserves(c, states[0]);
    } else {
      var s, s' := states[n - 1], states[n];
      RunReserves(c, states[..n], steps[..n - 1]);
      RunInv(c, states[..n], steps[..n - 1]);
      assert Next(c, s, steps[n - 1], s');
      StepReserves(c, s, steps[n - 1], s');
    }
  }

  /** An operation of some run is about to call log_write and will panic. */
  ghost predicate PanicReachable(c: Config, d: Disk) {
    exists states, steps, op :: Panics(c, d, states, steps, op)
  }

  ghost predicate Panics(c: Config, d: Disk, states: seq<State>, steps: seq<Step>, op: OpId) {
    && Run(c, states, steps) && states[0].disk == d
    && var s := states[|states| - 1]; s.phase.Idle? && op in s.active && LogWritePanics(c, s)
  }

  lemma NoPanic(c: Config, states: seq<State>, steps: seq<Step>, op: OpId)
    requires c.l.size == LOGSIZE && c.cap < MAXOPBLOCKS && Run(c, states, steps)
    requires states[|states| - 1].phase.Idle? && op in states[|states| - 1].active
    ensures !LogWritePanics(c, states[|states| - 1])
  {
    RunReserves(c, states, steps);
    var s := states[|states| - 1];
    SlackNonNegative(s.active, c.cap);
  }

  // ------------------------------------------ ten blocks per operation panic

  /** Three operations have begun and n blocks, first to first + n - 1, are logged,
      the first ten by operation 0, the next ten by 1, the rest by 2. */
  ghost predicate Filled(s: State, first: nat, n: nat) {
    && s.phase.Idle? && s.active.Keys == {0, 1, 2} && |s.lh| == n
    && (forall i :: 0 <= i < n ==> s.lh[i] < first + n)
    && (forall op, b :: op in s.active && b in s.active[op] ==> b < first + n)
    && |s.active[0]| == Share(n, 0) && |s.active[1]| == Share(n, 1) && |s.active[2]| == Share(n, 2)
  }

  function Share(n: nat, op: nat): (k: nat) {
    if n < op * MAXOPBLOCKS then 0 else if n - op * MAXOPBLOCKS < MAXOPBLOCKS then n - op * MAXOPBLOCKS else MAXOPBLOCKS
  }

  ghost function Begun(s: State, op: OpId): (s': State) {
    s.(active := s.active[op := {}], begun := s.begun + {op})
  }

  lemma BeginThree(c: Config, d: Disk, first: nat) returns (states: seq<State>, steps: seq<Step>)
    requires c.l.Fits(d) && Header(d[c.l.start]) == []
    ensures Run(c, states, steps) && states[0].disk == d && Filled(states[|states| - 1], first, 0)
    ensures |states[|states| - 1].cur| == |d|
  {
    var s0 := State(d, d, [], map[], Idle, d, [], [], {});
    states, steps := [s0], [];
    var s1, s2, s3 := Begun(s0, 0), Begun(Begun(s0, 0), 1), Begun(Begun(Begun(s0, 0), 1), 2);
    assert DoBegin(s0, 0, s1);
    Extend(c, states, steps, Begin(0), s1);
    states, steps := states + [s1], steps + [Begin(0)];
    assert DoBegin(s1, 1, s2);
    Extend(c, states, steps, Begin(1), s2);
    states, steps := states + [s2], steps + [Begin(1)];
    assert |s2.active| == 2;
    assert DoBegin(s2, 2, s3);
    Extend(c, states, steps, Begin(2), s3);
    states, steps := states + [s3], steps + [Begin(2)];
  }

  ghost function Logged(s: State, op: OpId, b: nat): (s': State)
    requires op in s.active && b < |s.cur|
  {
    s.(lh := if b in s.lh then s.lh else s.lh + [b], active := s.active[op := s.active[op] + {b}],
       pending := s.pending + [Write(op, b, s.cur[b])])
  }

  lemma FillOne(c: Config, s: State, first: nat, n: nat) returns (w: Write, s': State)
    requires c.l.size == LOGSIZE && c.cap >= MAXOPBLOCKS && first >= c.l.start + c.l.size
    requires n < LOGSIZE - 1 && first + n < |s.cur| && first + n < 0x1_0000_0000
    requires Filled(s, first, n)
    ensures DoLogWrite(c, s, w, s') && Filled(s', first, n + 1) && |s'.cur| == |s.cur|
  {
    var op := n / MAXOPBLOCKS;
    assert op == 0 || op == 1 || op == 2;
    var b := first + n;
    w := Write(op, b, s.cur[b]);
    s' := Logged(s, op, b);
    assert s'.cur == s.cur[b := w.val];
    assert b !in s.active[op];
    assert |s.active[op] + {b}| == Share(n, op) + 1;
    FilledNext(s, first, n, op, s');
  }

  lemma FilledNext(s: State, first: nat, n: nat, op: OpId, s': State)
    requires Filled(s, first, n) && op in {0, 1, 2} && op == n / MAXOPBLOCKS
    requires first + n < |s.cur| && s' == Logged(s, op, first + n)
    ensures Filled(s', first, n + 1)
  {
    hide Share;
    ShareNext(n, op, 0);
    ShareNext(n, op, 1);
    ShareNext(n, op, 2);
    assert s'.active.Keys == s.active.Keys;
    assert |s.active[op] + {first + n}| == Share(n, op) + 1;
  }

  lemma ShareNext(n: nat, op: nat, x: nat)
    requires op <= 2 && op == n / MAXOPBLOCKS
    ensures Share(n + 1, x) == if x == op then Share(n, x) + 1 else Share(n, x)
  {
  }

  lemma {:induction false} FillTo(c: Config, d: Disk, first: nat, n: nat) returns (states: seq<State>, steps: seq<Step>)
    requires c.l.Fits(d) && Header(d[c.l.start]) == []
    requires c.l.size == LOGSIZE && c.cap >= MAXOPBLOCKS && first >= c.l.start + c.l.size
    requires n < LOGSIZE && first + n <= |d| && first + n <= 0x1_0000_0000
    ensures Run(c, states, steps) && states[0].disk == d && Filled(states[|states| - 1], first, n)
    ensures |states[|states| - 1].cur| == |d|
  {
    if n == 0 {
      states, steps := BeginThree(c, d, first);
    } else {
      states, steps := FillTo(c, d, first, n - 1);
      var w, s' := FillOne(c, states[|states| - 1], first, n - 1);
      Extend(c, states, steps, LogWrite(w), s');
      states, steps := states + [s'], steps + [LogWrite(w)];
    }
  }

  /** With a log of LOGSIZE blocks, the "too big a transaction" panic can be reached
      if and only if operations may dirty MAXOPBLOCKS distinct blocks. The disk is
      any freshly recovered one with room for LOGSIZE - 1 blocks after the log. */
  lemma PanicIffCap(c: Config, d: Disk)
    requires c.l.size == LOGSIZE && c.l.Fits(d) && Header(d[c.l.start]) == []
    requires c.l.start + 2 * LOGSIZE <= |d| && c.l.start + 2 * LOGSIZE <= 0x1_0000_0000
    ensures PanicReachable(c, d) <==> c.cap >= MAXOPBLOCKS
  {
    if c.cap >= MAXOPBLOCKS {
      var states, steps := FillTo(c, d, c.l.start + c.l.size, LOGSIZE - 1);
      assert Panics(c, d, states, steps, 0);
    } else if PanicReachable(c, d) {
      var states, steps, op :| Panics(c, d, states, steps, op);
      NoPanic(c, states, steps, op);
    }
  }
}
