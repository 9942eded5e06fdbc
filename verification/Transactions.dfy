/**
 Group commit: every interleaving of begin_op, log_write and end_op, with a crash
 allowed between any two disk writes, leaves whole operations only.
 */
module Transactions {
  import opened Blocks
  import opened LogSpec

  type OpId = nat

  datatype Write = Write(op: OpId, block: nat, val: Block)

  /** Idle, or `done` of the disk writes `t` of a commit begun on disk `d` are made. */
  datatype Phase = Idle | Committing(d: Disk, t: seq<Disk>, done: nat)

  /**
   `active` maps each outstanding operation to the distinct blocks it has logged
   (log.outstanding is its size); `cur` is what the buffer cache shows. History:
   `base` is the disk at boot, `durable` the writes of finished transactions and
   `pending` those of the current one, `begun` every operation ever started.
   */
  datatype State = State(disk: Disk, cur: Disk, lh: seq<nat>, active: map<OpId, set<nat>>, phase: Phase,
                         base: Disk, durable: seq<Write>, pending: seq<Write>, begun: set<OpId>)

  /** Log layout and the most distinct blocks one operation dirties. */
  datatype Config = Config(l: Layout, cap: nat)

  datatype Step =
    | Begin(op: OpId)
    | LogWrite(w: Write)
    | End(op: OpId, t: seq<Disk>)
    | DiskWrite
    | CommitDone
    | Crash(crashes: seq<Disk>, t: seq<Disk>)

  ghost predicate Booted(c: Config, s: State) {
    && c.l.Fits(s.disk)
    && Header(s.disk[c.l.start]) == []
    && s.cur == s.disk && s.lh == [] && s.active == map[] && s.phase == Idle && s.pending == []
  }

  ghost predicate Init(c: Config, s: State) {
    Booted(c, s) && s.base == s.disk && s.durable == [] && s.begun == {}
  }

  /** begin_op: wait while committing or while the log might run out. */
  ghost predicate MayBegin(s: State) {
    s.phase == Idle && |s.lh| + (|s.active| + 1) * MAXOPBLOCKS <= LOGSIZE
  }

  /** The guards at the head of log_write. */
  ghost predicate LogWritePanics(c: Config, s: State) {
    |s.lh| >= LOGSIZE || |s.lh| >= c.l.size - 1 || |s.active| < 1
  }

  ghost predicate DoBegin(s: State, op: OpId, s': State) {
    && MayBegin(s) && op !in s.begun
    && s' == s.(active := s.active[op := {}], begun := s.begun + {op})
  }

  /** log_write with absorption, by an operation within its block budget. */
  ghost predicate DoLogWrite(c: Config, s: State, w: Write, s': State) {
    && s.phase == Idle && w.op in s.active && !LogWritePanics(c, s)
    && w.block < |s.cur| && c.l.Home(w.block) && w.block < 0x1_0000_0000
    && |s.active[w.op] + {w.block}| <= c.cap
    && s' == s.(cur := s.cur[w.block := w.val],
                lh := if w.block in s.lh then s.lh else s.lh + [w.block],
                active := s.active[w.op := s.active[w.op] + {w.block}],
                pending := s.pending + [w])
  }

  /** end_op: the last operation out starts the commit, if anything was logged. */
  ghost predicate DoEnd(c: Config, s: State, op: OpId, t: seq<Disk>, s': State) {
    && s.phase == Idle && op in s.active
    && var rest := s.active - {op};
       if rest == map[] && s.lh != [] then
         && Loggable(s.disk, c.l, s.lh) && |s.cur| == |s.disk|
         && CommitTrace(s.disk, c.l, s.lh, Values(s.cur, s.lh), t)
         && s' == s.(active := rest, phase := Committing(s.disk, t, 0))
       else
         s' == s.(active := rest)
  }

  ghost predicate DoDiskWrite(s: State, s': State) {
    && s.phase.Committing? && s.phase.done < |s.phase.t|
    && s' == s.(disk := s.phase.t[s.phase.done], phase := s.phase.(done := s.phase.done + 1))
  }

  ghost predicate DoCommitDone(s: State, s': State) {
    && s.phase.Committing? && s.phase.done == |s.phase.t|
    && s' == s.(lh := [], phase := Idle, durable := s.durable + s.pending, pending := [])
  }

  /** The pending transaction has reached its commit point on disk. */
  ghost predicate PastCommitPoint(s: State) {
    s.phase.Committing? && s.phase.done > |s.lh|
  }

  /** Lose all memory; recover, perhaps crashing again on the way; reboot. */
  ghost predicate DoCrash(c: Config, s: State, crashes: seq<Disk>, t: seq<Disk>, s': State) {
    && CrashChain(crashes, c.l) && crashes[0] == s.disk
    && WfLog(crashes[|crashes| - 1], c.l) && RecoverTrace(crashes[|crashes| - 1], c.l, t)
    && Booted(c, s') && s'.disk == t[|t| - 1]
    && s'.base == s.base && s'.begun == s.begun
    && s'.durable == if PastCommitPoint(s) then s.durable + s.pending else s.durable
  }

  ghost predicate Next(c: Config, s: State, step: Step, s': State) {
    match step
    case Begin(op) => DoBegin(s, op, s')
    case LogWrite(w) => DoLogWrite(c, s, w, s')
    case End(op, t) => DoEnd(c, s, op, t, s')
    case DiskWrite => DoDiskWrite(s, s')
    case CommitDone => DoCommitDone(s, s')
    case Crash(crashes, t) => DoCrash(c, s, crashes, t, s')
  }

  /** A run: its states, and the steps between them. */
  ghost predicate Run(c: Config, states: seq<State>, steps: seq<Step>) {
    && |states| == |steps| + 1
    && Init(c, states[0])
    && forall i, j {:trigger states[i], states[j]} :: 0 <= i && j == i + 1 < |states| ==>
         Next(c, states[i], steps[i], states[j])
  }

  lemma Extend(c: Config, states: seq<State>, steps: seq<Step>, step: Step, s': State)
    requires Run(c, states, steps) && Next(c, states[|states| - 1], step, s')
    ensures Run(c, states + [s'], steps + [step])
  {
    hide Next, Init;
  }

  // -------------------------------------------------------------- invariants

  /** The effect of a list of writes on a plain block map. */
  ghost function Play(d: Disk, ws: seq<Write>): (r: Disk)
    ensures |r| == |d|
  {
    if ws == [] then d else
    var r := Play(d, ws[..|ws| - 1]);
    var w := ws[|ws| - 1];
    if w.block < |r| then r[w.block := w.val] else r
  }

  ghost predicate LogInv(c: Config, s: State) {
    && c.l.Fits(s.disk) && |s.disk| == |s.cur| == |s.base|
    && (forall i :: 0 <= i < |s.lh| ==> s.lh[i] < |s.cur| && c.l.Home(s.lh[i]))
    && Encodable(s.lh)
    && (forall i, j :: 0 <= i < j < |s.lh| ==> s.lh[i] != s.lh[j])
    && |s.lh| < c.l.size
  }

  /** The cache holds all writes and differs from the durable ones only on logged
      blocks; while no commit runs, the disk holds the durable ones. */
  ghost predicate DataInv(c: Config, s: State)
    requires LogInv(c, s)
  {
    && SameHome(s.cur, Play(s.base, s.durable + s.pending), c.l)
    && Unlogged(c.l, s.cur, s.lh, Play(s.base, s.durable))
    && (s.phase.Idle? ==> Cleared(Play(s.base, s.durable), c.l, s.disk))
  }

  ghost predicate PhaseInv(c: Config, s: State)
    requires LogInv(c, s)
  {
    match s.phase
    case Idle => s.active == map[] ==> s.lh == []
    case Committing(d, t, done) =>
      && s.active == map[] && done <= |t| && |d| == |s.cur|
      && Loggable(d, c.l, s.lh)
      && Cleared(Play(s.base, s.durable), c.l, d)
      && CommitTrace(d, c.l, s.lh, Values(s.cur, s.lh), t)
      && s.disk == ([d] + t)[done]
  }

  /** No operation has writes both in a finished transaction and still to come. */
  ghost predicate OpsInv(s: State) {
    && (forall op :: op in s.active ==> op in s.begun)
    && (forall i :: 0 <= i < |s.durable| ==> s.durable[i].op in s.begun && s.durable[i].op !in s.active)
    && (forall i :: 0 <= i < |s.pending| ==> s.pending[i].op in s.begun && s.pending[i].block in s.lh)
    && (forall i, j :: 0 <= i < |s.durable| && 0 <= j < |s.pending| ==> s.durable[i].op != s.pending[j].op)
  }

  ghost predicate Inv(c: Config, s: State) {
    LogInv(c, s) && DataInv(c, s) && PhaseInv(c, s) && OpsInv(s)
  }

  lemma PlayOne(d: Disk, ws: seq<Write>, w: Write)
    requires w.block < |d|
    ensures Play(d, ws + [w]) == Play(d, ws)[w.block := w.val]
  {
    assert (ws + [w])[..|ws|] == ws;
  }

  lemma BootedInv(c: Config, s: State)
    requires Booted(c, s) && |s.base| == |s.disk| && SameHome(s.disk, Play(s.base, s.durable), c.l)
    requires forall i :: 0 <= i < |s.durable| ==> s.durable[i].op in s.begun
    ensures Inv(c, s)
  {
    assert s.durable + s.pending == s.durable;
  }

  lemma BeginInv(c: Config, s: State, op: OpId, s': State)
    requires Inv(c, s) && DoBegin(s, op, s')
    ensures Inv(c, s')
  {
  }

  lemma LogWriteInv(c: Config, s: State, w: Write, s': State)
    requires Inv(c, s) && DoLogWrite(c, s, w, s')
    ensures Inv(c, s')
  {
    LogWriteKeepsLog(c, s, w, s');
    LogWriteKeepsData(c, s, w, s');
  }

  lemma LogWriteKeepsLog(c: Config, s: State, w: Write, s': State)
    requires LogInv(c, s) && OpsInv(s) && DoLogWrite(c, s, w, s')
    ensures LogInv(c, s') && OpsInv(s') && s'.active != map[]
  {
    assert w.op in s'.active;
  }

  /** Logging a block only adds to the logged ones. */
  lemma PosKept(lh: seq<nat>, w: nat, b: nat)
    ensures var lh' := if w in lh then lh else lh + [w];
            Pos(lh', |lh'|, b) < 0 ==> b != w && Pos(lh, |lh|, b) < 0
  {
    var lh' := if w in lh then lh else lh + [w];
    PosAbsent(lh, |lh|, b);
    PosAbsent(lh', |lh'|, b);
    assert lh[..|lh|] == lh && lh'[..|lh'|] == lh';
  }

  lemma LogWriteUnlogged(c: Config, cur: Disk, lh: seq<nat>, d: Disk, w: Write)
    requires Unlogged(c.l, cur, lh, d) && w.block < |cur|
    ensures Unlogged(c.l, cur[w.block := w.val], if w.block in lh then lh else lh + [w.block], d)
  {
    hide Pos;
    forall b: nat {
      PosKept(lh, w.block, b);
    }
  }

  lemma LogWriteKeepsData(c: Config, s: State, w: Write, s': State)
    requires LogInv(c, s) && LogInv(c, s') && DataInv(c, s) && DoLogWrite(c, s, w, s')
    ensures DataInv(c, s')
  {
    hide Unlogged, Play, Header;
    PlayOne(s.base, s.durable + s.pending, w);
    assert s'.durable + s'.pending == s.durable + s.pending + [w];
    LogWriteUnlogged(c, s.cur, s.lh, Play(s.base, s.durable), w);
  }

  lemma EndInv(c: Config, s: State, op: OpId, t: seq<Disk>, s': State)
    requires Inv(c, s) && DoEnd(c, s, op, t, s')
    ensures Inv(c, s')
  {
  }

  lemma UnloggedFromDisk(c: Config, cur: Disk, lh: seq<nat>, stable: Disk, d: Disk)
    requires Unlogged(c.l, cur, lh, stable) && SameHome(stable, d, c.l)
    ensures Unlogged(c.l, cur, lh, d)
  {
  }

  /** What a crash after i disk writes of a commit would recover. */
  lemma CommitCrashCurrent(c: Config, d: Disk, lh: seq<nat>, cur: Disk, t: seq<Disk>, i: nat, e: Disk)
    requires Loggable(d, c.l, lh) && Header(d[c.l.start]) == [] && Unlogged(c.l, cur, lh, d)
    requires CommitTrace(d, c.l, lh, Values(cur, lh), t) && i <= |t|
    requires e == if i == 0 then d else t[i - 1]
    ensures WfLog(e, c.l) && SameHome(Recovered(e, c.l), if i <= |lh| then d else cur, c.l)
  {
    CommitCrash(d, c.l, lh, Values(cur, lh), t, i, e);
    if i > |lh| {
      AppliedIsCurrent(c.l, d, lh, cur);
      SameHomeTrans(Recovered(e, c.l), Applied(d, lh, Values(cur, lh)), cur, c.l);
    }
  }

  lemma CommitOutcome(c: Config, s: State, i: nat)
    requires Inv(c, s) && s.phase.Committing? && i <= |s.phase.t|
    ensures var e := ([s.phase.d] + s.phase.t)[i];
            && WfLog(e, c.l) && |e| == |s.cur|
            && SameHome(Recovered(e, c.l), if i <= |s.lh| then Play(s.base, s.durable) else s.cur, c.l)
  {
    var d, stable := s.phase.d, Play(s.base, s.durable);
    var e := ([d] + s.phase.t)[i];
    UnloggedFromDisk(c, s.cur, s.lh, stable, d);
    CommitCrashCurrent(c, d, s.lh, s.cur, s.phase.t, i, e);
    if i <= |s.lh| {
      SameHomeTrans(Recovered(e, c.l), d, stable, c.l);
    }
  }

  lemma DiskWriteInv(c: Config, s: State, s': State)
    requires Inv(c, s) && DoDiskWrite(s, s')
    ensures Inv(c, s')
  {
    hide Play, Header, Unlogged, CommitTrace, Loggable, Cleared;
    CommitOutcome(c, s, s.phase.done + 1);
    assert s'.disk == ([s.phase.d] + s.phase.t)[s.phase.done + 1];
  }

  lemma CommitDoneInv(c: Config, s: State, s': State)
    requires Inv(c, s) && DoCommitDone(s, s')
    ensures Inv(c, s')
  {
    hide OpsInv, DataInv, Header, Play, CommitTrace;
    CommitDoneOps(s, s');
    CommitDisk(c, s);
    CurrentIsAll(c, s);
    assert s'.durable + s'.pending == s.durable + s.pending;
    Settled(c, s');
  }

  /** When the last disk write of a commit is made, the disk holds what the cache shows. */
  lemma CommitDisk(c: Config, s: State)
    requires Inv(c, s) && s.phase.Committing? && s.phase.done == |s.phase.t|
    ensures Cleared(s.cur, c.l, s.disk)
  {
    hide OpsInv, Header, Play;
    assert s.disk == s.phase.t[|s.phase.t| - 1];
    hide CommitTrace;
    UnloggedFromDisk(c, s.cur, s.lh, Play(s.base, s.durable), s.phase.d);
    CommitOver(c.l, s.phase.d, s.lh, s.cur, s.phase.t);
  }

  lemma Settled(c: Config, s: State)
    requires LogInv(c, s) && s.lh == [] && s.phase.Idle? && s.pending == []
    requires SameHome(s.cur, Play(s.base, s.durable + s.pending), c.l) && Cleared(s.cur, c.l, s.disk)
    ensures DataInv(c, s) && PhaseInv(c, s)
  {
    hide Header, Play;
    assert s.durable + s.pending == s.durable;
    ClearedTrans(s.cur, Play(s.base, s.durable), c.l, s.disk);
  }

  lemma CurrentIsAll(c: Config, s: State)
    requires Inv(c, s)
    ensures SameHome(s.cur, Play(s.base, s.durable + s.pending), c.l)
  {
  }

  lemma CommitDoneOps(s: State, s': State)
    requires OpsInv(s) && s.active == map[] && DoCommitDone(s, s')
    ensures OpsInv(s')
  {
  }

  lemma ClearedTrans(x: Disk, y: Disk, l: Layout, e: Disk)
    requires l.Fits(x) && SameHome(x, y, l) && Cleared(x, l, e)
    ensures Cleared(y, l, e)
  {
    hide Header;
  }

  /** What any crash recovers: the durable writes, and the pending ones too exactly
      when their transaction has passed its commit point. */
  lemma CrashOutcome(c: Config, s: State, crashes: seq<Disk>, t: seq<Disk>, s': State)
    requires Inv(c, s) && DoCrash(c, s, crashes, t, s')
    ensures SameHome(s'.disk, Play(s.base, s'.durable), c.l)
  {
    CrashChainKeepsOutcome(crashes, c.l, crashes[|crashes| - 1]);
    if s.phase.Committing? {
      CommitOutcome(c, s, s.phase.done);
    } else {
      EmptyLogRecovers(s.disk, c.l);
    }
  }

  lemma CrashInv(c: Config, s: State, crashes: seq<Disk>, t: seq<Disk>, s': State)
    requires Inv(c, s) && DoCrash(c, s, crashes, t, s')
    ensures Inv(c, s')
  {
    CrashOutcome(c, s, crashes, t, s');
    BootedInv(c, s');
  }

  lemma StepInv(c: Config, s: State, step: Step, s': State)
    requires Inv(c, s) && Next(c, s, step, s')
    ensures Inv(c, s')
  {
    match step
    case Begin(op) => BeginInv(c, s, op, s');
    case LogWrite(w) => LogWriteInv(c, s, w, s');
    case End(op, t) => EndInv(c, s, op, t, s');
    case DiskWrite => DiskWriteInv(c, s, s');
    case CommitDone => CommitDoneInv(c, s, s');
    case Crash(crashes, t) => CrashInv(c, s, crashes, t, s');
  }

  lemma {:induction false} RunInv(c: Config, states: seq<State>, steps: seq<Step>)
    requires Run(c, states, steps)
    ensures Inv(c, states[|states| - 1])
  {
    var n := |steps|;
    if n == 0 {
      BootedInv(c, states[0]);
    } else {
      RunInv(c, states[..n], steps[..n - 1]);
      assert Next(c, states[n - 1], steps[n - 1], states[n]);
      StepInv(c, states[n - 1], steps[n - 1], states[n]);
    }
  }

  // ---------------------------------------------------------------- theorems

  /** All the writes of one operation survive, or none does. */
  ghost predicate WholeOps(all: seq<Write>, kept: seq<Write>) {
    && kept <= all
    && forall i, j :: 0 <= i < |kept| <= j < |all| ==> all[i].op != all[j].op
  }

  lemma CutBetweenOps(s: State, kept: seq<Write>)
    requires OpsInv(s) && (kept == s.durable || kept == s.durable + s.pending)
    ensures WholeOps(s.durable + s.pending, kept)
  {
    var all := s.durable + s.pending;
    forall i, j | 0 <= i < |kept| <= j < |all| ensures all[i].op != all[j].op {
      assert all[i] == s.durable[i] && all[j] == s.pending[j - |s.durable|];
    }
  }

  /** A crash at any point of any run leaves on the disk exactly the effect of a
      prefix of the writes issued so far, cut between operations: each operation
      is there entirely or not at all, and every operation of a finished
      transaction is there. */
  lemma OperationsAtomic(c: Config, states: seq<State>, steps: seq<Step>, crashes: seq<Disk>, t: seq<Disk>, s': State)
    requires Run(c, states, steps)
    requires DoCrash(c, states[|states| - 1], crashes, t, s')
    ensures var s := states[|states| - 1];
            && SameHome(s'.disk, Play(s.base, s'.durable), c.l)
            && WholeOps(s.durable + s.pending, s'.durable)
            && s.durable <= s'.durable
  {
    var s := states[|states| - 1];
    RunInv(c, states, steps);
    CutBetweenOps(s, s'.durable);
    CrashOutcome(c, s, crashes, t, s');
  }

  /** Commit and operations exclude each other in every run: while a commit runs no
      operation is outstanding, none can start, and none can log a block. */
  lemma CommitAlone(c: Config, states: seq<State>, steps: seq<Step>, i: nat)
    requires Run(c, states, steps) && i < |steps| && states[i].phase.Committing?
    ensures states[i].active == map[]
    ensures steps[i].DiskWrite? || steps[i].CommitDone? || steps[i].Crash?
  {
    RunInv(c, states[..i + 1], steps[..i]);
    assert Next(c, states[i], steps[i], states[i + 1]);
  }

  lemma PendingLogged(s: State)
    requires OpsInv(s) && s.pending != []
    ensures s.lh != []
  {
    assert s.pending[0].block in s.lh;
  }

  /** In every run, when no operation is outstanding and no commit runs, nothing is waiting to
      be written: the disk shows what the cache shows, and a crash would lose no write. */
  lemma QuietIsDurable(c: Config, states: seq<State>, steps: seq<Step>)
    requires Run(c, states, steps)
    requires var s := states[|states| - 1]; s.phase.Idle? && s.active == map[]
    ensures var s := states[|states| - 1]; s.lh == [] && s.pending == [] && SameHome(s.cur, s.disk, c.l)
  {
    hide Play, Header, Unlogged;
    RunInv(c, states, steps);
    var s := states[|states| - 1];
    if s.pending != [] {
      PendingLogged(s);
    }
    assert s.durable + s.pending == s.durable;
    SameHomeTrans(s.cur, Play(s.base, s.durable), s.disk, c.l);
  }
}
