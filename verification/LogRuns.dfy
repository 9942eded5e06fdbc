/**
 The code of log.c takes the steps of Transactions: every begin_op, log_write and end_op
 that runs over the buffer cache is a step of a run, so what is proved of every run and
 every crash holds of the code.
 */
module LogRuns {
  import opened Blocks
  import opened LogSpec
  import opened BufferCache
  import opened Log
  import T = Transactions

  /** The log and the cache are as in state s of a run, apart from what the cache shows of the
      log's own blocks. */
  ghost predicate Tracks(lg: Log, c: T.Config, s: T.State)
    reads lg, lg.bc
  {
    && c.l == lg.l && s.disk == lg.bc.disk && SameHome(s.cur, lg.bc.Contents(), lg.l)
    && s.lh == lg.lh && |s.active| == lg.outstanding && (s.phase.Idle? <==> !lg.committing)
  }

  /** One turn of begin_op's loop: it gets past the two tests exactly when the operation may
      begin, and then the operation has begun. */
  method Begin(lg: Log, ghost c: T.Config, ghost s: T.State,
               ghost op: T.OpId) returns (started: bool, ghost s': T.State)
    requires T.Inv(c, s) && Tracks(lg, c, s) && op !in s.begun
    modifies lg`outstanding
    ensures started <==> T.MayBegin(s)
    ensures if started then T.DoBegin(s, op, s') else s' == s
    ensures Tracks(lg, c, s')
  {
    hide SameHome, Bcache.Contents;
    started := lg.BeginOp();
    s' := if started then s.(active := s.active[op := {}], begun := s.begun + {op}) else s;
  }

  /** An operation changes a buffer it holds and calls log_write. */
  method Update(lg: Log, i: nat, b: nat, data: Block, ghost c: T.Config, ghost s: T.State, ghost op: T.OpId,
                ghost pinned: set<nat>)
    returns (ghost s': T.State)
    requires T.Inv(c, s) && Tracks(lg, c, s) && s.phase.Idle? && op in s.active && !T.LogWritePanics(c, s)
    requires Users(lg.bc, pinned) && StillPinned(pinned, lg.lh, 0) && i < NBUF && Holds(lg.bc, i, b)
    requires c.l.Home(b) && b < |s.cur| && b < 0x1_0000_0000 && |s.active[op] + {b}| <= c.cap
    modifies lg`lh, lg.bc
    ensures T.DoLogWrite(c, s, T.Write(op, b, data), s') && Tracks(lg, c, s')
    ensures Users(lg.bc, pinned + {b}) && StillPinned(pinned + {b}, lg.lh, 0) && Holds(lg.bc, i, b)
    ensures lg.bc.dirty == old(lg.bc.dirty) + {i} && lg.bc.holds == old(lg.bc.holds)
    ensures old(AllLogged(lg.bc, pinned)) ==> AllLogged(lg.bc, pinned + {b})
    ensures |Referenced(lg.bc.buf)| <= |Referenced(old(lg.bc.buf))|
  {
    hide Bcache.Contents, Users, StillPinned, T.DataInv, T.PhaseInv, T.OpsInv, Alike, Referenced, Logged;
    ghost var b0 := lg.bc.buf;
    Change(lg.bc, i, b, data, pinned);
    ghost var b1 := lg.bc.buf;
    ghost var pinned' := lg.LogWrite(i, b, pinned);
    StillLogged(b0, b1, lg.bc.buf, old(lg.bc.dirty), pinned, i, b);
    s' := s.(cur := s.cur[b := data], lh := if b in s.lh then s.lh else s.lh + [b],
             active := s.active[op := s.active[op] + {b}], pending := s.pending + [T.Write(op, b, data)]);
    assert |s'.active| == |s.active| by { assert s'.active.Keys == s.active.Keys; }
  }

  method Change(bc: Bcache, i: nat, b: nat, data: Block, ghost pinned: set<nat>)
    requires Users(bc, pinned) && i < NBUF && Holds(bc, i, b)
    modifies bc
    ensures Users(bc, pinned) && Holds(bc, i, b) && bc.disk == old(bc.disk) && bc.trace == old(bc.trace)
    ensures b < |bc.disk| && bc.Contents() == old(bc.Contents())[b := data] && bc.buf[i].data == data
    ensures bc.dirty == old(bc.dirty) + {i} && bc.holds == old(bc.holds) && Alike(old(bc.buf), bc.buf)
  {
    bc.Store(i, data);
  }

  lemma StillLogged(b0: seq<Buf>, b1: seq<Buf>, b2: seq<Buf>, dirty: set<nat>, pinned: set<nat>, i: nat, b: nat)
    requires Alike(b0, b1) && Alike(b1, b2) && i < |b2| && b2[i].dev == ROOTDEV && b2[i].blockno == b
    ensures Logged(b0, dirty, pinned) ==> Logged(b2, dirty + {i}, pinned + {b})
    ensures |Referenced(b2)| <= |Referenced(b0)|
  {
    AlikeKeeps(b0, b1, dirty, pinned);
    AlikeKeeps(b1, b2, dirty, pinned);
  }

  /** What writei does when a copy fails: a buffer is changed and let go without log_write. The
      cache is left sound exactly if the block is logged already, or looks as it does on disk. */
  method Abandon(bc: Bcache, i: nat, b: nat, data: Block, ghost pinned: set<nat>)
    requires Users(bc, pinned) && i < NBUF && Holds(bc, i, b)
    modifies bc
    ensures b < |bc.disk| && bc.Contents() == old(bc.Contents())[b := data] && bc.disk == old(bc.disk)
    ensures bc.Valid() <==> b in pinned || data == bc.disk[b]
  {
    hide Bcache.Contents;
    Change(bc, i, b, data, pinned);
    assert bc.buf[i].data == data;
    bc.Unlock(i);
  }

  /** What a commit begun in s leaves: its writes are durable and nothing is logged. */
  ghost function Settled(s: T.State, e: Disk): (s': T.State) {
    s.(disk := e, lh := [], phase := T.Idle, durable := s.durable + s.pending, pending := [])
  }

  /** end_op, with readers beside the commit: the operation's last step, and if a commit
      follows, its disk writes and its end. */
  method End(lg: Log, ghost c: T.Config, ghost s: T.State, ghost op: T.OpId, ghost pinned: set<nat>,
             readers: nat -> seq<ReadOp>)
    returns (ghost t: seq<Disk>, ghost s1: T.State, ghost s2: T.State)
    requires T.Inv(c, s) && Tracks(lg, c, s) && s.phase.Idle? && op in s.active
    requires lg.outstanding == 1 ==> Calm(lg.bc, pinned) && StillPinned(pinned, lg.lh, 0)
    modifies lg, lg.bc
    ensures T.DoEnd(c, s, op, t, s1) && Tracks(lg, c, s2)
    ensures if s1.phase.Committing? then t != [] && s2 == Settled(s1, t[|t| - 1]) else s2 == s1
    ensures lg.outstanding == 0 ==> Calm(lg.bc, {})
  {
    hide Bcache.Contents, Calm, StillPinned, T.DataInv, T.OpsInv, CommitTrace, Cleared, Values;
    ghost var rest := s.active - {op};
    assert |rest| == |s.active| - 1 by { assert rest.Keys == s.active.Keys - {op}; }
    ghost var shown, d, lh := lg.bc.Contents(), lg.bc.disk, lg.lh;
    SameValues(c.l, s.cur, shown, d, lh);
    var committed;
    committed, t := lg.EndOp(pinned, readers);
    assert committed <==> rest == map[];
    s1 := if rest == map[] && lh != [] then s.(active := rest, phase := T.Committing(d, t, 0)) else s.(active := rest);
    s2 := if s1.phase.Committing? then Settled(s1, t[|t| - 1]) else s1;
    if committed {
      AllClean(lg.bc);
      if lh != [] {
        HomeKept(c.l, s.cur, shown, lg.bc.disk);
      }
    }
  }

  /** A commit that has begun can run to its end, whatever the run before it. */
  lemma CommitRuns(c: T.Config, states: seq<T.State>,
                   steps: seq<T.Step>) returns (states': seq<T.State>, steps': seq<T.Step>)
    requires T.Run(c, states, steps)
    requires var s := states[|states| - 1]; s.phase.Committing? && s.phase.done <= |s.phase.t| && s.phase.t != []
    requires var s := states[|states| - 1]; s.phase.done == |s.phase.t| ==> s.disk == s.phase.t[|s.phase.t| - 1]
    ensures T.Run(c, states', steps') && states <= states'
    ensures var s := states[|states| - 1]; states'[|states'| - 1] == Settled(s, s.phase.t[|s.phase.t| - 1])
    decreases var s := states[|states| - 1]; |s.phase.t| - s.phase.done
  {
    hide T.Init;
    var s := states[|states| - 1];
    if s.phase.done == |s.phase.t| {
      var s' := s.(lh := [], phase := T.Idle, durable := s.durable + s.pending, pending := []);
      states', steps' := states + [s'], steps + [T.CommitDone];
      assert T.Next(c, s, T.CommitDone, s');
    } else {
      var s' := s.(disk := s.phase.t[s.phase.done], phase := s.phase.(done := s.phase.done + 1));
      assert T.Next(c, s, T.DiskWrite, s');
      states', steps' := CommitRuns(c, states + [s'], steps + [T.DiskWrite]);
    }
  }

  // ------------------------------------------------------ a whole operation

  datatype BlockWrite = BlockWrite(b: nat, data: Block)

  /** The operation has made k writes, in the run that the states and steps tell; room buffers
      are left. */
  ghost predicate Underway(lg: Log, c: T.Config, states: seq<T.State>, steps: seq<T.Step>, op: T.OpId, pinned: set<nat>,
                           k: nat, room: nat)
    reads lg, lg.bc
  {
    && T.Run(c, states, steps) && Tracks(lg, c, states[|states| - 1])
    && MayWrite(states[|states| - 1], op, k)
    && Users(lg.bc, pinned) && AllLogged(lg.bc, pinned) && StillPinned(pinned, lg.lh, 0)
    && |Referenced(lg.bc.buf)| + room + 2 <= NBUF
  }

  ghost predicate MayWrite(s: T.State, op: T.OpId, k: nat) {
    s.phase.Idle? && op in s.active && |s.active[op]| <= k && |s.lh| <= LOGSIZE - MAXOPBLOCKS + k
  }

  /** bread, a change of the buffer, log_write, brelse. */
  method WriteOne(lg: Log, w: BlockWrite, ghost c: T.Config, ghost states: seq<T.State>, ghost steps: seq<T.Step>,
                  ghost op: T.OpId, ghost pinned: set<nat>, ghost k: nat, ghost room: nat)
    returns (ghost states': seq<T.State>, ghost steps': seq<T.Step>)
    requires Underway(lg, c, states, steps, op, pinned, k, room) && room > 0
    requires k < c.cap && k + 1 < MAXOPBLOCKS && c.l.size == LOGSIZE
    requires MayBeLogged(c.l, w.b, |lg.bc.disk|)
    modifies lg`lh, lg.bc
    ensures Underway(lg, c, states', steps', op, pinned + {w.b}, k + 1, room - 1) && states <= states'
    ensures |lg.bc.disk| == |old(lg.bc.disk)|
  {
    hide Users, AllLogged, StillPinned, Referenced, Bcache.Contents, T.Run, T.Inv, Alike, SameHome, OthersKept;
    SomeState(c, states, steps);
    ghost var s := states[|states| - 1];
    T.RunInv(c, states, steps);
    MayLog(c, s, op, k, w.b);
    Lengths(c, s);
    var i := Acquire(lg.bc, w.b, pinned);
    ghost var s' := Update(lg, i, w.b, w.data, c, s, op, pinned);
    ghost var b1 := lg.bc.buf;
    Release(lg.bc, i, pinned + {w.b});
    AlikeKeeps(b1, lg.bc.buf, {}, {});
    T.Extend(c, states, steps, T.LogWrite(T.Write(op, w.b, w.data)), s');
    Logs(c, s, op, k, T.Write(op, w.b, w.data), s');
    states', steps' := states + [s'], steps + [T.LogWrite(T.Write(op, w.b, w.data))];
  }

  lemma SomeState(c: T.Config, states: seq<T.State>, steps: seq<T.Step>)
    requires T.Run(c, states, steps)
    ensures |states| == |steps| + 1
  {
  }

  lemma Lengths(c: T.Config, s: T.State)
    requires T.Inv(c, s)
    ensures |s.cur| == |s.disk|
  {
  }

  lemma MayLog(c: T.Config, s: T.State, op: T.OpId, k: nat, b: nat)
    requires MayWrite(s, op, k) && k < c.cap && k + 1 < MAXOPBLOCKS && c.l.size == LOGSIZE
    ensures !T.LogWritePanics(c, s) && |s.active[op] + {b}| <= c.cap
  {
    assert s.active != map[];
  }

  lemma Logs(c: T.Config, s: T.State, op: T.OpId, k: nat, w: T.Write, s': T.State)
    requires MayWrite(s, op, k) && w.op == op && T.DoLogWrite(c, s, w, s')
    ensures MayWrite(s', op, k + 1)
  {
  }

  /** begin_op, when it may begin. */
  method BeginRun(lg: Log, ghost c: T.Config, ghost states: seq<T.State>, ghost steps: seq<T.Step>, ghost op: T.OpId,
                  ghost pinned: set<nat>, ghost room: nat)
    returns (ghost states': seq<T.State>, ghost steps': seq<T.Step>)
    requires T.Run(c, states, steps) && Tracks(lg, c, states[|states| - 1]) && op !in states[|states| - 1].begun
    requires T.MayBegin(states[|states| - 1])
    requires Users(lg.bc, pinned) && AllLogged(lg.bc, pinned) && StillPinned(pinned, lg.lh, 0)
    requires |Referenced(lg.bc.buf)| + room + 2 <= NBUF
    modifies lg`outstanding
    ensures Underway(lg, c, states', steps', op, pinned, 0, room) && states <= states'
  {
    hide Users, AllLogged, StillPinned, Referenced, Bcache.Contents, T.Run, T.Inv, SameHome, MayWrite, T.DoBegin;
    SomeState(c, states, steps);
    ghost var s := states[|states| - 1];
    T.RunInv(c, states, steps);
    var started;
    ghost var s0;
    started, s0 := Begin(lg, c, s, op);
    T.Extend(c, states, steps, T.Begin(op), s0);
    Begins(s, op, s0);
    states', steps' := states + [s0], steps + [T.Begin(op)];
  }

  /** end_op, with the commit if the operation is the last out. */
  method EndRun(lg: Log, readers: nat -> seq<ReadOp>, ghost c: T.Config, ghost states: seq<T.State>,
                ghost steps: seq<T.Step>, ghost op: T.OpId, ghost pinned: set<nat>, ghost k: nat)
    returns (ghost states': seq<T.State>, ghost steps': seq<T.Step>)
    requires Underway(lg, c, states, steps, op, pinned, k, 0)
    modifies lg, lg.bc
    ensures Over(lg, c, states', steps', op) && states <= states'
  {
    hide Users, AllLogged, StillPinned, Referenced, Bcache.Contents, T.Run, T.Inv, SameHome, MayWrite, T.DoEnd;
    SomeState(c, states, steps);
    ghost var last := states[|states| - 1];
    T.RunInv(c, states, steps);
    InIdle(last, op, k);
    ghost var t, s1, s2;
    t, s1, s2 := End(lg, c, last, op, pinned, readers);
    T.Extend(c, states, steps, T.End(op, t), s1);
    Ends(c, last, op, t, s1);
    states', steps' := states + [s1], steps + [T.End(op, t)];
    if s1.phase.Committing? {
      states', steps' := CommitRuns(c, states', steps');
      SomeState(c, states', steps');
    }
  }

  /** The operation is over, in a run that ends as the code is left. */
  ghost predicate Over(lg: Log, c: T.Config, states: seq<T.State>, steps: seq<T.Step>, op: T.OpId)
    reads lg, lg.bc
  {
    && T.Run(c, states, steps) && Tracks(lg, c, states[|states| - 1])
    && op in states[|states| - 1].begun && op !in states[|states| - 1].active
  }

  /** A block that may be logged: in the file system, and its number fits the header. */
  predicate MayBeLogged(l: Layout, b: nat, size: nat) {
    l.Home(b) && b < size && b < 0x1_0000_0000
  }

  /**
   One operation from begin_op to end_op, making up to MAXOPBLOCKS - 1 writes: from any run
   there is a longer one that ends in the state the code is left in. So the theorems about
   runs and crashes hold of the code.
   */
  method Operation(lg: Log, writes: seq<BlockWrite>, readers: nat -> seq<ReadOp>, ghost c: T.Config,
                   ghost states: seq<T.State>, ghost steps: seq<T.Step>, ghost op: T.OpId, ghost pinned: set<nat>)
    returns (ghost states': seq<T.State>, ghost steps': seq<T.Step>)
    requires T.Run(c, states, steps) && Tracks(lg, c, states[|states| - 1]) && op !in states[|states| - 1].begun
    requires T.MayBegin(states[|states| - 1]) && |writes| <= c.cap && |writes| < MAXOPBLOCKS && c.l.size == LOGSIZE
    requires Users(lg.bc, pinned) && AllLogged(lg.bc, pinned) && StillPinned(pinned, lg.lh, 0)
    requires |Referenced(lg.bc.buf)| + |writes| + 2 <= NBUF
    requires forall k :: 0 <= k < |writes| ==> MayBeLogged(c.l, writes[k].b, |lg.bc.disk|)
    modifies lg, lg.bc
    ensures Over(lg, c, states', steps', op) && states <= states'
  {
    hide Users, AllLogged, StillPinned, Referenced, T.Run, Tracks, Underway, T.MayBegin, Over;
    ghost var p := pinned;
    states', steps' := BeginRun(lg, c, states, steps, op, pinned, |writes|);
    var k := 0;
    while k < |writes|
      invariant k <= |writes| && Underway(lg, c, states', steps', op, p, k, |writes| - k) && states <= states'
      invariant |lg.bc.disk| == |old(lg.bc.disk)|
    {
      states', steps' := WriteOne(lg, writes[k], c, states', steps', op, p, k, |writes| - k);
      p := p + {writes[k].b};
      k := k + 1;
    }
    states', steps' := EndRun(lg, readers, c, states', steps', op, p, k);
  }

  lemma Begins(s: T.State, op: T.OpId, s': T.State)
    requires T.DoBegin(s, op, s')
    ensures MayWrite(s', op, 0)
  {
    assert s'.active[op] == {};
  }

  lemma InIdle(s: T.State, op: T.OpId, k: nat)
    requires MayWrite(s, op, k)
    ensures s.phase.Idle? && op in s.active
  {
  }

  lemma Ends(c: T.Config, s: T.State, op: T.OpId, t: seq<Disk>, s': T.State)
    requires T.Inv(c, s) && op in s.active && T.DoEnd(c, s, op, t, s')
    ensures op in s'.begun && op !in s'.active
    ensures s'.phase.Committing? ==> s'.phase.done == 0 && s'.phase.t == t
  {
  }

  lemma SameValues(l: Layout, cur: Disk, shown: Disk, d: Disk, lh: seq<nat>)
    requires Loggable(d, l, lh) && SameHome(cur, shown, l) && |cur| == |d|
    ensures Values(cur, lh) == Values(shown, lh)
  {
  }

  lemma HomeKept(l: Layout, cur: Disk, shown: Disk, e: Disk)
    requires SameHome(cur, shown, l) && l.Fits(shown) && Cleared(shown, l, e)
    ensures SameHome(cur, e, l)
  {
  }

  lemma AllClean(bc: Bcache)
    requires Calm(bc, {})
    ensures bc.Contents() == bc.disk
  {
    hide Users, AllLogged, Bcache.Contents;
    forall b | 0 <= b < |bc.disk| ensures bc.Contents()[b] == bc.disk[b] {
      UnpinnedClean(bc, {}, b);
    }
  }
}
