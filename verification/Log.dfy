/**
 log.c over the buffer cache: the disk writes of commit() and recovery are exactly
 the traces of LogSpec, and log_write keeps changed blocks pinned until then.
 */
module Log {
  import opened Blocks
  import opened LogSpec
  import opened BufferCache
  import opened Sets

  /** The blocks of `pinned` are cached and pinned once each, and nothing else is pinned.
      Besides, any number of processes may have buffers in use or wait for them. */
  ghost predicate Users(bc: Bcache, pinned: set<nat>)
    reads bc
  {
    bc.Valid() && PinsOk(bc.buf, bc.where, bc.pins, pinned)
  }

  ghost predicate PinsOk(buf: seq<Buf>, where: map<nat, nat>, pins: seq<nat>, pinned: set<nat>) {
    && |buf| == |pins| == NBUF
    && (forall i :: 0 <= i < NBUF ==> pins[i] == PinsOf(buf[i], pinned))
    && (forall b :: b in pinned ==> b in where && where[b] < NBUF && buf[where[b]].valid)
  }

  ghost function PinsOf(x: Buf, pinned: set<nat>): (n: nat) {
    if Pinned(x, pinned) then 1 else 0
  }

  ghost predicate Pinned(x: Buf, pinned: set<nat>) {
    x.dev == ROOTDEV && x.blockno in pinned
  }

  /** Every changed buffer has been handed to the log, as it has when no operation runs. */
  ghost predicate AllLogged(bc: Bcache, pinned: set<nat>)
    reads bc
  {
    Logged(bc.buf, bc.dirty, pinned)
  }

  ghost predicate Logged(buf: seq<Buf>, dirty: set<nat>, pinned: set<nat>) {
    forall i :: i in dirty ==> i < |buf| && Pinned(buf[i], pinned)
  }

  /** Changing a buffer but not which block it caches. */
  lemma SameBlock(buf: seq<Buf>, where: map<nat, nat>, pins: seq<nat>, dirty: set<nat>, pinned: set<nat>, i: nat,
                  x: Buf)
    requires PinsOk(buf, where, pins, pinned) && i < NBUF && x.dev == buf[i].dev && x.blockno == buf[i].blockno
    requires (buf[i].valid ==> x.valid)
    ensures PinsOk(buf[i := x], where, pins, pinned)
    ensures (Logged(buf, dirty, pinned) ==> Logged(buf[i := x], dirty, pinned))
    ensures Logged(buf, dirty, pinned) && i in dirty ==> pins[i] > 0
  {
  }

  /** Every buffer caches the block it did, and none has come into use. */
  ghost predicate Alike(buf: seq<Buf>, buf': seq<Buf>) {
    |buf'| == |buf| && forall k :: 0 <= k < |buf| ==>
      buf'[k].dev == buf[k].dev && buf'[k].blockno == buf[k].blockno && (buf'[k].refcnt > 0 ==> buf[k].refcnt > 0)
  }

  lemma SelfAlike(buf: seq<Buf>)
    ensures Alike(buf, buf)
  {
  }

  lemma AlikeKeeps(buf: seq<Buf>, buf': seq<Buf>, dirty: set<nat>, pinned: set<nat>)
    requires Alike(buf, buf')
    ensures Logged(buf, dirty, pinned) ==> Logged(buf', dirty, pinned)
    ensures |Referenced(buf')| <= |Referenced(buf)|
  {
    SubsetSize(Referenced(buf'), Referenced(buf));
  }

  lemma Sizes(bc: Bcache)
    requires bc.Valid()
    ensures |bc.buf| == |bc.holds| == |bc.pins| == NBUF
  {
  }

  lemma OnDisk(bc: Bcache, i: nat)
    requires bc.Valid() && i < NBUF && bc.buf[i].dev == ROOTDEV
    ensures |bc.buf| == |bc.holds| == NBUF && bc.buf[i].blockno < |bc.disk| && (bc.buf[i].locked ==> bc.holds[i] > 0)
  {
    assert BufOk(bc.buf[i], i, bc.disk, bc.where, bc.holds[i], bc.pins[i], i in bc.dirty);
  }

  /** The buffers that cannot be recycled. */
  function Referenced(buf: seq<Buf>): (r: set<nat>) {
    set i: nat | i < |buf| && buf[i].refcnt > 0
  }

  /** The buffers that some process holds or waits for. */
  ghost function Held(holds: seq<nat>): (r: set<nat>) {
    set i: nat | i < |holds| && holds[i] > 0
  }

  /** The state in which a commit runs: readers may hold buffers, but leave two. */
  ghost predicate Calm(bc: Bcache, pinned: set<nat>)
    reads bc
  {
    Users(bc, pinned) && AllLogged(bc, pinned) && |Referenced(bc.buf)| + 2 <= NBUF
  }

  /** With fewer than NBUF blocks pinned and buffers in use, bget does not panic. */
  lemma SomeBufferFree(bc: Bcache, pinned: set<nat>)
    requires Users(bc, pinned) && |pinned| + |Held(bc.holds)| < NBUF
    ensures |Referenced(bc.buf)| < NBUF && !Busy(bc.buf, bc.order, 0)
  {
    UsedOrPinned(bc, pinned);
    NotAllBusy(bc);
  }

  lemma UsedOrPinned(bc: Bcache, pinned: set<nat>)
    requires Users(bc, pinned)
    ensures |Referenced(bc.buf)| <= |pinned| + |Held(bc.holds)|
  {
    var all := Image(pinned, bc.where) + Held(bc.holds);
    forall i | i in Referenced(bc.buf) ensures i in all {
      WhyReferenced(bc, pinned, i);
    }
    ImageSize(pinned, bc.where);
    SubsetSize(Referenced(bc.buf), all);
    assert |all| <= |Image(pinned, bc.where)| + |Held(bc.holds)|;
  }

  lemma WhyReferenced(bc: Bcache, pinned: set<nat>, i: nat)
    requires Users(bc, pinned) && i in Referenced(bc.buf)
    ensures i in Held(bc.holds) || (bc.buf[i].blockno in pinned && bc.buf[i].blockno in bc.where
                                    && bc.where[bc.buf[i].blockno] == i)
  {
    assert BufOk(bc.buf[i], i, bc.disk, bc.where, bc.holds[i], bc.pins[i], i in bc.dirty);
    assert bc.pins[i] == PinsOf(bc.buf[i], pinned);
  }

  lemma NotAllBusy(bc: Bcache)
    requires bc.Valid() && |Referenced(bc.buf)| < NBUF
    ensures !Busy(bc.buf, bc.order, 0)
  {
    if Busy(bc.buf, bc.order, 0) {
      forall i | i in Upto(NBUF) ensures i in Referenced(bc.buf) {
        assert i in bc.order;
        var k :| 0 <= k < |bc.order| && bc.order[k] == i;
        assert bc.buf[bc.order[k]].refcnt > 0;
      }
      SubsetSize(Upto(NBUF), Referenced(bc.buf));
    }
  }

  /** Holding no more than before, the processes leave as many buffers as before. */
  lemma NoMoreReferenced(buf: seq<Buf>, disk: Disk, where: map<nat, nat>, holds: seq<nat>, pins: seq<nat>,
                         dirty: set<nat>,
                         buf': seq<Buf>, disk': Disk, where': map<nat, nat>, pins': seq<nat>, dirty': set<nat>)
    requires Coherent(buf, disk, where, holds, pins, dirty) && Coherent(buf', disk', where', holds, pins', dirty')
    requires forall i :: 0 <= i < NBUF ==> pins'[i] <= pins[i]
    ensures |Referenced(buf')| <= |Referenced(buf)|
  {
    forall i | i in Referenced(buf') ensures i in Referenced(buf) {
      assert BufOk(buf[i], i, disk, where, holds[i], pins[i], i in dirty);
      assert BufOk(buf'[i], i, disk', where', holds[i], pins'[i], i in dirty');
    }
    SubsetSize(Referenced(buf'), Referenced(buf));
  }

  // ------------------------------------------- readers beside a commit

  /** What a process that only reads does: bget, acquiresleep and the disk read,
      releasesleep, and the end of brelse. */
  datatype ReadOp = Get(b: nat) | Read(i: nat) | Unlock(i: nat) | Put(i: nat)

  /** One step of a reader, where it can take it. */
  method ReaderStep(bc: Bcache, op: ReadOp, ghost pinned: set<nat>)
    requires Calm(bc, pinned)
    modifies bc
    ensures Calm(bc, pinned)
    ensures bc.Contents() == old(bc.Contents()) && bc.disk == old(bc.disk) && bc.trace == old(bc.trace)
  {
    match op
    case Get(b) =>
      if b < |bc.disk| && |Referenced(bc.buf)| + 3 <= NBUF {
        GetRef(bc, b, pinned);
      }
    case Read(i) =>
      if i < NBUF && bc.holds[i] > 0 && bc.buf[i].dev == ROOTDEV && !bc.buf[i].locked {
        LockRead(bc, i, pinned);
      }
    case Unlock(i) =>
      if i < NBUF && bc.buf[i].locked {
        LetGo(bc, i, pinned);
      }
    case Put(i) =>
      if i < NBUF && bc.holds[i] > (if bc.buf[i].locked then 1 else 0) {
        PutRef(bc, i, pinned);
      }
  }

  method GetRef(bc: Bcache, b: nat, ghost pinned: set<nat>)
    requires Calm(bc, pinned) && b < |bc.disk| && |Referenced(bc.buf)| + 3 <= NBUF
    modifies bc
    ensures Calm(bc, pinned)
    ensures bc.Contents() == old(bc.Contents()) && bc.disk == old(bc.disk) && bc.trace == old(bc.trace)
  {
    var i := Take(bc, b, pinned);
  }

  /** bget. */
  method Take(bc: Bcache, b: nat, ghost pinned: set<nat>) returns (i: nat)
    requires Users(bc, pinned) && AllLogged(bc, pinned) && b < |bc.disk| && (b in pinned || |Referenced(bc.buf)| < NBUF)
    modifies bc
    ensures Users(bc, pinned) && AllLogged(bc, pinned) && bc.dirty == old(bc.dirty) && bc.pins == old(bc.pins)
    ensures bc.Contents() == old(bc.Contents()) && bc.disk == old(bc.disk) && bc.trace == old(bc.trace)
    ensures i < NBUF && bc.buf[i].dev == ROOTDEV && bc.buf[i].blockno == b
    ensures |old(bc.holds)| == NBUF && bc.holds == old(bc.holds)[i := old(bc.holds[i]) + 1]
    ensures |Referenced(bc.buf)| <= |Referenced(old(bc.buf))| + 1
    ensures OthersKept(old(bc.buf), bc.buf, b)
  {
    hide Bcache.Valid, Bcache.Contents, PinsOk, Logged, Referenced, OthersKept, Busy, LeastRecent, Rehomed;
    CanGet(bc, b, pinned);
    ghost var w, was := bc.where, bc.buf;
    Cached(bc, pinned);
    var r := bc.Bget(ROOTDEV, b);
    i := r;
    Sizes(bc);
    if b in w {
      Retaken(was, w, bc.pins, bc.dirty, pinned, i, b);
      assert bc.buf == was[i := was[i].(refcnt := was[i].refcnt + 1)];
    } else {
      ghost var x := Buf(false, ROOTDEV, b, 1, false, was[i].data);
      assert bc.buf == was[i := x];
      Recycled(was, bc.disk, w, old(bc.holds), bc.pins, bc.dirty, pinned, bc.order, i, b);
    }
  }

  lemma CanGet(bc: Bcache, b: nat, pinned: set<nat>)
    requires Users(bc, pinned) && (b in pinned || |Referenced(bc.buf)| < NBUF)
    ensures b in bc.where || !Busy(bc.buf, bc.order, 0)
  {
    if b !in pinned {
      NotAllBusy(bc);
    }
  }

  lemma Cached(bc: Bcache, pinned: set<nat>)
    requires Users(bc, pinned)
    ensures Coherent(bc.buf, bc.disk, bc.where, bc.holds, bc.pins, bc.dirty) && |bc.buf| == |bc.holds| == NBUF
    ensures forall b :: b in bc.where ==>
              bc.where[b] < NBUF && bc.buf[bc.where[b]].dev == ROOTDEV && bc.buf[bc.where[b]].blockno == b
  {
  }

  /** What a hit of bget leaves. */
  lemma Retaken(buf: seq<Buf>, where: map<nat, nat>, pins: seq<nat>, dirty: set<nat>, pinned: set<nat>, i: nat, b: nat)
    requires PinsOk(buf, where, pins, pinned) && Logged(buf, dirty, pinned) && i < NBUF && buf[i].dev == ROOTDEV
    requires buf[i].blockno == b
    ensures var buf' := buf[i := buf[i].(refcnt := buf[i].refcnt + 1)];
            && PinsOk(buf', where, pins, pinned) && Logged(buf', dirty, pinned) && OthersKept(buf, buf', b)
            && |Referenced(buf')| <= |Referenced(buf)| + 1
  {
    var buf' := buf[i := buf[i].(refcnt := buf[i].refcnt + 1)];
    SameBlock(buf, where, pins, dirty, pinned, i, buf'[i]);
    SubsetSize(Referenced(buf'), Referenced(buf) + {i});
  }

  /** What a miss leaves. */
  lemma Recycled(buf: seq<Buf>, disk: Disk, where: map<nat, nat>, holds: seq<nat>, pins: seq<nat>, dirty: set<nat>,
                 pinned: set<nat>, order: seq<nat>, i: nat, b: nat)
    requires Coherent(buf, disk, where, holds, pins, dirty) && PinsOk(buf, where, pins, pinned)
    requires Logged(buf, dirty, pinned)
    requires i < NBUF && LeastRecent(buf, order, i) && b !in where
    ensures var buf' := buf[i := Buf(false, ROOTDEV, b, 1, false, buf[i].data)];
            && PinsOk(buf', Rehomed(buf, where, i, b), pins, pinned) && Logged(buf', dirty, pinned)
            && OthersKept(buf, buf', b)
            && |Referenced(buf')| <= |Referenced(buf)| + 1
  {
    var buf' := buf[i := Buf(false, ROOTDEV, b, 1, false, buf[i].data)];
    assert buf[i].refcnt == 0;
    assert BufOk(buf[i], i, disk, where, holds[i], pins[i], i in dirty);
    SubsetSize(Referenced(buf'), Referenced(buf) + {i});
  }

  method LockRead(bc: Bcache, i: nat, ghost pinned: set<nat>)
    requires Calm(bc, pinned) && i < NBUF && bc.holds[i] > 0 && bc.buf[i].dev == ROOTDEV && !bc.buf[i].locked
    modifies bc
    ensures Calm(bc, pinned)
    ensures bc.Contents() == old(bc.Contents()) && bc.disk == old(bc.disk) && bc.trace == old(bc.trace)
  {
    ghost var was := bc.buf;
    Grab(bc, i, pinned);
    assert Referenced(bc.buf) == Referenced(was);
  }

  /** The rest of bread, after bget. If another process has the buffer, acquiresleep returns
      once that process has let go. */
  method Grab(bc: Bcache, i: nat, ghost pinned: set<nat>)
    requires Users(bc, pinned) && AllLogged(bc, pinned) && i < NBUF && bc.holds[i] > 0 && bc.buf[i].dev == ROOTDEV
    modifies bc
    ensures Users(bc, pinned) && AllLogged(bc, pinned) && bc.pins == old(bc.pins) && bc.holds == old(bc.holds)
    ensures bc.Contents() == old(bc.Contents()) && bc.disk == old(bc.disk) && bc.trace == old(bc.trace)
    ensures i < |old(bc.buf)| && old(bc.buf[i]).blockno < |bc.disk|
    ensures bc.buf == old(bc.buf)[i := old(bc.buf[i]).(locked := true, valid := true,
                                                       data := bc.Contents()[old(bc.buf[i]).blockno])]
  {
    hide Bcache.Valid, Bcache.Contents, PinsOk, Logged;
    OnDisk(bc, i);
    SameBlock(bc.buf, bc.where, bc.pins, bc.dirty, pinned, i, bc.buf[i]);
    ghost var b0, x := bc.buf, bc.buf[i];
    ghost var y := x.(locked := true, valid := true, data := bc.Contents()[x.blockno]);
    SameBlock(b0, bc.where, bc.pins, bc.dirty, pinned, i, y);
    if bc.buf[i].locked {
      bc.Unlock(i);
    }
    assert bc.buf[i] == x.(locked := false);
    bc.Lock(i);
    assert bc.buf[i] == x.(locked := true);
    bc.Fill(i);
    assert bc.buf == b0[i := y];
  }

  /** releasesleep. */
  method LetGo(bc: Bcache, i: nat, ghost pinned: set<nat>)
    requires Calm(bc, pinned) && i < NBUF && bc.buf[i].locked
    modifies bc
    ensures Calm(bc, pinned)
    ensures bc.Contents() == old(bc.Contents()) && bc.disk == old(bc.disk) && bc.trace == old(bc.trace)
  {
    ghost var was := bc.buf;
    bc.Unlock(i);
    assert Referenced(bc.buf) == Referenced(was);
  }

  method PutRef(bc: Bcache, i: nat, ghost pinned: set<nat>)
    requires Calm(bc, pinned) && i < NBUF && bc.holds[i] > (if bc.buf[i].locked then 1 else 0)
    modifies bc
    ensures Calm(bc, pinned)
    ensures bc.Contents() == old(bc.Contents()) && bc.disk == old(bc.disk) && bc.trace == old(bc.trace)
  {
    ghost var was := bc.buf;
    bc.Drop(i);
    SubsetSize(Referenced(bc.buf), Referenced(was));
  }

  /** Any number of steps of readers. */
  method Readers(bc: Bcache, ops: seq<ReadOp>, ghost pinned: set<nat>)
    requires Calm(bc, pinned)
    modifies bc
    ensures Calm(bc, pinned)
    ensures bc.Contents() == old(bc.Contents()) && bc.disk == old(bc.disk) && bc.trace == old(bc.trace)
  {
    hide Calm, Bcache.Contents;
    for n := 0 to |ops|
      invariant Calm(bc, pinned)
      invariant bc.Contents() == old(bc.Contents()) && bc.disk == old(bc.disk) && bc.trace == old(bc.trace)
    {
      ReaderStep(bc, ops[n], pinned);
    }
  }

  // ------------------------------------- cache operations on a block of the log

  /** The caller holds buffer i, which caches block b. */
  ghost predicate Holds(bc: Bcache, i: nat, b: nat)
    reads bc
  {
    i < |bc.buf| && bc.buf[i].locked && bc.buf[i].valid && bc.buf[i].dev == ROOTDEV && bc.buf[i].blockno == b
  }

  /** The buffers that are locked, other than those of block b, have not changed. */
  ghost predicate OthersKept(buf: seq<Buf>, buf': seq<Buf>, b: nat) {
    && |buf| == |buf'| == NBUF
    && forall k :: 0 <= k < NBUF && buf[k].locked && !(buf[k].dev == ROOTDEV && buf[k].blockno == b) ==>
         buf'[k] == buf[k]
  }

  /** bread. */
  method Acquire(bc: Bcache, b: nat, ghost pinned: set<nat>) returns (i: nat)
    requires Users(bc, pinned) && AllLogged(bc, pinned) && b < |bc.disk| && (b in pinned || |Referenced(bc.buf)| < NBUF)
    modifies bc
    ensures Users(bc, pinned) && AllLogged(bc, pinned) && bc.pins == old(bc.pins)
    ensures bc.Contents() == old(bc.Contents()) && bc.disk == old(bc.disk) && bc.trace == old(bc.trace)
    ensures Holds(bc, i, b) && bc.buf[i].data == bc.Contents()[b] && OthersKept(old(bc.buf), bc.buf, b)
    ensures i < NBUF == |old(bc.holds)| && bc.holds == old(bc.holds)[i := old(bc.holds[i]) + 1]
    ensures |Referenced(bc.buf)| <= |Referenced(old(bc.buf))| + 1
  {
    hide Users, AllLogged, Bcache.Contents;
    ghost var b0 := bc.buf;
    i := Take(bc, b, pinned);
    ghost var was := bc.buf;
    Grab(bc, i, pinned);
    assert Referenced(bc.buf) == Referenced(was);
  }

  /** brelse. */
  method Release(bc: Bcache, i: nat, ghost pinned: set<nat>)
    requires Users(bc, pinned) && AllLogged(bc, pinned) && i < NBUF && bc.buf[i].locked
    modifies bc
    ensures Users(bc, pinned) && AllLogged(bc, pinned) && bc.pins == old(bc.pins)
    ensures bc.Contents() == old(bc.Contents()) && bc.disk == old(bc.disk) && bc.trace == old(bc.trace)
    ensures |old(bc.holds)| == NBUF && old(bc.holds[i]) > 0 && bc.holds == old(bc.holds)[i := old(bc.holds[i]) - 1]
    ensures |bc.buf| == |old(bc.buf)| == NBUF && forall k :: 0 <= k < NBUF && k != i ==> bc.buf[k] == old(bc.buf[k])
    ensures Alike(old(bc.buf), bc.buf)
  {
    hide Bcache.Contents;
    assert BufOk(bc.buf[i], i, bc.disk, bc.where, bc.holds[i], bc.pins[i], i in bc.dirty);
    bc.Unlock(i);
    bc.Drop(i);
  }

  /** memmove into a held buffer, then bwrite. */
  method WriteThrough(bc: Bcache, i: nat, data: Block, ghost pinned: set<nat>)
    requires Users(bc, pinned) && AllLogged(bc, pinned) && i < NBUF && bc.buf[i].locked && bc.buf[i].valid
    requires bc.buf[i].dev == ROOTDEV
    modifies bc
    ensures Users(bc, pinned) && AllLogged(bc, pinned) && bc.pins == old(bc.pins) && bc.holds == old(bc.holds)
    ensures i !in bc.dirty
    ensures i < |old(bc.buf)| && bc.buf == old(bc.buf)[i := old(bc.buf[i]).(data := data)]
    ensures bc.buf[i].blockno < |bc.disk| && bc.disk == old(bc.disk)[bc.buf[i].blockno := data]
    ensures bc.trace == old(bc.trace) + [bc.disk]
    ensures bc.Contents() == old(bc.Contents())[bc.buf[i].blockno := data]
  {
    bc.Store(i, data);
    bc.Bwrite(i);
  }

  /** No other buffer caches the block. */
  lemma OnlyBuffer(bc: Bcache, i: nat, b: nat, k: nat)
    requires bc.Valid() && i < NBUF && bc.buf[i].dev == ROOTDEV && bc.buf[i].blockno == b && k < NBUF && k != i
    ensures !(bc.buf[k].dev == ROOTDEV && bc.buf[k].blockno == b)
  {
    if bc.buf[k].dev == ROOTDEV && bc.buf[k].blockno == b {
      CachedOnce(bc.buf, bc.disk, bc.where, bc.holds, bc.pins, bc.dirty, i, k);
    }
  }

  method Unpin(bc: Bcache, i: nat, b: nat, ghost pinned: set<nat>)
    requires Users(bc, pinned) && AllLogged(bc, pinned) && i < NBUF && Holds(bc, i, b) && b in pinned && i !in bc.dirty
    modifies bc
    ensures Users(bc, pinned - {b}) && AllLogged(bc, pinned - {b}) && bc.holds == old(bc.holds)
    ensures bc.Contents() == old(bc.Contents()) && bc.disk == old(bc.disk) && bc.trace == old(bc.trace)
    ensures |bc.pins| == |old(bc.pins)| == NBUF && forall k :: 0 <= k < NBUF ==> bc.pins[k] <= old(bc.pins[k])
    ensures |bc.buf| == |old(bc.buf)| == NBUF && forall k :: 0 <= k < NBUF ==> bc.buf[k].locked == old(bc.buf[k]).locked
  {
    forall k | 0 <= k < NBUF && k != i ensures !(bc.buf[k].dev == ROOTDEV && bc.buf[k].blockno == b) {
      OnlyBuffer(bc, i, b, k);
    }
    bc.Bunpin(i);
  }

  method Pin(bc: Bcache, i: nat, b: nat, ghost pinned: set<nat>)
    requires Users(bc, pinned) && i < NBUF && Holds(bc, i, b) && b !in pinned
    modifies bc
    ensures Users(bc, pinned + {b}) && bc.holds == old(bc.holds) && Holds(bc, i, b)
    ensures bc.Contents() == old(bc.Contents()) && bc.disk == old(bc.disk) && bc.trace == old(bc.trace)
    ensures bc.dirty == old(bc.dirty) && Alike(old(bc.buf), bc.buf)
  {
    forall k | 0 <= k < NBUF && k != i ensures !(bc.buf[k].dev == ROOTDEV && bc.buf[k].blockno == b) {
      OnlyBuffer(bc, i, b, k);
    }
    assert BufOk(bc.buf[i], i, bc.disk, bc.where, bc.holds[i], bc.pins[i], i in bc.dirty);
    bc.Bpin(i);
  }

  /** Two breads, of a log block and then of its home block. */
  method AcquireTwo(bc: Bcache, b: nat, c: nat, ghost pinned: set<nat>) returns (i: nat, j: nat)
    requires Calm(bc, pinned) && b < |bc.disk| && c < |bc.disk| && b != c
    modifies bc
    ensures Users(bc, pinned) && AllLogged(bc, pinned) && bc.pins == old(bc.pins)
    ensures bc.Contents() == old(bc.Contents()) && bc.disk == old(bc.disk) && bc.trace == old(bc.trace)
    ensures Holds(bc, i, b) && bc.buf[i].data == bc.Contents()[b]
    ensures Holds(bc, j, c) && bc.buf[j].data == bc.Contents()[c]
    ensures i != j && i < NBUF && j < NBUF == |old(bc.holds)|
    ensures bc.holds == old(bc.holds)[i := old(bc.holds[i]) + 1][j := old(bc.holds[j]) + 1]
  {
    hide Users, AllLogged, Bcache.Contents;
    i := Acquire(bc, b, pinned);
    j := Acquire(bc, c, pinned);
  }

  method ReleaseTwo(bc: Bcache, i: nat, j: nat, ghost pinned: set<nat>)
    requires Users(bc, pinned) && AllLogged(bc, pinned) && i < NBUF && j < NBUF && i != j && bc.buf[i].locked
    requires bc.buf[j].locked
    modifies bc
    ensures Users(bc, pinned) && AllLogged(bc, pinned) && bc.pins == old(bc.pins)
    ensures bc.Contents() == old(bc.Contents()) && bc.disk == old(bc.disk) && bc.trace == old(bc.trace)
    ensures |old(bc.holds)| == NBUF && old(bc.holds[i]) > 0 && old(bc.holds[j]) > 0
    ensures bc.holds == old(bc.holds)[i := old(bc.holds[i]) - 1][j := old(bc.holds[j]) - 1]
  {
    hide Users, AllLogged, Bcache.Contents;
    Release(bc, i, pinned);
    Release(bc, j, pinned);
  }

  /** A block that is not logged shows as it is on disk. */
  lemma UnpinnedClean(bc: Bcache, pinned: set<nat>, b: nat)
    requires Users(bc, pinned) && AllLogged(bc, pinned) && b < |bc.disk| && b !in pinned
    ensures bc.Contents()[b] == bc.disk[b]
  {
    if b in bc.where {
      var i := bc.where[b];
      assert BufOk(bc.buf[i], i, bc.disk, bc.where, bc.holds[i], bc.pins[i], i in bc.dirty);
    }
  }

  // ------------------------------------------------------------ the log header

  method EncodeHeader(b: Block, lh: seq<nat>) returns (r: Block)
    requires Encodable(lh)
    ensures r == SetHeader(b, lh)
  {
    r := SetWord(b, 0, |lh|);
    for i := 0 to |lh|
      invariant r == SetEntries(SetWord(b, 0, |lh|), lh, i)
    {
      r := SetWord(r, 1 + i, lh[i]);
    }
  }

  method DecodeHeader(b: Block) returns (lh: seq<nat>)
    requires Word(b, 0) < WORDS
    ensures lh == Header(b)
  {
    lh := [];
    for i := 0 to Word(b, 0)
      invariant lh == Entries(b, i)
    {
      lh := lh + [Word(b, 1 + i)];
    }
  }

  /** t lists the disks after each copy write_log has made so far. */
  ghost predicate Copied(d: Disk, l: Layout, vals: seq<Block>, t: seq<Disk>)
    requires l.Fits(d) && |vals| < l.size
  {
    |t| <= |vals| && forall i :: 0 <= i < |t| ==> t[i] == LogCopied(d, l, vals, i + 1)
  }

  /** t lists the disks after each copy install_trans has made so far. */
  ghost predicate Installed(d: Disk, l: Layout, lh: seq<nat>, t: seq<Disk>)
    requires Loggable(d, l, lh)
  {
    |t| <= |lh| && forall i :: 0 <= i < |t| ==> t[i] == Install(d, l, lh, i + 1)
  }

  lemma CopiedMore(d: Disk, l: Layout, vals: seq<Block>, t: seq<Disk>, e: Disk)
    requires l.Fits(d) && |t| < |vals| < l.size && Copied(d, l, vals, t)
    requires e == LogCopied(d, l, vals, |t|)[l.start + 1 + |t| := vals[|t|]]
    ensures Copied(d, l, vals, t + [e]) && e == LogCopied(d, l, vals, |t| + 1)
  {
    LogCopyStep(d, l, vals, |t|);
  }

  lemma InstalledMore(d: Disk, l: Layout, lh: seq<nat>, t: seq<Disk>, e: Disk)
    requires Loggable(d, l, lh) && |t| < |lh| && Installed(d, l, lh, t)
    requires var i := Install(d, l, lh, |t|); e == i[lh[|t|] := i[l.start + 1 + |t|]]
    ensures Installed(d, l, lh, t + [e]) && e == Install(d, l, lh, |t| + 1)
  {
    InstallStep(d, l, lh, |t|);
  }

  /** Writing into the log changes no home block. */
  lemma LogWriteKeepsHome(x: Disk, y: Disk, l: Layout, lh: seq<nat>, k: nat)
    requires SameHome(x, y, l) && Loggable(x, l, lh) && k < |lh|
    ensures |x| == |y| && y[lh[k]] == x[lh[k]] && SameHome(x, y[l.start + 1 + k := y[lh[k]]], l)
  {
  }

  /** The blocks still pinned once the first k of lh are installed. */
  ghost predicate StillPinned(pinned: set<nat>, lh: seq<nat>, k: nat)
    requires k <= |lh|
  {
    forall b :: b in pinned <==> b in lh[k..]
  }

  lemma PinLogged(pinned: set<nat>, lh: seq<nat>, b: nat)
    requires StillPinned(pinned, lh, 0)
    ensures b in pinned <==> b in lh
    ensures StillPinned(pinned + {b}, if b in lh then lh else lh + [b], 0)
  {
    assert lh[0..] == lh && (lh + [b])[0..] == lh + [b];
    if b in lh {
      assert pinned + {b} == pinned;
    }
  }

  lemma UnpinNext(pinned: set<nat>, lh: seq<nat>, k: nat)
    requires k < |lh| && StillPinned(pinned, lh, k) && Distinct(lh)
    ensures lh[k] in pinned && StillPinned(pinned - {lh[k]}, lh, k + 1)
  {
    assert lh[k..] == [lh[k]] + lh[k + 1..];
  }

  class Log {
    const bc: Bcache
    const l: Layout
    /** lh.block[0 .. lh.n]. */
    var lh: seq<nat>
    var outstanding: nat
    var committing: bool

    constructor (bc: Bcache, l: Layout)
      ensures this.bc == bc && this.l == l && lh == [] && outstanding == 0 && !committing
    {
      this.bc, this.l, lh, outstanding, committing := bc, l, [], 0, false;
    }

    /** One iteration of write_log. */
    method WriteLogOne(tail: nat, ghost pinned: set<nat>)
      requires Calm(bc, pinned) && tail < |lh| && lh[tail] < |bc.disk| && l.start + 1 + tail < |bc.disk|
      requires lh[tail] != l.start + 1 + tail
      modifies bc
      ensures Calm(bc, pinned) && |bc.disk| == |old(bc.disk)|
      ensures bc.disk == old(bc.disk)[l.start + 1 + tail := old(bc.Contents())[lh[tail]]]
      ensures bc.trace == old(bc.trace) + [bc.disk]
      ensures bc.Contents() == old(bc.Contents())[l.start + 1 + tail := old(bc.Contents())[lh[tail]]]
    {
      hide Users, AllLogged, Bcache.Contents;
      ghost var h := bc.holds;
      ghost var was := Snap(bc);
      CalmBefore(bc, pinned);
      var to, from := AcquireTwo(bc, l.start + 1 + tail, lh[tail], pinned);
      WriteThrough(bc, to, bc.buf[from].data, pinned);
      ReleaseTwo(bc, from, to, pinned);
      assert bc.holds == h;
      StillCalm(was, bc, pinned);
    }

    /** write_log has made |t| copies since the disk was d and the cache showed `first`. */
    ghost predicate Copying(d: Disk, first: Disk, before: seq<Disk>, pinned: set<nat>, t: seq<Disk>)
      reads this, bc
    {
      && Loggable(d, l, lh) && |first| == |d| && Calm(bc, pinned)
      && Copied(d, l, Values(first, lh), t) && bc.disk == LogCopied(d, l, Values(first, lh), |t|)
      && bc.trace == before + t && SameHome(first, bc.Contents(), l)
    }

    method WriteLogNext(ghost d: Disk, ghost first: Disk, ghost before: seq<Disk>, ghost pinned: set<nat>,
                        ghost t: seq<Disk>,
                        tail: nat, ops: seq<ReadOp>)
      returns (ghost t': seq<Disk>)
      requires Copying(d, first, before, pinned, t) && tail == |t| < |lh|
      modifies bc
      ensures Copying(d, first, before, pinned, t') && |t'| == tail + 1
    {
      hide LogCopied, Calm, Copied, Bcache.Contents;
      Readers(bc, ops, pinned);
      ghost var shown := bc.Contents();
      LogWriteKeepsHome(first, shown, l, lh, tail);
      WriteLogOne(tail, pinned);
      CopiedMore(d, l, Values(first, lh), t, bc.disk);
      t' := t + [bc.disk];
    }

    /** write_log: copy every logged block from the cache into the log. */
    method WriteLog(ghost pinned: set<nat>, readers: nat -> seq<ReadOp>) returns (ghost t: seq<Disk>)
      requires Calm(bc, pinned) && Loggable(bc.disk, l, lh)
      modifies bc
      ensures Copying(old(bc.disk), old(bc.Contents()), old(bc.trace), pinned, t) && |t| == |lh|
    {
      hide Calm;
      ghost var d, first, before := bc.disk, bc.Contents(), bc.trace;
      t := [];
      LogCopiedNone(d, l, Values(first, lh));
      for tail := 0 to |lh|
        invariant Copying(d, first, before, pinned, t) && |t| == tail
      {
        t := WriteLogNext(d, first, before, pinned, t, tail, readers(tail));
      }
    }

    /** write_head. */
    method WriteHead(ghost pinned: set<nat>, ops: seq<ReadOp>)
      requires Calm(bc, pinned) && l.Fits(bc.disk) && Encodable(lh)
      modifies bc
      ensures Calm(bc, pinned) && |bc.disk| == |old(bc.disk)|
      ensures bc.disk == old(bc.disk)[l.start := bc.disk[l.start]] && Header(bc.disk[l.start]) == lh
      ensures bc.trace == old(bc.trace) + [bc.disk]
      ensures SameHome(old(bc.Contents()), bc.Contents(), l)
    {
      hide Users, AllLogged, Bcache.Contents, Header;
      Readers(bc, ops, pinned);
      ghost var h := bc.holds;
      ghost var was := Snap(bc);
      CalmBefore(bc, pinned);
      var i := Acquire(bc, l.start, pinned);
      var b := EncodeHeader(bc.buf[i].data, lh);
      HeaderRoundTrip(bc.buf[i].data, lh);
      WriteThrough(bc, i, b, pinned);
      Release(bc, i, pinned);
      assert bc.holds == h;
      StillCalm(was, bc, pinned);
    }

    /** One iteration of install_trans; a commit unpins the block, recovery does not. */
    method InstallOne(tail: nat, recovering: bool, ghost pinned: set<nat>)
      requires Calm(bc, pinned) && Loggable(bc.disk, l, lh) && tail < |lh| && l.start + 1 + tail !in pinned
      requires if recovering then pinned == {} else lh[tail] in pinned
      modifies bc
      ensures Calm(bc, pinned - {lh[tail]})
      ensures |bc.disk| == |old(bc.disk)| && bc.disk == old(bc.disk)[lh[tail] := old(bc.disk)[l.start + 1 + tail]]
      ensures bc.trace == old(bc.trace) + [bc.disk]
      ensures bc.Contents() == old(bc.Contents())[lh[tail] := old(bc.disk)[l.start + 1 + tail]]
    {
      hide Users, AllLogged, Bcache.Contents;
      UnpinnedClean(bc, pinned, l.start + 1 + tail);
      ghost var h := bc.holds;
      ghost var was := Snap(bc);
      CalmBefore(bc, pinned);
      var lbuf, dbuf := AcquireTwo(bc, l.start + 1 + tail, lh[tail], pinned);
      WriteThrough(bc, dbuf, bc.buf[lbuf].data, pinned);
      if !recovering {
        Unpin(bc, dbuf, lh[tail], pinned);
      } else {
        assert pinned - {lh[tail]} == pinned;
      }
      ReleaseTwo(bc, lbuf, dbuf, pinned - {lh[tail]});
      assert bc.holds == h;
      StillCalm(was, bc, pinned - {lh[tail]});
    }

    /** install_trans has made |t| copies since the disk was d; `left` is still pinned. */
    ghost predicate Installing(d: Disk, before: seq<Disk>, recovering: bool, left: set<nat>, t: seq<Disk>)
      reads this, bc
    {
      && Loggable(d, l, lh) && Calm(bc, left)
      && Installed(d, l, lh, t) && bc.disk == Install(d, l, lh, |t|) && bc.trace == before + t
      && if recovering then left == {} else Distinct(lh) && StillPinned(left, lh, |t|)
    }

    method InstallNext(ghost d: Disk, ghost before: seq<Disk>, recovering: bool, ghost left: set<nat>,
                       ghost t: seq<Disk>,
                       tail: nat, ops: seq<ReadOp>)
      returns (ghost t': seq<Disk>)
      requires Installing(d, before, recovering, left, t) && tail == |t| < |lh|
      modifies bc
      ensures Installing(d, before, recovering, left - {lh[tail]}, t') && |t'| == tail + 1
    {
      hide Install, Calm, Installed, Bcache.Contents;
      if !recovering {
        UnpinNext(left, lh, tail);
        LogNotPinned(d, l, left, lh, tail);
      }
      Readers(bc, ops, left);
      InstallOne(tail, recovering, left);
      InstalledMore(d, l, lh, t, bc.disk);
      t' := t + [bc.disk];
    }

    /** install_trans. */
    method InstallTrans(recovering: bool, ghost pinned: set<nat>,
                        readers: nat -> seq<ReadOp>) returns (ghost t: seq<Disk>)
      requires Calm(bc, pinned) && Loggable(bc.disk, l, lh)
      requires if recovering then pinned == {} else Distinct(lh) && StillPinned(pinned, lh, 0)
      modifies bc
      ensures Installing(old(bc.disk), old(bc.trace), recovering, {}, t) && |t| == |lh|
    {
      hide Calm;
      ghost var d, before, left := bc.disk, bc.trace, pinned;
      t := [];
      InstallNone(d, l, lh);
      for tail := 0 to |lh|
        invariant Installing(d, before, recovering, left, t) && |t| == tail
      {
        t := InstallNext(d, before, recovering, left, t, tail, readers(tail));
        left := left - {lh[tail]};
      }
      assert left == {};
    }

    /** The first half of commit: write_log, then write_head, the commit point. */
    method Prepare(ghost pinned: set<nat>, readers: nat -> seq<ReadOp>) returns (ghost t: seq<Disk>)
      requires Calm(bc, pinned) && Loggable(bc.disk, l, lh)
      modifies bc
      ensures Calm(bc, pinned) && |t| == |lh|
      ensures var vals := Values(old(bc.Contents()), lh);
              Copied(old(bc.disk), l, vals, t) && CommitPoint(old(bc.disk), l, lh, vals, bc.disk)
      ensures Loggable(bc.disk, l, lh) && Header(bc.disk[l.start]) == lh
      ensures bc.trace == old(bc.trace) + t + [bc.disk]
    {
      hide Calm, Copied, LogCopied, SameHome, Bcache.Contents, CommitPoint;
      ghost var d, vals := bc.disk, Values(bc.Contents(), lh);
      t := WriteLog(pinned, readers);
      WriteHead(pinned, readers(|lh|));
      CopiedThenHeader(d, l, lh, vals, bc.disk);
    }

    /** The second half: install_trans, then write_head with an empty header. Recovery is
        this half alone. */
    method Finish(recovering: bool, ghost pinned: set<nat>, readers: nat -> seq<ReadOp>) returns (ghost t: seq<Disk>)
      requires Calm(bc, pinned) && Loggable(bc.disk, l, lh)
      requires if recovering then pinned == {} else Distinct(lh) && StillPinned(pinned, lh, 0)
      requires Header(bc.disk[l.start]) == lh
      modifies this`lh, bc
      ensures Calm(bc, {}) && lh == []
      ensures WfLog(old(bc.disk), l) && RecoverTrace(old(bc.disk), l, t) && |t| > 0
      ensures bc.trace == old(bc.trace) + t && bc.disk == t[|t| - 1]
    {
      hide Calm, Installed, Install, SameHome, RecoverTrace, Bcache.Contents;
      ghost var c := bc.disk;
      var logged := lh;
      ghost var installed := InstallTrans(recovering, pinned, readers);
      lh := [];
      WriteHead({}, readers(|logged|));
      RecoverTraceFrom(c, l, logged, installed, bc.disk);
      t := installed + [bc.disk];
    }

    /** commit, with any steps of readers before each of its disk writes: the disk goes
        through exactly a commit trace; nothing stays logged or pinned. */
    method Commit(ghost pinned: set<nat>, readers: nat -> seq<ReadOp>) returns (ghost t: seq<Disk>)
      requires Calm(bc, pinned) && Loggable(bc.disk, l, lh) && Distinct(lh) && StillPinned(pinned, lh, 0)
      modifies this`lh, bc
      ensures Calm(bc, {}) && lh == []
      ensures old(lh) == [] ==>
                t == [] && bc.disk == old(bc.disk) && bc.trace == old(bc.trace) && bc.Contents() == old(bc.Contents())
      ensures old(lh) != [] ==> CommitTrace(old(bc.disk), l, old(lh), Values(old(bc.Contents()), old(lh)), t)
      ensures old(lh) != [] ==> bc.trace == old(bc.trace) + t && |t| > 0 && bc.disk == t[|t| - 1]
    {
      hide Calm, Copied, CommitPoint, CommitTrace, RecoverTrace, SameHome, Header, Bcache.Contents;
      t := [];
      if |lh| > 0 {
        ghost var d, vals := bc.disk, Values(bc.Contents(), lh);
        var logged := lh;
        ghost var copied := Prepare(pinned, readers);
        ghost var c := bc.disk;
        ghost var rest := Finish(false, pinned, (k: nat) => readers(|logged| + 1 + k));
        t := copied + [c] + rest;
        CommitTraceFrom(d, l, logged, vals, copied, c, rest);
      } else {
        assert pinned == {};
      }
    }

    /** The loop of log_write: where b is logged, |lh| if nowhere. */
    method Find(b: nat) returns (k: nat)
      ensures k <= |lh| && (k < |lh| ==> lh[k] == b) && (k == |lh| <==> b !in lh)
    {
      k := 0;
      while k < |lh|
        invariant 0 <= k <= |lh| && b !in lh[..k]
      {
        if lh[k] == b {
          return;
        }
        k := k + 1;
      }
      assert lh[..k] == lh;
    }

    /** log_write, by the holder of a changed buffer: record the block and pin it unless
        it is logged already. The panics are excluded by the precondition. */
    method LogWrite(i: nat, b: nat, ghost pinned: set<nat>) returns (ghost pinned': set<nat>)
      requires Users(bc, pinned) && i < NBUF && Holds(bc, i, b)
      requires Loggable(bc.disk, l, lh) && Distinct(lh) && StillPinned(pinned, lh, 0)
      requires l.Home(b) && b < |bc.disk| && b < 0x1_0000_0000
      requires |lh| < LOGSIZE && |lh| < l.size - 1 && outstanding >= 1
      modifies this`lh, bc
      ensures lh == if b in old(lh) then old(lh) else old(lh) + [b]
      ensures pinned' == pinned + {b} && Users(bc, pinned') && Holds(bc, i, b) && bc.holds == old(bc.holds)
      ensures bc.dirty == old(bc.dirty) && Alike(old(bc.buf), bc.buf)
      ensures Loggable(bc.disk, l, lh) && Distinct(lh) && StillPinned(pinned', lh, 0)
      ensures bc.Contents() == old(bc.Contents()) && bc.disk == old(bc.disk) && bc.trace == old(bc.trace)
    {
      hide Users, Bcache.Contents, Alike;
      SelfAlike(bc.buf);
      var k := Find(b);
      PinLogged(pinned, lh, b);
      pinned' := pinned + {b};
      if k == |lh| {
        assert lh[0..] == lh;
        Pin(bc, i, b, pinned);
        lh := lh + [b];
      } else {
        assert b in lh && pinned' == pinned;
      }
    }

    /** One turn of the begin_op loop; false means the caller sleeps and tries again. LogRuns
        says what a start means. */
    method BeginOp() returns (started: bool)
      modifies this`outstanding
      ensures started <==> !committing && |lh| + (old(outstanding) + 1) * MAXOPBLOCKS <= LOGSIZE
      ensures outstanding == if started then old(outstanding) + 1 else old(outstanding)
    {
      if committing || |lh| + (outstanding + 1) * MAXOPBLOCKS > LOGSIZE {
        return false;
      }
      outstanding := outstanding + 1;
      return true;
    }

    /** end_op: the last operation out commits, while readers go on. Everything the cache
        showed is then on disk, through a disk trace that is all or nothing at every point.
        An operation that is not the last touches no buffer. */
    method EndOp(ghost pinned: set<nat>, readers: nat -> seq<ReadOp>) returns (committed: bool, ghost t: seq<Disk>)
      requires outstanding >= 1 && !committing
      requires outstanding == 1 ==>
                Calm(bc, pinned) && Loggable(bc.disk, l, lh) && Distinct(lh) && StillPinned(pinned, lh, 0)
      modifies this, bc
      ensures !committing && outstanding == old(outstanding) - 1 && (committed <==> outstanding == 0)
      ensures !committed ==> lh == old(lh) && unchanged(bc)
      ensures committed ==> lh == [] && Calm(bc, {}) && bc.trace == old(bc.trace) + t
      ensures committed && old(lh) != [] ==>
                CommitTrace(old(bc.disk), l, old(lh), Values(old(bc.Contents()), old(lh)), t)
      ensures committed && old(lh) != [] ==> l.Fits(old(bc.Contents())) && Cleared(old(bc.Contents()), l, bc.disk)
      ensures committed && old(lh) != [] ==> |t| > 0 && bc.disk == t[|t| - 1]
      ensures committed && old(lh) == [] ==> t == [] && bc.disk == old(bc.disk) && bc.Contents() == old(bc.Contents())
    {
      hide Calm, CommitTrace, Cleared, Bcache.Contents;
      outstanding := outstanding - 1;
      t := [];
      committed := outstanding == 0;
      if committed {
        committing := true;
        CacheUnlogged(pinned);
        ghost var d, cur, logged := bc.disk, bc.Contents(), lh;
        t := Commit(pinned, readers);
        if logged != [] {
          CommitOver(l, d, logged, cur, t);
        }
        committing := false;
      }
    }

    lemma CacheUnlogged(pinned: set<nat>)
      requires Calm(bc, pinned) && StillPinned(pinned, lh, 0)
      ensures Unlogged(l, bc.Contents(), lh, bc.disk)
    {
      hide Users, AllLogged, Bcache.Contents;
      forall b | 0 <= b < |bc.disk| && Pos(lh, |lh|, b) < 0 ensures bc.Contents()[b] == bc.disk[b] {
        PosAbsent(lh, |lh|, b);
        assert lh[..|lh|] == lh && lh[0..] == lh;
        UnpinnedClean(bc, pinned, b);
      }
    }

    /** recover_from_log, at boot. */
    method Recover() returns (ghost t: seq<Disk>)
      requires Calm(bc, {}) && WfLog(bc.disk, l)
      modifies this`lh, bc
      ensures Calm(bc, {}) && lh == []
      ensures RecoverTrace(old(bc.disk), l, t)
      ensures bc.trace == old(bc.trace) + t && bc.disk == t[|t| - 1]
    {
      hide Calm, RecoverTrace, Bcache.Contents;
      ReadHead();
      t := Finish(true, {}, _ => []);
    }

    /** read_head. */
    method ReadHead()
      requires Calm(bc, {}) && l.Fits(bc.disk) && Word(bc.disk[l.start], 0) < WORDS
      modifies this`lh, bc
      ensures Calm(bc, {}) && bc.disk == old(bc.disk) && bc.trace == old(bc.trace)
      ensures lh == Header(bc.disk[l.start])
    {
      hide Users, AllLogged, Bcache.Contents, Header;
      UnpinnedClean(bc, {}, l.start);
      ghost var h := bc.holds;
      ghost var was := Snap(bc);
      CalmBefore(bc, {});
      var i := Acquire(bc, l.start, {});
      lh := DecodeHeader(bc.buf[i].data);
      Release(bc, i, {});
      assert bc.holds == h;
      StillCalm(was, bc, {});
    }
  }

  /** The parts of the cache that a commit leaves as they were. */
  datatype Snapshot = Snapshot(buf: seq<Buf>, disk: Disk, where: map<nat, nat>, holds: seq<nat>, pins: seq<nat>,
                               dirty: set<nat>)

  ghost function Snap(bc: Bcache): (s: Snapshot)
    reads bc
  {
    Snapshot(bc.buf, bc.disk, bc.where, bc.holds, bc.pins, bc.dirty)
  }

  ghost predicate WasCalm(s: Snapshot) {
    Coherent(s.buf, s.disk, s.where, s.holds, s.pins, s.dirty) && |Referenced(s.buf)| + 2 <= NBUF
  }

  lemma StillCalm(was: Snapshot, bc: Bcache, pinned: set<nat>)
    requires WasCalm(was) && Users(bc, pinned) && AllLogged(bc, pinned) && bc.holds == was.holds
    requires |bc.pins| == |was.pins| && forall i :: 0 <= i < |bc.pins| ==> bc.pins[i] <= was.pins[i]
    ensures Calm(bc, pinned)
  {
    hide Referenced;
    NoMoreReferenced(was.buf, was.disk, was.where, was.holds, was.pins, was.dirty, bc.buf, bc.disk, bc.where, bc.pins,
                     bc.dirty);
  }

  lemma CalmBefore(bc: Bcache, pinned: set<nat>)
    requires Calm(bc, pinned)
    ensures WasCalm(Snap(bc)) && |bc.pins| == NBUF
  {
  }

  lemma LogNotPinned(d: Disk, l: Layout, pinned: set<nat>, lh: seq<nat>, k: nat)
    requires Loggable(d, l, lh) && k < |lh| && StillPinned(pinned, lh, k)
    ensures l.start + 1 + k !in pinned
  {
  }

  lemma CopiedThenHeader(d: Disk, l: Layout, lh: seq<nat>, vals: seq<Block>, c: Disk)
    requires Loggable(d, l, lh) && |vals| == |lh| && |c| == |d|
    requires Header(c[l.start]) == lh && c == LogCopied(d, l, vals, |lh|)[l.start := c[l.start]]
    ensures CommitPoint(d, l, lh, vals, c) && Loggable(c, l, lh)
  {
    hide Header;
  }

  lemma CommitTraceFrom(d: Disk, l: Layout, lh: seq<nat>, vals: seq<Block>, t1: seq<Disk>, c: Disk, t2: seq<Disk>)
    requires Loggable(d, l, lh) && |vals| == |lh| && |t1| == |lh| && Copied(d, l, vals, t1)
    requires CommitPoint(d, l, lh, vals, c) && WfLog(c, l) && RecoverTrace(c, l, t2)
    ensures CommitTrace(d, l, lh, vals, t1 + [c] + t2)
  {
    hide Install, LogCopied, Header;
    var t := t1 + [c] + t2;
    assert t[|lh| + 1..] == t2;
  }

  lemma RecoverTraceFrom(c: Disk, l: Layout, lh: seq<nat>, t: seq<Disk>, e: Disk)
    requires Loggable(c, l, lh) && Header(c[l.start]) == lh && |t| == |lh| && Installed(c, l, lh, t)
    requires |e| == |c| && e == Install(c, l, lh, |lh|)[l.start := e[l.start]] && Header(e[l.start]) == []
    ensures WfLog(c, l) && RecoverTrace(c, l, t + [e])
  {
    hide Install;
  }

  ghost predicate Distinct(lh: seq<nat>) {
    forall i, j :: 0 <= i < j < |lh| ==> lh[i] != lh[j]
  }
}
