/**
 The buffer cache: NBUF buffers in a doubly linked list, most recently used first.
 Bget, Drop, Bpin and Bunpin each run under bcache.lock; Lock and Unlock are acquiresleep
 and releasesleep on a buffer; Fill, Store and Bwrite are what its holder does. bread is
 Bget, Lock, Fill and brelse is Unlock, Drop. Valid() holds in every state that any
 interleaving of these steps reaches.
 */
module BufferCache {
  import opened Blocks
  import opened LogSpec

  const NBUF := 30
  const ROOTDEV := 1
  /** bcache.head as a list node. */
  const HEAD := NBUF

  /** struct buf without its links; dev 0 marks a buffer never used. */
  datatype Buf = Buf(valid: bool, dev: nat, blockno: nat, refcnt: nat, locked: bool, data: Block)

  // -------------------------------------------------------------- the LRU list

  /** Node k of the ring made of HEAD and then order. */
  ghost function Node(order: seq<nat>, k: int): (n: nat)
    requires -1 <= k <= |order|
  {
    if 0 <= k < |order| then order[k] else HEAD
  }

  /** prev and next link HEAD and the buffers of `order`, in that order, in a ring. */
  ghost predicate Ring(prev: seq<nat>, next: seq<nat>, order: seq<nat>) {
    && |prev| == |next| == NBUF + 1
    && (forall k :: 0 <= k < |order| ==> order[k] < NBUF)
    && (forall j, k :: 0 <= j < k < |order| ==> order[j] != order[k])
    && (forall j, k {:trigger Node(order, j), Node(order, k)} :: -1 <= j && k == j + 1 <= |order| ==>
          next[Node(order, j)] == Node(order, k) && prev[Node(order, k)] == Node(order, j))
  }

  ghost function Without(order: seq<nat>, k: nat): (r: seq<nat>)
    requires k < |order|
  {
    order[..k] + order[k + 1..]
  }

  /** b->next->prev = b->prev; b->prev->next = b->next. */
  method Unlink(prev: seq<nat>, next: seq<nat>, b: nat, ghost order: seq<nat>, ghost k: nat)
    returns (prev': seq<nat>, next': seq<nat>)
    requires Ring(prev, next, order) && k < |order| && order[k] == b
    ensures Ring(prev', next', Without(order, k))
  {
    assert Node(order, k) == b && Node(order, k - 1) == prev[b] && Node(order, k + 1) == next[b];
    prev' := prev[next[b] := prev[b]];
    next' := next[prev[b] := next[b]];
    ghost var r := Without(order, k);
    forall i, j | -1 <= i && j == i + 1 <= |r|
      ensures next'[Node(r, i)] == Node(r, j) && prev'[Node(r, j)] == Node(r, i)
    {
      assert Node(r, i) == Node(order, if i < k then i else i + 1);
      assert Node(r, j) == Node(order, if j < k then j else j + 1);
    }
  }

  /** Link b in right after head. */
  method PushFront(prev: seq<nat>, next: seq<nat>, b: nat, ghost order: seq<nat>)
    returns (prev': seq<nat>, next': seq<nat>)
    requires Ring(prev, next, order) && b < NBUF && b !in order
    ensures Ring(prev', next', [b] + order)
  {
    var first := next[HEAD];
    assert Node(order, -1) == HEAD && Node(order, 0) == first;
    next' := next[b := first];
    prev' := prev[b := HEAD];
    prev' := prev'[first := b];
    next' := next'[HEAD := b];
    ghost var r := [b] + order;
    forall i, j | -1 <= i && j == i + 1 <= |r|
      ensures next'[Node(r, i)] == Node(r, j) && prev'[Node(r, j)] == Node(r, i)
    {
      if i >= 1 {
        assert Node(r, i) == Node(order, i - 1) && Node(r, j) == Node(order, j - 1);
      } else if i == 0 {
        assert Node(r, j) == Node(order, 0);
      }
    }
  }

  // --------------------------------------------------------- buffers and disk

  /**
   `where` gives the buffer of each cached block of ROOTDEV. A buffer's refcnt counts
   its users (holding or waiting for its lock) and the log's pins. Only a dirty buffer
   may differ from its disk block, and it is locked or pinned.
   */
  ghost predicate Coherent(buf: seq<Buf>, disk: Disk, where: map<nat, nat>, holds: seq<nat>, pins: seq<nat>,
                           dirty: set<nat>) {
    && |buf| == |holds| == |pins| == NBUF
    && (forall i :: 0 <= i < NBUF ==> BufOk(buf[i], i, disk, where, holds[i], pins[i], i in dirty))
    && (forall b :: b in where ==> where[b] < NBUF && buf[where[b]].dev == ROOTDEV && buf[where[b]].blockno == b)
  }

  ghost predicate BufOk(x: Buf, i: nat, disk: Disk, where: map<nat, nat>, holds: nat, pins: nat, dirty: bool) {
    && x.refcnt == holds + pins
    && (x.locked ==> holds > 0)
    && (x.dev == 0 ==> !x.valid)
    && (x.dev != 0 ==> x.dev == ROOTDEV && x.blockno < |disk| && x.blockno in where && where[x.blockno] == i)
    && (dirty ==> x.valid && (x.locked || pins > 0))
    && (x.valid && !dirty ==> x.data == disk[x.blockno])
  }

  /** What a reader sees of block b: its valid buffer if it has one, else the disk. */
  ghost function View(buf: seq<Buf>, disk: Disk, where: map<nat, nat>, b: nat): (r: Block)
    requires b < |disk|
  {
    if b in where && where[b] < |buf| && buf[where[b]].valid then buf[where[b]].data else disk[b]
  }

  ghost predicate SameView(buf: seq<Buf>, disk: Disk, where: map<nat, nat>, buf': seq<Buf>, disk': Disk,
                           where': map<nat, nat>) {
    && |disk'| == |disk|
    && forall b :: 0 <= b < |disk| ==> View(buf', disk', where', b) == View(buf, disk, where, b)
  }

  /** At most one buffer caches a block. */
  lemma CachedOnce(buf: seq<Buf>, disk: Disk, where: map<nat, nat>, holds: seq<nat>, pins: seq<nat>, dirty: set<nat>,
                   i: nat, j: nat)
    requires Coherent(buf, disk, where, holds, pins, dirty)
    requires i < NBUF && j < NBUF && buf[i].dev != 0
    requires buf[i].dev == buf[j].dev && buf[i].blockno == buf[j].blockno
    ensures i == j
  {
    assert BufOk(buf[i], i, disk, where, holds[i], pins[i], i in dirty);
    assert BufOk(buf[j], j, disk, where, holds[j], pins[j], j in dirty);
  }

  /** A buffer nobody refers to agrees with the disk, so reusing it loses nothing. */
  lemma UnreferencedIsClean(buf: seq<Buf>, disk: Disk, where: map<nat, nat>, holds: seq<nat>, pins: seq<nat>,
                            dirty: set<nat>, i: nat)
    requires Coherent(buf, disk, where, holds, pins, dirty)
    requires i < NBUF && buf[i].refcnt == 0 && buf[i].valid
    ensures i !in dirty && buf[i].data == disk[buf[i].blockno]
  {
    assert BufOk(buf[i], i, disk, where, holds[i], pins[i], i in dirty);
  }

  /** The map of cached blocks once buffer i is given to block b. */
  ghost function Rehomed(buf: seq<Buf>, where: map<nat, nat>, i: nat, b: nat): (w: map<nat, nat>)
    requires i < |buf|
  {
    (if buf[i].dev == ROOTDEV then where - {buf[i].blockno} else where)[b := i]
  }

  lemma RecycleCoherent(buf: seq<Buf>, disk: Disk, where: map<nat, nat>, holds: seq<nat>, pins: seq<nat>,
                        dirty: set<nat>,
                        i: nat, b: nat, x: Buf)
    requires Coherent(buf, disk, where, holds, pins, dirty)
    requires i < NBUF && buf[i].refcnt == 0 && b < |disk| && b !in where
    requires x == Buf(false, ROOTDEV, b, 1, buf[i].locked, buf[i].data)
    ensures var where' := Rehomed(buf, where, i, b);
            && Coherent(buf[i := x], disk, where', holds[i := 1], pins, dirty)
            && SameView(buf, disk, where, buf[i := x], disk, where')
  {
    var where', buf', holds' := Rehomed(buf, where, i, b), buf[i := x], holds[i := 1];
    assert BufOk(buf[i], i, disk, where, holds[i], pins[i], i in dirty);
    forall k | 0 <= k < NBUF ensures BufOk(buf'[k], k, disk, where', holds'[k], pins[k], k in dirty) {
      assert BufOk(buf[k], k, disk, where, holds[k], pins[k], k in dirty);
    }
    forall c | 0 <= c < |disk| ensures View(buf', disk, where', c) == View(buf, disk, where, c) {
      if c in where && where[c] != i {
        assert c in where' && where'[c] == where[c];
      }
    }
  }

  /** Changing one buffer without changing its identity. */
  lemma UpdateCoherent(buf: seq<Buf>, disk: Disk, where: map<nat, nat>, holds: seq<nat>, pins: seq<nat>,
                       dirty: set<nat>,
                       i: nat, x: Buf, disk': Disk, hold: nat, pin: nat, dirty': set<nat>)
    requires Coherent(buf, disk, where, holds, pins, dirty) && i < NBUF
    requires x.dev == buf[i].dev && x.blockno == buf[i].blockno
    requires |disk'| == |disk| && forall b :: 0 <= b < |disk| && (b != x.blockno || x.dev == 0) ==> disk'[b] == disk[b]
    requires forall k :: k != i ==> (k in dirty <==> k in dirty')
    requires BufOk(x, i, disk', where, hold, pin, i in dirty')
    ensures Coherent(buf[i := x], disk', where, holds[i := hold], pins[i := pin], dirty')
    ensures forall b :: 0 <= b < |disk| && (b != x.blockno || x.dev == 0) ==>
              View(buf[i := x], disk', where, b) == View(buf, disk, where, b)
  {
    var buf', holds', pins' := buf[i := x], holds[i := hold], pins[i := pin];
    forall k | 0 <= k < NBUF ensures BufOk(buf'[k], k, disk', where, holds'[k], pins'[k], k in dirty') {
      assert BufOk(buf[k], k, disk, where, holds[k], pins[k], k in dirty);
      assert BufOk(buf[i], i, disk, where, holds[i], pins[i], i in dirty);
    }
    forall b | 0 <= b < |disk| && (b != x.blockno || x.dev == 0)
      ensures View(buf', disk', where, b) == View(buf, disk, where, b)
    {
      assert BufOk(buf[i], i, disk, where, holds[i], pins[i], i in dirty);
    }
  }

  ghost predicate SafeToRelease(x: Buf, disk: Disk, pins: nat) {
    x.valid && pins == 0 ==> x.blockno < |disk| && x.data == disk[x.blockno]
  }

  ghost predicate SomeCoherent(buf: seq<Buf>, disk: Disk, where: map<nat, nat>, holds: seq<nat>, pins: seq<nat>) {
    exists dirty :: Coherent(buf, disk, where, holds, pins, dirty)
  }

  /** Letting go of a buffer leaves the cache coherent, for some account of the changed buffers,
      if and only if the buffer is pinned or agrees with its block. */
  lemma ReleaseIff(buf: seq<Buf>, disk: Disk, where: map<nat, nat>, holds: seq<nat>, pins: seq<nat>, dirty: set<nat>,
                   i: nat)
    requires Coherent(buf, disk, where, holds, pins, dirty) && i < NBUF && buf[i].locked
    ensures SomeCoherent(buf[i := buf[i].(locked := false)], disk, where, holds, pins) <==>
              SafeToRelease(buf[i], disk, pins[i])
  {
    var buf' := buf[i := buf[i].(locked := false)];
    assert BufOk(buf[i], i, disk, where, holds[i], pins[i], i in dirty);
    if SafeToRelease(buf[i], disk, pins[i]) {
      var dirty' := if pins[i] > 0 then dirty else dirty - {i};
      UpdateCoherent(buf, disk, where, holds, pins, dirty, i, buf'[i], disk, holds[i], pins[i], dirty');
      assert holds[i := holds[i]] == holds && pins[i := pins[i]] == pins;
    } else {
      forall dirty' ensures !Coherent(buf', disk, where, holds, pins, dirty') {
        assert !BufOk(buf'[i], i, disk, where, holds[i], pins[i], i in dirty');
      }
    }
  }

  /** Recycling a buffer changes what readers see if and only if it differs from its block, and
      then they see the block as it was on disk. */
  lemma RecycleIff(buf: seq<Buf>, disk: Disk, where: map<nat, nat>, i: nat, b: nat, x: Buf)
    requires i < |buf| && buf[i].dev == ROOTDEV && buf[i].blockno < |disk| && b < |disk| && b !in where && !x.valid
    requires buf[i].blockno in where && forall c :: c in where ==> (where[c] == i <==> c == buf[i].blockno)
    ensures var where' := Rehomed(buf, where, i, b);
            && (SameView(buf, disk, where, buf[i := x], disk, where') <==>
                (buf[i].valid ==> buf[i].data == disk[buf[i].blockno]))
            && View(buf[i := x], disk, where', buf[i].blockno) == disk[buf[i].blockno]
  {
    var where', buf', c0 := Rehomed(buf, where, i, b), buf[i := x], buf[i].blockno;
    assert View(buf', disk, where', c0) == disk[c0];
    forall c | 0 <= c < |disk| && c != c0 ensures View(buf', disk, where', c) == View(buf, disk, where, c) {
      if c in where {
        assert c in where' && where'[c] == where[c];
      }
    }
  }

  /** The least recently used buffer with no references. */
  ghost predicate LeastRecent(buf: seq<Buf>, order: seq<nat>, i: nat) {
    exists k :: 0 <= k < |order| && order[k] == i && i < |buf| && buf[i].refcnt == 0 && Busy(buf, order, k + 1)
  }

  /** Every buffer from position k of the list on is referenced. */
  ghost predicate Busy(buf: seq<Buf>, order: seq<nat>, k: nat) {
    forall j :: k <= j < |order| && order[j] < |buf| ==> buf[order[j]].refcnt > 0
  }

  class Bcache {
    var buf: seq<Buf>
    var prev: seq<nat>
    var next: seq<nat>
    var disk: Disk
    /** The disks left by the writes so far. */
    ghost var trace: seq<Disk>
    ghost var order: seq<nat>
    ghost var where: map<nat, nat>
    /** How many processes have each buffer in use or wait for it. */
    var holds: seq<nat>
    ghost var pins: seq<nat>
    ghost var dirty: set<nat>

    ghost predicate Valid()
      reads this
    {
      && Ring(prev, next, order)
      && (forall i :: 0 <= i < NBUF ==> i in order)
      && Coherent(buf, disk, where, holds, pins, dirty)
    }

    /** What readers see of the disk. */
    ghost function Contents(): (d: Disk)
      reads this
      ensures |d| == |disk|
    {
      ViewAll(buf, disk, where)
    }

    /** binit. */
    constructor (d: Disk)
      ensures Valid() && disk == d && trace == [] && Contents() == d
      ensures order == seq(NBUF, i requires 0 <= i < NBUF => NBUF - 1 - i)
      ensures where == map[] && dirty == {}
      ensures forall i :: 0 <= i < NBUF ==> holds[i] == pins[i] == 0 && !buf[i].locked
    {
      var p: seq<nat>, n: seq<nat> := seq(NBUF + 1, _ => HEAD), seq(NBUF + 1, _ => HEAD);
      ghost var o: seq<nat> := [];
      for b := 0 to NBUF
        invariant Ring(p, n, o)
        invariant |o| == b && forall i :: 0 <= i < b ==> o[i] == b - 1 - i
      {
        assert b !in o;
        p, n := PushFront(p, n, b, o);
        o := [b] + o;
      }
      prev, next, order := p, n, o;
      buf := seq(NBUF, _ => Buf(false, 0, 0, 0, false, Zero()));
      disk, trace := d, [];
      where, dirty := map[], {};
      holds, pins := seq(NBUF, _ => 0), seq(NBUF, _ => 0);
      new;
      forall i | 0 <= i < NBUF ensures i in order {
        assert order[NBUF - 1 - i] == i;
      }
    }

    /** Find or recycle a buffer for the block and take a reference; -1 stands for the
        panic "bget: no buffers". */
    method Bget(dev: nat, blockno: nat) returns (i: int)
      requires Valid() && dev == ROOTDEV && blockno < |disk|
      modifies this`buf, this`where, this`holds
      ensures Valid() && Contents() == old(Contents())
      ensures i == -1 <==> blockno !in old(where) && Busy(old(buf), order, 0)
      ensures i == -1 ==> buf == old(buf) && where == old(where) && holds == old(holds)
      ensures i != -1 ==> 0 <= i < NBUF && blockno in where && where[blockno] == i
                          && holds == old(holds)[i := old(holds[i]) + 1]
                          && forall k :: 0 <= k < NBUF && k != i ==> buf[k] == old(buf[k])
      ensures i != -1 && blockno in old(where) ==>
                i == old(where[blockno]) && where == old(where)
                  && buf[i] == old(buf[i]).(refcnt := old(buf[i]).refcnt + 1)
      ensures i != -1 && blockno !in old(where) ==>
                LeastRecent(old(buf), order, i) && buf[i] == Buf(false, dev, blockno, 1, false, old(buf[i]).data)
                && where == Rehomed(old(buf), old(where), i, blockno)
    {
      i := LookUp(dev, blockno);
      if i != -1 {
        TakeRef(i);
        return;
      }
      i := FindUnused();
      if i != -1 {
        RecycleCoherent(buf, disk, where, holds, pins, dirty, i, blockno,
                        Buf(false, dev, blockno, 1, buf[i].locked, buf[i].data));
        assert BufOk(buf[i], i, disk, where, holds[i], pins[i], i in dirty);
        where := Rehomed(buf, where, i, blockno);
        holds := holds[i := 1];
        buf := buf[i := Buf(false, dev, blockno, 1, buf[i].locked, buf[i].data)];
      }
    }

    method LookUp(dev: nat, blockno: nat) returns (i: int)
      requires Valid() && dev == ROOTDEV
      ensures i == if blockno in where then where[blockno] else -1
    {
      assert blockno in where ==> where[blockno] in order;
      var b := next[HEAD];
      ghost var k := 0;
      assert Node(order, -1) == HEAD;
      while b != HEAD
        invariant 0 <= k <= |order| && b == Node(order, k)
        invariant forall j :: 0 <= j < k ==> !(buf[order[j]].dev == dev && buf[order[j]].blockno == blockno)
        decreases |order| - k
      {
        if buf[b].dev == dev && buf[b].blockno == blockno {
          assert BufOk(buf[b], b, disk, where, holds[b], pins[b], b in dirty);
          return b;
        }
        assert Node(order, k) == b && Node(order, k + 1) == next[b];
        b, k := next[b], k + 1;
      }
      return -1;
    }

    method FindUnused() returns (i: int)
      requires Valid()
      ensures i == -1 ==> Busy(buf, order, 0)
      ensures i != -1 ==> 0 <= i < NBUF && LeastRecent(buf, order, i) && !Busy(buf, order, 0)
    {
      var b := prev[HEAD];
      ghost var k := |order| - 1;
      assert Node(order, |order|) == HEAD;
      while b != HEAD
        invariant -1 <= k < |order| && b == Node(order, k)
        invariant Busy(buf, order, k + 1)
        decreases k
      {
        if buf[b].refcnt == 0 {
          return b;
        }
        assert Node(order, k) == b && Node(order, k - 1) == prev[b];
        b, k := prev[b], k - 1;
      }
      return -1;
    }

    method TakeRef(i: nat)
      requires Valid() && i < NBUF
      modifies this`buf, this`holds
      ensures Valid() && Contents() == old(Contents())
      ensures buf == old(buf)[i := old(buf[i]).(refcnt := old(buf[i]).refcnt + 1)]
      ensures holds == old(holds)[i := old(holds[i]) + 1]
    {
      Change(i, buf[i].(refcnt := buf[i].refcnt + 1), disk, holds[i] + 1, pins[i], dirty);
      buf, holds := buf[i := buf[i].(refcnt := buf[i].refcnt + 1)], holds[i := holds[i] + 1];
    }

    /** UpdateCoherent for the current state. */
    lemma Change(i: nat, x: Buf, disk': Disk, hold: nat, pin: nat, dirty': set<nat>)
      requires Valid() && i < NBUF
      requires x.dev == buf[i].dev && x.blockno == buf[i].blockno
      requires |disk'| == |disk|
      requires forall b :: 0 <= b < |disk| && (b != x.blockno || x.dev == 0) ==> disk'[b] == disk[b]
      requires forall k :: k != i ==> (k in dirty <==> k in dirty')
      requires BufOk(buf[i], i, disk, where, holds[i], pins[i], i in dirty) ==>
                 BufOk(x, i, disk', where, hold, pin, i in dirty')
      ensures Coherent(buf[i := x], disk', where, holds[i := hold], pins[i := pin], dirty')
      ensures buf[i].dev != 0 ==> buf[i].blockno < |disk| && buf[i].blockno in where && where[buf[i].blockno] == i
      ensures forall b :: 0 <= b < |disk| && (b != x.blockno || x.dev == 0) ==>
                View(buf[i := x], disk', where, b) == View(buf, disk, where, b)
      ensures holds[i := holds[i]] == holds && pins[i := pins[i]] == pins && buf[i := buf[i]] == buf
    {
      assert BufOk(buf[i], i, disk, where, holds[i], pins[i], i in dirty);
      UpdateCoherent(buf, disk, where, holds, pins, dirty, i, x, disk', hold, pin, dirty');
    }

    /** acquiresleep on a buffer this caller has a reference to; it blocks while locked. */
    method Lock(i: nat)
      requires Valid() && i < NBUF && holds[i] > 0 && !buf[i].locked
      modifies this`buf
      ensures Valid() && Contents() == old(Contents())
      ensures buf == old(buf)[i := old(buf[i]).(locked := true)]
    {
      Change(i, buf[i].(locked := true), disk, holds[i], pins[i], dirty);
      buf := buf[i := buf[i].(locked := true)];
    }

    /** The rest of bread: read the block in unless the buffer is valid. */
    method Fill(i: nat)
      requires Valid() && i < NBUF && buf[i].locked && buf[i].dev == ROOTDEV
      modifies this`buf
      ensures Valid() && Contents() == old(Contents())
      ensures var b := buf[i].blockno;
              buf == old(buf)[i := old(buf[i]).(valid := true, data := Contents()[b])]
    {
      assert BufOk(buf[i], i, disk, where, holds[i], pins[i], i in dirty);
      if !buf[i].valid {
        var x := buf[i].(valid := true, data := disk[buf[i].blockno]);
        Change(i, x, disk, holds[i], pins[i], dirty);
        buf := buf[i := x];
      }
    }

    /** The holder changes b->data. */
    method Store(i: nat, data: Block)
      requires Valid() && i < NBUF && buf[i].locked && buf[i].valid
      modifies this`buf, this`dirty
      ensures Valid() && buf[i].blockno < |disk| && Contents() == old(Contents())[buf[i].blockno := data]
      ensures buf == old(buf)[i := old(buf[i]).(data := data)]
      ensures dirty == old(dirty) + {i}
    {
      Change(i, buf[i].(data := data), disk, holds[i], pins[i], dirty + {i});
      buf, dirty := buf[i := buf[i].(data := data)], dirty + {i};
    }

    method Bwrite(i: nat)
      requires Valid() && i < NBUF && buf[i].locked && buf[i].valid
      modifies this`disk, this`dirty, this`trace
      ensures Valid() && Contents() == old(Contents())
      ensures buf[i].blockno < |disk| && disk == old(disk)[buf[i].blockno := buf[i].data]
      ensures trace == old(trace) + [disk] && dirty == old(dirty) - {i}
    {
      assert BufOk(buf[i], i, disk, where, holds[i], pins[i], i in dirty);
      Change(i, buf[i], disk[buf[i].blockno := buf[i].data], holds[i], pins[i], dirty - {i});
      disk, dirty := disk[buf[i].blockno := buf[i].data], dirty - {i};
      trace := trace + [disk];
    }

    /** Buffer i may be let go: it is pinned, or agrees with its block. */
    ghost predicate Safe(i: nat)
      reads this
      requires i < |buf| && i < |pins|
    {
      SafeToRelease(buf[i], disk, pins[i])
    }

    /** releasesleep, the first step of brelse. The invariant survives exactly if the holder has
        written a changed block out, or handed it to the log, or left it as it is on disk. */
    method Unlock(i: nat)
      requires Valid() && i < NBUF && buf[i].locked
      modifies this`buf, this`dirty
      ensures |buf| == |pins| == NBUF && Contents() == old(Contents())
      ensures buf == old(buf)[i := old(buf[i]).(locked := false)]
      ensures i !in old(dirty) || pins[i] > 0 ==> dirty == old(dirty) && Safe(i)
      ensures Valid() <==> Safe(i)
    {
      assert BufOk(buf[i], i, disk, where, holds[i], pins[i], i in dirty);
      ghost var d := if pins[i] > 0 then dirty else dirty - {i};
      if Safe(i) {
        Change(i, buf[i].(locked := false), disk, holds[i], pins[i], d);
      }
      dirty := d;
      buf := buf[i := buf[i].(locked := false)];
      assert Valid() ==> BufOk(buf[i], i, disk, where, holds[i], pins[i], i in dirty);
    }

    /** The second step of brelse, when others may have locked the buffer again: drop the
        caller's reference; after the last one the buffer moves to the front of the list. */
    method Drop(i: nat)
      requires Valid() && i < NBUF && holds[i] > 0 && (buf[i].locked ==> holds[i] > 1)
      modifies this`buf, this`prev, this`next, this`order, this`holds
      ensures Valid() && Contents() == old(Contents())
      ensures holds == old(holds)[i := old(holds[i]) - 1]
      ensures old(buf[i]).refcnt > 0 && buf == old(buf)[i := old(buf[i]).(refcnt := old(buf[i]).refcnt - 1)]
      ensures buf[i].refcnt > 0 ==> order == old(order)
      ensures buf[i].refcnt == 0 ==>
                exists k :: 0 <= k < |old(order)| && old(order)[k] == i && order == [i] + Without(old(order), k)
    {
      assert BufOk(buf[i], i, disk, where, holds[i], pins[i], i in dirty);
      var x := buf[i].(refcnt := buf[i].refcnt - 1);
      Change(i, x, disk, holds[i] - 1, pins[i], dirty);
      buf, holds := buf[i := x], holds[i := holds[i] - 1];
      if x.refcnt == 0 {
        MoveToFront(i);
      }
    }

    method MoveToFront(i: nat)
      requires Ring(prev, next, order) && i < NBUF && forall j :: 0 <= j < NBUF ==> j in order
      modifies this`prev, this`next, this`order
      ensures Ring(prev, next, order) && forall j :: 0 <= j < NBUF ==> j in order
      ensures exists k :: 0 <= k < |old(order)| && old(order)[k] == i && order == [i] + Without(old(order), k)
    {
      assert i in order;
      ghost var k :| 0 <= k < |order| && order[k] == i;
      prev, next := Unlink(prev, next, i, order, k);
      prev, next := PushFront(prev, next, i, Without(order, k));
      forall j | 0 <= j < NBUF ensures j in [i] + Without(order, k) {
        assert j in order;
        var m :| 0 <= m < |order| && order[m] == j;
        assert m != k ==> Without(order, k)[if m < k then m else m - 1] == j;
      }
      order := [i] + Without(order, k);
    }

    method Bpin(i: nat)
      requires Valid() && i < NBUF
      modifies this`buf, this`pins
      ensures Valid() && Contents() == old(Contents())
      ensures pins == old(pins)[i := old(pins[i]) + 1]
      ensures buf == old(buf)[i := old(buf[i]).(refcnt := old(buf[i]).refcnt + 1)]
    {
      Change(i, buf[i].(refcnt := buf[i].refcnt + 1), disk, holds[i], pins[i] + 1, dirty);
      buf, pins := buf[i := buf[i].(refcnt := buf[i].refcnt + 1)], pins[i := pins[i] + 1];
    }

    /** The log has written the block home. */
    method Bunpin(i: nat)
      requires Valid() && i < NBUF && pins[i] > 0 && i !in dirty
      modifies this`buf, this`pins
      ensures Valid() && Contents() == old(Contents())
      ensures pins == old(pins)[i := old(pins[i]) - 1]
      ensures old(buf[i]).refcnt > 0 && buf == old(buf)[i := old(buf[i]).(refcnt := old(buf[i]).refcnt - 1)]
    {
      assert BufOk(buf[i], i, disk, where, holds[i], pins[i], i in dirty);
      var x := buf[i].(refcnt := buf[i].refcnt - 1);
      Change(i, x, disk, holds[i], pins[i] - 1, dirty);
      buf, pins := buf[i := x], pins[i := pins[i] - 1];
    }
  }

  ghost function ViewAll(buf: seq<Buf>, disk: Disk, where: map<nat, nat>): (d: Disk)
    ensures |d| == |disk|
    ensures forall b :: 0 <= b < |disk| ==> d[b] == View(buf, disk, where, b)
  {
    seq(|disk|, b requires 0 <= b < |disk| => View(buf, disk, where, b))
  }
}
