/**
 The virtio split queue: descriptor table, available ring, used ring, and the driver's
 and the device's steps on them (sections 2.6 and 5.2 of OASIS VIRTIO 1.1).
 */
module Virtio {
  import Division
  import opened Sets

  const NUM := 8
  const WRAP16 := 0x1_0000

  /** What a descriptor points at: a command header, a buffer's data, a status byte. */
  datatype Addr = Nowhere | ToOp(op: nat) | ToData(buf: nat) | ToStatus(head: nat)

  /** input: the device may write here; more: another descriptor follows. */
  datatype Desc = Desc(addr: Addr, input: bool, more: bool, next: nat)

  datatype Info = Info(buf: nat, inUse: bool, ok: bool)

  datatype Op = Op(write: bool, blockno: nat)

  /** Where a request stands: in the available ring, with the device, in the used ring, or
      acknowledged by the interrupt handler and waiting for its process. */
  datatype Phase = Offered | Taken | Used | Acked

  /** A request in flight: its second and third descriptor, buffer, command and phase. */
  datatype Req = Req(d1: nat, d2: nat, buf: nat, op: Op, phase: Phase)

  ghost function Descs(h: nat, r: Req): (s: set<nat>) {
    {h, r.d1, r.d2}
  }

  ghost predicate Triple(h: nat, r: Req) {
    h < NUM && r.d1 < NUM && r.d2 < NUM && h != r.d1 && h != r.d2 && r.d1 != r.d2
  }

  /** Requests have three descriptors each and share none. */
  ghost predicate Apart3(reqs: map<nat, Req>) {
    && (forall h :: h in reqs ==> Triple(h, reqs[h]))
    && (forall h, g :: h in reqs && g in reqs && h != g ==> Descs(h, reqs[h]) !! Descs(g, reqs[g]))
  }

  /** The driver's tables; own gives the request (by its head) that a descriptor serves. */
  datatype Tables = Tables(desc: seq<Desc>, free: seq<bool>, ops: seq<Op>, info: seq<Info>, ghost own: map<nat, nat>)
  {
    ghost predicate Sized() {
      |desc| == |free| == |ops| == |info| == NUM
    }
  }

  /** The three descriptors of request r with head h are set up as a chain. */
  ghost predicate Chain(t: Tables, h: nat, r: Req)
    requires t.Sized()
  {
    && Linked(t.desc, h, r)
    && Serves(t, h, h) && Serves(t, r.d1, h) && Serves(t, r.d2, h)
    && t.ops[h] == r.op && t.info[h].inUse && t.info[h].buf == r.buf
    && (r.phase == Used ==> t.info[h].ok)
  }

  ghost predicate Linked(desc: seq<Desc>, h: nat, r: Req)
    requires |desc| == NUM
  {
    && Triple(h, r)
    && desc[h] == Desc(ToOp(h), false, true, r.d1) && desc[r.d1] == Desc(ToData(r.buf), !r.op.write, true, r.d2)
    && desc[r.d2] == Desc(ToStatus(h), true, false, 0)
  }

  ghost predicate Serves(t: Tables, i: nat, h: nat) {
    i in t.own && t.own[i] == h
  }

  /** Every request has its chain, every descriptor that is not free is in one, and no
      buffer or block is in two. */
  ghost predicate Chains(t: Tables, reqs: map<nat, Req>) {
    && t.Sized()
    && (forall h :: h in reqs ==> Chain(t, h, reqs[h]))
    && OwnExact(t, reqs)
    && BufsApart(reqs)
  }

  ghost predicate OwnExact(t: Tables, reqs: map<nat, Req>)
    requires t.Sized()
  {
    && (forall i :: 0 <= i < NUM ==> (t.free[i] <==> i !in t.own))
    && (forall i :: i in t.own ==> InChain(t.own[i], reqs, i))
  }

  ghost predicate BufsApart(reqs: map<nat, Req>) {
    forall h, g :: h in reqs && g in reqs && h != g ==>
        reqs[h].buf != reqs[g].buf && reqs[h].op.blockno != reqs[g].op.blockno
  }

  ghost predicate Unused(reqs: map<nat, Req>, buf: nat, blockno: nat) {
    forall g :: g in reqs ==> reqs[g].buf != buf && reqs[g].op.blockno != blockno
  }

  ghost predicate InChain(h: nat, reqs: map<nat, Req>, i: nat) {
    h in reqs && (i == h || i == reqs[h].d1 || i == reqs[h].d2)
  }

  // ----------------------------------------------------------------- the rings

  ghost function Slot(ring: seq<nat>, k: nat): (h: nat)
    requires |ring| == NUM
  {
    ring[k % NUM]
  }

  /** The entries from position lo on (counting all ever written) are q. */
  ghost predicate Holds(ring: seq<nat>, lo: nat, q: seq<nat>)
    requires |ring| == NUM
  {
    forall i :: 0 <= i < |q| ==> Slot(ring, lo + i) == q[i]
  }

  /** Writing the next entry overwrites none that is still wanted. */
  lemma HoldsPush(ring: seq<nat>, lo: nat, q: seq<nat>, idx: nat, h: nat)
    requires |ring| == NUM && Holds(ring, lo, q) && |q| < NUM && idx == (lo + |q|) % WRAP16
    ensures Holds(ring[idx % NUM := h], lo, q + [h])
    ensures (idx + 1) % WRAP16 == (lo + |q + [h]|) % WRAP16
  {
    Division.SameSlot(lo + |q|, NUM, WRAP16 / NUM);
    var ring' := ring[idx % NUM := h];
    forall i | 0 <= i < |q| ensures Slot(ring', lo + i) == q[i] {
      Division.Apart(lo + i, lo + |q|, NUM);
    }
  }

  lemma HoldsPop(ring: seq<nat>, lo: nat, q: seq<nat>, idx: nat)
    requires |ring| == NUM && Holds(ring, lo, q) && q != [] && idx == lo % WRAP16
    ensures ring[idx % NUM] == q[0] && Holds(ring, lo + 1, q[1..]) && (idx + 1) % WRAP16 == (lo + 1) % WRAP16
  {
    Division.SameSlot(lo, NUM, WRAP16 / NUM);
    assert Slot(ring, lo + 0) == q[0];
    forall i | 0 <= i < |q[1..]| ensures Slot(ring, lo + 1 + i) == q[1..][i] {
      assert Slot(ring, lo + (1 + i)) == q[1 + i];
    }
  }

  /** The 16-bit indices differ exactly when the ring holds something. */
  lemma EmptyRing(lo: nat, n: nat)
    requires n < WRAP16
    ensures lo % WRAP16 == (lo + n) % WRAP16 <==> n == 0
  {
  }

  // ------------------------------------------------------------ counting chains

  lemma DescsSize(h: nat, r: Req)
    requires Triple(h, r)
    ensures |Descs(h, r)| == 3 && Descs(h, r) <= Upto(NUM)
  {
    var two := {h, r.d1};
    assert |two| == 2 && Descs(h, r) == two + {r.d2};
  }

  lemma ThreeTriples(x: set<nat>, y: set<nat>, z: set<nat>, n: nat)
    requires |x| == |y| == |z| == 3 && x !! y && x + y !! z && x <= Upto(n) && y <= Upto(n) && z <= Upto(n)
    ensures n >= 9
  {
    assert |x + y + z| == |x| + |y| + |z|;
    SubsetSize(x + y + z, Upto(n));
  }

  /** Eight descriptors hold at most two requests. */
  lemma AtMostTwo(t: Tables, reqs: map<nat, Req>)
    requires Chains(t, reqs)
    ensures |reqs| <= 2
  {
    forall h | h in reqs ensures Triple(h, reqs[h]) {
      assert Chain(t, h, reqs[h]);
    }
    hide OwnExact, BufsApart, Triple;
    forall h, g | h in reqs && g in reqs && h != g ensures Descs(h, reqs[h]) !! Descs(g, reqs[g]) {
      assert Chain(t, h, reqs[h]) && Chain(t, g, reqs[g]);
      TwoChains(t, h, reqs[h], g, reqs[g]);
    }
    TwoApart(reqs);
  }

  lemma TwoChains(t: Tables, h: nat, r: Req, g: nat, q: Req)
    requires t.Sized() && Chain(t, h, r) && Chain(t, g, q) && h != g
    ensures Descs(h, r) !! Descs(g, q)
  {
  }

  lemma TwoApart(reqs: map<nat, Req>)
    requires Apart3(reqs)
    ensures |reqs| <= 2
  {
    hide Descs, Triple;
    if |reqs| > 2 {
      var a, b, c := ThreeOf(reqs.Keys);
      DescsSize(a, reqs[a]);
      DescsSize(b, reqs[b]);
      DescsSize(c, reqs[c]);
      ThreeTriples(Descs(a, reqs[a]), Descs(b, reqs[b]), Descs(c, reqs[c]), NUM);
    }
  }

  lemma ThreeOf(s: set<nat>) returns (a: nat, b: nat, c: nat)
    requires |s| > 2
    ensures a in s && b in s && c in s && a != b && a != c && b != c
  {
    a :| a in s;
    var s1 := s - {a};
    assert |s1| == |s| - 1;
    b :| b in s1;
    var s2 := s1 - {b};
    assert |s2| == |s1| - 1;
    c :| c in s2;
  }

  lemma {:induction false} DistinctSize(q: seq<nat>, s: set<nat>)
    requires (forall i :: 0 <= i < |q| ==> q[i] in s) && forall i, j :: 0 <= i < j < |q| ==> q[i] != q[j]
    ensures |q| <= |s|
    decreases |q|
  {
    if q != [] {
      DistinctSize(q[1..], s - {q[0]});
    }
  }

  // ------------------------------------------------------ steps on the chains

  /** The tables with request r set up under head h. */
  ghost function Formatted(t: Tables, h: nat, r: Req): (t': Tables)
    requires t.Sized() && Triple(h, r)
  {
    Tables(t.desc[h := Desc(ToOp(h), false, true, r.d1)]
           [r.d1 := Desc(ToData(r.buf), !r.op.write, true, r.d2)]
           [r.d2 := Desc(ToStatus(h), true, false, 0)],
           t.free[h := false][r.d1 := false][r.d2 := false],
           t.ops[h := r.op], t.info[h := Info(r.buf, true, false)],
           t.own[h := h][r.d1 := h][r.d2 := h])
  }

  /** t' is t except at the descriptors of r. */
  ghost predicate SameOff(t: Tables, t': Tables, h: nat, r: Req) {
    && t.Sized() && t'.Sized()
    && forall i :: 0 <= i < NUM && i != h && i != r.d1 && i != r.d2 ==> SameAt(t, t', i)
  }

  ghost predicate SameAt(t: Tables, t': Tables, i: nat)
    requires t.Sized() && t'.Sized() && i < NUM
  {
    && t'.desc[i] == t.desc[i] && t'.free[i] == t.free[i] && t'.ops[i] == t.ops[i] && t'.info[i] == t.info[i]
    && (i in t'.own <==> i in t.own) && (i in t.own ==> t'.own[i] == t.own[i])
  }

  lemma KeepChain(t: Tables, t': Tables, h: nat, r: Req, g: nat, q: Req)
    requires SameOff(t, t', h, r) && Chain(t, g, q)
    requires forall i :: (i == h || i == r.d1 || i == r.d2) ==> !Serves(t, i, g)
    ensures Chain(t', g, q)
  {
    assert Serves(t, g, g) && Serves(t, q.d1, g) && Serves(t, q.d2, g);
    assert SameAt(t, t', g) && SameAt(t, t', q.d1) && SameAt(t, t', q.d2);
  }

  lemma FormattedChain(t: Tables, h: nat, r: Req)
    requires t.Sized() && Triple(h, r) && r.phase == Offered
    ensures Chain(Formatted(t, h, r), h, r) && SameOff(t, Formatted(t, h, r), h, r)
  {
  }

  lemma HeadServes(t: Tables, reqs: map<nat, Req>, g: nat)
    requires Chains(t, reqs) && g in reqs
    ensures Serves(t, g, g)
  {
    assert Chain(t, g, reqs[g]);
  }

  lemma AddChain(t: Tables, reqs: map<nat, Req>, h: nat, r: Req)
    requires Chains(t, reqs) && Triple(h, r) && t.free[h] && t.free[r.d1] && t.free[r.d2] && r.phase == Offered
    requires Unused(reqs, r.buf, r.op.blockno)
    ensures h !in reqs && Chains(Formatted(t, h, r), reqs[h := r])
  {
    var t', reqs' := Formatted(t, h, r), reqs[h := r];
    hide Chain, Formatted, SameOff, BufsApart;
    assert !Serves(t, h, h) && forall g :: !Serves(t, h, g) && !Serves(t, r.d1, g) && !Serves(t, r.d2, g);
    hide OwnExact;
    forall g | g in reqs ensures g != h {
      HeadServes(t, reqs, g);
    }
    FormattedChain(t, h, r);
    forall g | g in reqs' ensures Chain(t', g, reqs'[g]) {
      if g != h {
        KeepChain(t, t', h, r, g, reqs[g]);
      }
    }
    AddedOwn(t, reqs, h, r);
    assert BufsApart(reqs') by { AddedBuf(reqs, h, r); }
  }

  lemma AddedBuf(reqs: map<nat, Req>, h: nat, r: Req)
    requires BufsApart(reqs) && Unused(reqs, r.buf, r.op.blockno)
    ensures BufsApart(reqs[h := r])
  {
  }

  lemma AddedOwn(t: Tables, reqs: map<nat, Req>, h: nat, r: Req)
    requires t.Sized() && Triple(h, r) && OwnExact(t, reqs) && h !in reqs
    ensures OwnExact(Formatted(t, h, r), reqs[h := r])
  {
    var t' := Formatted(t, h, r);
    forall i | i in t'.own ensures InChain(t'.own[i], reqs[h := r], i) {
      if i != h && i != r.d1 && i != r.d2 {
        assert InChain(t.own[i], reqs, i);
      }
    }
  }

  ghost predicate Freeable(t: Tables, h: nat, r: Req) {
    t.Sized() && Linked(t.desc, h, r) && !t.free[h] && !t.free[r.d1] && !t.free[r.d2]
  }

  /** The tables with the three descriptors of request r freed. */
  ghost function Unformatted(t: Tables, h: nat, r: Req): (t': Tables)
    requires Freeable(t, h, r)
  {
    Tables(t.desc[h := Desc(Nowhere, false, false, 0)]
           [r.d1 := Desc(Nowhere, false, false, 0)]
           [r.d2 := Desc(Nowhere, false, false, 0)],
           t.free[h := true][r.d1 := true][r.d2 := true],
           t.ops, t.info[h := t.info[h].(inUse := false)], t.own - {h, r.d1, r.d2})
  }

  /** Exactly the chain's three descriptors become free. */
  lemma FreesItsChain(t: Tables, h: nat, r: Req)
    requires Freeable(t, h, r)
    ensures forall i :: 0 <= i < NUM ==> (Unformatted(t, h, r).free[i] != t.free[i] <==> i in Descs(h, r))
  {
  }

  lemma UnformattedOff(t: Tables, h: nat, r: Req)
    requires Freeable(t, h, r)
    ensures SameOff(t, Unformatted(t, h, r), h, r)
  {
  }

  lemma DropChain(t: Tables, reqs: map<nat, Req>, h: nat)
    requires Chains(t, reqs) && h in reqs
    ensures Freeable(t, h, reqs[h]) && Chains(Unformatted(t, h, reqs[h]), reqs - {h})
  {
    OwnDescs(t, reqs, h);
    var t', reqs', r := Unformatted(t, h, reqs[h]), reqs - {h}, reqs[h];
    hide Chain, Unformatted, SameOff, OwnExact;
    UnformattedOff(t, h, r);
    forall g | g in reqs' ensures Chain(t', g, reqs'[g]) {
      KeepChain(t, t', h, r, g, reqs[g]);
    }
    DroppedOwn(t, reqs, h, r);
  }

  lemma DroppedOwn(t: Tables, reqs: map<nat, Req>, h: nat, r: Req)
    requires t.Sized() && h in reqs && r == reqs[h] && Freeable(t, h, r) && OwnExact(t, reqs)
    ensures OwnExact(Unformatted(t, h, r), reqs - {h})
  {
    var t' := Unformatted(t, h, r);
    forall i | i in t'.own ensures InChain(t'.own[i], reqs - {h}, i) {
      assert InChain(t.own[i], reqs, i);
    }
  }

  /** A request changes phase; the device may have set its status. */
  lemma MoveChain(t: Tables, reqs: map<nat, Req>, h: nat, p: Phase, ok: bool)
    requires Chains(t, reqs) && h in reqs && (p == Used ==> ok)
    ensures h < NUM && Chains(t.(info := t.info[h := t.info[h].(ok := ok)]), reqs[h := reqs[h].(phase := p)])
  {
    hide OwnExact, BufsApart, Chain;
    InRange(t, h, reqs[h]);
    var t', reqs' := t.(info := t.info[h := t.info[h].(ok := ok)]), reqs[h := reqs[h].(phase := p)];
    MovedOwn(t, reqs, h, p, ok);
    forall g | g in reqs' ensures Chain(t', g, reqs'[g]) {
      assert Chain(t, g, reqs[g]);
      MovedChain(t, reqs, h, p, ok, g);
    }
  }

  lemma InRange(t: Tables, h: nat, r: Req)
    requires t.Sized() && Chain(t, h, r)
    ensures h < NUM
  {
  }

  lemma MovedChain(t: Tables, reqs: map<nat, Req>, h: nat, p: Phase, ok: bool, g: nat)
    requires t.Sized() && h in reqs && h < NUM && g in reqs && Chain(t, g, reqs[g]) && (p == Used ==> ok)
    ensures Chain(t.(info := t.info[h := t.info[h].(ok := ok)]), g, reqs[h := reqs[h].(phase := p)][g])
  {
  }

  lemma MovedOwn(t: Tables, reqs: map<nat, Req>, h: nat, p: Phase, ok: bool)
    requires t.Sized() && OwnExact(t, reqs) && BufsApart(reqs) && h in reqs && h < NUM
    ensures BufsApart(reqs[h := reqs[h].(phase := p)])
    ensures OwnExact(t.(info := t.info[h := t.info[h].(ok := ok)]), reqs[h := reqs[h].(phase := p)])
  {
    forall i | i in t.own ensures InChain(t.own[i], reqs[h := reqs[h].(phase := p)], i) {
      assert InChain(t.own[i], reqs, i);
    }
  }

  // ------------------------------------------------------------ phases and rings

  ghost predicate Distinct(q: seq<nat>) {
    forall i, j :: 0 <= i < j < |q| ==> q[i] != q[j]
  }

  /** q lists the requests in phase p, once each. */
  ghost predicate Lists(reqs: map<nat, Req>, q: seq<nat>, p: Phase) {
    && Distinct(q)
    && (forall i :: 0 <= i < |q| ==> q[i] in reqs)
    && (forall h :: h in reqs ==> (reqs[h].phase == p <==> h in q))
  }

  lemma ListsSize(t: Tables, reqs: map<nat, Req>, q: seq<nat>, p: Phase)
    requires Chains(t, reqs) && Lists(reqs, q, p)
    ensures |q| <= 2
  {
    AtMostTwo(t, reqs);
    DistinctSize(q, reqs.Keys);
  }

  /** A request enters phase p. */
  lemma ListsEnter(reqs: map<nat, Req>, q: seq<nat>, p: Phase, h: nat, r: Req)
    requires Lists(reqs, q, p) && (h in reqs ==> reqs[h].phase != p) && r.phase == p
    ensures Lists(reqs[h := r], q + [h], p)
  {
  }

  /** A request enters or leaves the queue in some other phase. */
  lemma ListsOther(reqs: map<nat, Req>, q: seq<nat>, p: Phase, h: nat, r: Req)
    requires Lists(reqs, q, p) && (h in reqs ==> reqs[h].phase != p) && r.phase != p
    ensures Lists(reqs[h := r], q, p)
  {
    forall g | g in reqs[h := r] ensures reqs[h := r][g].phase == p <==> g in q {
      assert g in q ==> g in reqs;
    }
  }

  lemma ListsLeave(reqs: map<nat, Req>, q: seq<nat>, p: Phase, r: Req)
    requires Lists(reqs, q, p) && q != [] && r.phase != p
    ensures q[0] in reqs && reqs[q[0]].phase == p && Lists(reqs[q[0] := r], q[1..], p)
  {
    assert q == [q[0]] + q[1..];
  }

  lemma ListsDrop(reqs: map<nat, Req>, q: seq<nat>, p: Phase, h: nat)
    requires Lists(reqs, q, p) && h in reqs && reqs[h].phase != p
    ensures Lists(reqs - {h}, q, p)
  {
  }

  /** b->disk is set exactly while the request is not acknowledged. */
  ghost predicate BusyExact(reqs: map<nat, Req>, busy: set<nat>) {
    forall h :: h in reqs ==> (reqs[h].buf in busy <==> reqs[h].phase != Acked)
  }

  /** Once the device has finished a request, its buffer and its block agree. */
  ghost predicate Moved<T>(reqs: map<nat, Req>, mem: seq<T>, store: seq<T>) {
    forall h :: h in reqs ==> Agrees(reqs[h], mem, store)
  }

  ghost predicate Agrees<T>(r: Req, mem: seq<T>, store: seq<T>) {
    r.buf < |mem| && r.op.blockno < |store|
      && (r.phase == Used || r.phase == Acked ==> mem[r.buf] == store[r.op.blockno])
  }

  ghost predicate Good<T>(t: Tables, reqs: map<nat, Req>, busy: set<nat>, offered: seq<nat>, finished: seq<nat>,
                          mem: seq<T>, store: seq<T>) {
    && Chains(t, reqs) && BusyExact(reqs, busy)
    && Lists(reqs, offered, Offered) && Lists(reqs, finished, Used)
    && Moved(reqs, mem, store)
  }

  class Disk<T> {
    var t: Tables
    var avail: seq<nat>
    /** avail->idx, the device's place in the available ring, used->idx, and disk.used_idx. */
    var availIdx: nat
    var deviceIdx: nat
    var used: seq<nat>
    var usedIdx: nat
    var seenIdx: nat
    /** Buffers with b->disk == 1. */
    var busy: set<nat>
    var mem: seq<T>
    var store: seq<T>
    ghost var reqs: map<nat, Req>
    ghost var offered: seq<nat>
    ghost var finished: seq<nat>
    /** How many entries the device has taken, and the driver has seen, in all. */
    ghost var nTaken: nat
    ghost var nSeen: nat

    ghost predicate Valid()
      reads this
    {
      Good(t, reqs, busy, offered, finished, mem, store) && RingsOk()
    }

    ghost predicate RingsOk()
      reads `avail, `availIdx, `deviceIdx, `used, `usedIdx, `seenIdx, `offered, `finished, `nTaken, `nSeen
    {
      && |avail| == NUM && Holds(avail, nTaken, offered)
      && availIdx == (nTaken + |offered|) % WRAP16 && deviceIdx == nTaken % WRAP16
      && |used| == NUM && Holds(used, nSeen, finished)
      && usedIdx == (nSeen + |finished|) % WRAP16 && seenIdx == nSeen % WRAP16
    }

    /** The queue as virtio_disk_init leaves it. */
    constructor (mem: seq<T>, store: seq<T>)
      ensures Valid() && reqs == map[] && busy == {} && this.mem == mem && this.store == store
    {
      t := Tables(seq(NUM, _ => Desc(Nowhere, false, false, 0)), seq(NUM, _ => true), seq(NUM, _ => Op(false, 0)),
                  seq(NUM, _ => Info(0, false, false)), map[]);
      avail, used := seq(NUM, _ => 0), seq(NUM, _ => 0);
      availIdx, deviceIdx, usedIdx, seenIdx := 0, 0, 0, 0;
      busy, this.mem, this.store := {}, mem, store;
      reqs, offered, finished, nTaken, nSeen := map[], [], [], 0, 0;
    }

    /** In every state at most two requests are in flight, so a ring never holds more. */
    lemma InFlight()
      requires Valid()
      ensures |reqs| <= 2 && |offered| <= 2 && |finished| <= 2
    {
      AtMostTwo(t, reqs);
      ListsSize(t, reqs, offered, Offered);
      ListsSize(t, reqs, finished, Used);
    }

    /** alloc_desc: the first free descriptor, or -1. */
    method AllocDesc() returns (i: int)
      requires |t.free| == NUM
      modifies this`t
      ensures i == -1 <==> forall k :: 0 <= k < NUM ==> !old(t).free[k]
      ensures i == -1 ==> t == old(t)
      ensures i != -1 ==> 0 <= i < NUM && old(t).free[i] && t == old(t).(free := old(t).free[i := false])
    {
      for k := 0 to NUM
        invariant t == old(t) && forall j :: 0 <= j < k ==> !t.free[j]
      {
        if t.free[k] {
          t := t.(free := t.free[k := false]);
          return k;
        }
      }
      return -1;
    }

    /** free_desc; both its panics are excluded by the precondition. */
    method FreeDesc(i: nat)
      requires |t.free| == |t.desc| == NUM && i < NUM && !t.free[i]
      modifies this`t
      ensures t == old(t).(free := old(t).free[i := true], desc := old(t).desc[i := Desc(Nowhere, false, false, 0)])
    {
      t := t.(desc := t.desc[i := Desc(Nowhere, false, false, 0)]);
      t := t.(free := t.free[i := true]);
    }

    /** alloc3_desc's undo: free the descriptors it had taken. */
    method FreeTaken(idx: seq<nat>, ghost t0: Tables)
      requires t0.Sized() && t == t0.(free := t.free) && Minus(t0.free, idx, t.free) && Distinct(idx)
      requires forall j :: 0 <= j < |idx| ==> idx[j] < NUM && t0.free[idx[j]]
      modifies this`t
      ensures |t.desc| == NUM && t == t0.(desc := t.desc)
      ensures forall k :: 0 <= k < NUM && !t0.free[k] ==> t.desc[k] == t0.desc[k]
    {
      for j := 0 to |idx|
        invariant |t.desc| == NUM && Minus(t0.free, idx[j..], t.free) && t == t0.(desc := t.desc, free := t.free)
        invariant forall k :: 0 <= k < NUM && !t0.free[k] ==> t.desc[k] == t0.desc[k]
      {
        assert idx[j..] == [idx[j]] + idx[j + 1..];
        FreeDesc(idx[j]);
      }
      assert t.free == t0.free;
    }

    /** alloc3_desc: three free descriptors, or none if there are not three. */
    method Alloc3() returns (ok: bool, idx: seq<nat>)
      requires t.Sized()
      modifies this`t
      ensures ok <==> ThreeFree(old(t.free))
      ensures ok ==> |idx| == 3 && Distinct(idx) && (forall j :: 0 <= j < 3 ==> idx[j] < NUM && old(t).free[idx[j]])
                     && Minus(old(t.free), idx, t.free) && t == old(t).(free := t.free)
      ensures !ok ==>
                |t.desc| == NUM && t == old(t).(desc := t.desc)
                  && (forall k :: 0 <= k < NUM && !t.free[k] ==> t.desc[k] == old(t.desc[k]))
    {
      idx := [];
      ghost var t0 := t;
      while |idx| < 3
        invariant |idx| <= 3 && Distinct(idx) && t == t0.(free := t.free) && Minus(t0.free, idx, t.free)
        invariant forall j :: 0 <= j < |idx| ==> idx[j] < NUM && t0.free[idx[j]]
      {
        var i := AllocDesc();
        if i < 0 {
          TooFew(t0.free, idx, t.free);
          FreeTaken(idx, t0);
          return false, [];
        }
        idx := idx + [i];
      }
      Enough(t0.free, idx);
      return true, idx;
    }

    /** Format the three descriptors h, d1, d2 of a request, taken from the free ones of t0,
        and offer them to the device. */
    method Offer(h: nat, d1: nat, d2: nat, buf: nat, op: Op, ghost t0: Tables)
      requires t0.Sized() && Triple(h, Req(d1, d2, buf, op, Offered)) && t0.free[h] && t0.free[d1] && t0.free[d2]
      requires Good(t0, reqs, busy, offered, finished, mem, store) && RingsOk()
      requires t == t0.(free := t0.free[h := false][d1 := false][d2 := false])
      requires buf < |mem| && op.blockno < |store| && Unused(reqs, buf, op.blockno)
      modifies this`t, this`avail, this`availIdx, this`busy, this`reqs, this`offered
      ensures Valid() && h !in old(reqs) && offered == old(offered) + [h] && busy == old(busy) + {buf}
      ensures reqs == old(reqs)[h := Req(d1, d2, buf, op, Offered)]
    {
      ghost var r := Req(d1, d2, buf, op, Offered);
      hide Good, RingsOk, Unused;
      OfferFacts(t0, reqs, busy, offered, finished, mem, store, h, r);
      t := t.(ops := t.ops[h := op],
              desc := t.desc[h := Desc(ToOp(h), false, true, d1)]
                      [d1 := Desc(ToData(buf), !op.write, true, d2)]
                      [d2 := Desc(ToStatus(h), true, false, 0)],
              info := t.info[h := Info(buf, true, false)],
              own := t.own[h := h][d1 := h][d2 := h]);
      busy := busy + {buf};
      reqs := reqs[h := r];
      PushAvail(h);
    }

    /** Publish a head in the available ring. */
    method PushAvail(h: nat)
      requires RingsOk() && |offered| < NUM
      modifies this`avail, this`availIdx, this`offered
      ensures RingsOk() && offered == old(offered) + [h]
    {
      hide Holds;
      HoldsPush(avail, nTaken, offered, availIdx, h);
      avail := avail[availIdx % NUM := h];
      availIdx := (availIdx + 1) % WRAP16;
      offered := offered + [h];
    }

    /** The first half of virtio_disk_rw for a buffer the caller has locked; false if the
        caller must sleep for descriptors. */
    method Submit(buf: nat, write: bool, blockno: nat) returns (ok: bool, h: nat)
      requires Valid() && buf < |mem| && blockno < |store| && Unused(reqs, buf, blockno)
      modifies this`t, this`avail, this`availIdx, this`busy, this`reqs, this`offered
      ensures Valid() && |old(t.free)| == NUM && (ok <==> ThreeFree(old(t.free)))
      ensures !ok ==> reqs == old(reqs) && busy == old(busy) && availIdx == old(availIdx) && offered == old(offered)
      ensures ok ==> h !in old(reqs) && h in reqs && reqs == old(reqs)[h := reqs[h]] && offered == old(offered) + [h]
                     && reqs[h].buf == buf && reqs[h].op == Op(write, blockno) && reqs[h].phase == Offered
                     && busy == old(busy) + {buf}
    {
      ghost var t0 := t;
      var idx;
      h := 0;
      hide Lists, BusyExact, Minus, RingsOk, ThreeFree, OwnExact, BufsApart, Chain;
      ok, idx := Alloc3();
      if ok {
        h := idx[0];
        MinusThree(t0.free, idx, t.free);
        Offer(idx[0], idx[1], idx[2], buf, Op(write, blockno), t0);
      } else {
        FailedAlloc(t0, t.desc, reqs);
      }
    }

    /** The device takes the next offered request. */
    method DeviceTake() returns (h: nat)
      requires Valid() && deviceIdx != availIdx
      modifies this`deviceIdx, this`reqs, this`offered, this`nTaken
      ensures Valid() && old(offered) != [] && h == old(offered)[0] && offered == old(offered)[1..]
      ensures h in old(reqs) && reqs == old(reqs)[h := old(reqs)[h].(phase := Taken)]
    {
      hide Chains, Lists, BusyExact, Holds, Moved;
      assert offered != [];
      HoldsPop(avail, nTaken, offered, deviceIdx);
      h := avail[deviceIdx % NUM];
      deviceIdx := (deviceIdx + 1) % WRAP16;
      ListsHas(reqs, offered, Offered);
      Moving(t, reqs, busy, mem, store, h, Taken);
      ListsLeave(reqs, offered, Offered, reqs[h].(phase := Taken));
      ListsOther(reqs, finished, Used, h, reqs[h].(phase := Taken));
      nTaken, offered, reqs := nTaken + 1, offered[1..], reqs[h := reqs[h].(phase := Taken)];
    }

    /** A process changes a buffer it holds, which is in no request. */
    method Store(buf: nat, v: T)
      requires Valid() && buf < |mem| && forall h :: h in reqs ==> reqs[h].buf != buf
      modifies this`mem
      ensures Valid() && mem == old(mem)[buf := v]
    {
      hide Chains, Lists, BusyExact, RingsOk;
      forall h | h in reqs ensures Agrees(reqs[h], mem[buf := v], store) {
        assert Agrees(reqs[h], mem, store);
      }
      mem := mem[buf := v];
    }

    /** The device carries out a request it has taken, in any order, by following the
        descriptors: the command, the data, the status. It is assumed not to fail. */
    method DeviceTransfer(h: nat)
      requires Valid() && h in reqs && reqs[h].phase == Taken
      modifies this`t, this`mem, this`store
      ensures reqs[h].buf < |old(mem)| == |mem| && reqs[h].op.blockno < |old(store)| == |store|
      ensures reqs[h].op.write ==> mem == old(mem) && store == old(store)[reqs[h].op.blockno := old(mem)[reqs[h].buf]]
      ensures !reqs[h].op.write ==>
                store == old(store) && mem == old(mem)[reqs[h].buf := old(store)[reqs[h].op.blockno]]
      ensures |old(t).info| == NUM && h < NUM && t == old(t).(info := old(t).info[h := old(t).info[h].(ok := true)])
    {
      assert Chain(t, h, reqs[h]) && Agrees(reqs[h], mem, store);
      hide Chains, RingsOk, Lists, BusyExact, Moved;
      var d0 := t.desc[h];
      var op := t.ops[d0.addr.op];
      var d1 := t.desc[d0.next];
      var d2 := t.desc[d1.next];
      if d1.input {
        mem := mem[d1.addr.buf := store[op.blockno]];
      } else {
        store := store[op.blockno := mem[d1.addr.buf]];
      }
      t := t.(info := t.info[d2.addr.head := t.info[d2.addr.head].(ok := true)]);
    }

    /** The device reports the request in the used ring. */
    method DeviceComplete(h: nat)
      requires Valid() && h in reqs && reqs[h].phase == Taken
      modifies this`t, this`mem, this`store, this`used, this`usedIdx, this`reqs, this`finished
      ensures Valid() && finished == old(finished) + [h] && reqs == old(reqs)[h := old(reqs)[h].(phase := Used)]
      ensures reqs[h].buf < |old(mem)| == |mem| && reqs[h].op.blockno < |old(store)| == |store|
      ensures reqs[h].op.write ==> mem == old(mem) && store == old(store)[reqs[h].op.blockno := old(mem)[reqs[h].buf]]
      ensures !reqs[h].op.write ==>
                store == old(store) && mem == old(mem)[reqs[h].buf := old(store)[reqs[h].op.blockno]]
    {
      hide Chains, Lists, BusyExact, RingsOk, Moved, Agrees;
      ghost var r := reqs[h].(phase := Used);
      ghost var t0, mem0, store0 := t, mem, store;
      InFlight();
      assert BufsApart(reqs) by { ChainsApart(t, reqs); }
      DeviceTransfer(h);
      MoveChain(t0, reqs, h, Used, true);
      TransferMoved(reqs, mem0, store0, h, mem, store);
      ListsEnter(reqs, finished, Used, h, r);
      ListsOther(reqs, offered, Offered, h, r);
      BusyKept(reqs, busy, h, Used);
      reqs := reqs[h := r];
      PushUsed(h);
    }

    method PushUsed(h: nat)
      requires RingsOk() && |finished| < NUM
      modifies this`used, this`usedIdx, this`finished
      ensures RingsOk() && finished == old(finished) + [h]
    {
      hide Holds;
      HoldsPush(used, nSeen, finished, usedIdx, h);
      used := used[usedIdx % NUM := h];
      usedIdx := (usedIdx + 1) % WRAP16;
      finished := finished + [h];
    }

    /** One turn of virtio_disk_intr's loop. A device that does not fail has stored the status
        that the loop tests. */
    method IntrOne() returns (h: nat)
      requires Valid() && seenIdx != usedIdx
      modifies this`seenIdx, this`busy, this`reqs, this`finished, this`nSeen
      ensures Valid() && old(finished) != [] && h == old(finished)[0] && finished == old(finished)[1..]
      ensures h in old(reqs) && reqs == old(reqs)[h := old(reqs)[h].(phase := Acked)]
      ensures busy == old(busy) - {reqs[h].buf}
    {
      hide Chains, Chain, Lists, BusyExact, Holds, Moved;
      assert finished != [];
      ListsHas(reqs, finished, Used);
      HoldsPop(used, nSeen, finished, seenIdx);
      h := used[seenIdx % NUM];
      UsedInfo(t, reqs, h);
      var b := t.info[h].buf;
      busy := busy - {b};
      seenIdx := (seenIdx + 1) % WRAP16;
      ghost var r := reqs[h].(phase := Acked);
      ListsLeave(reqs, finished, Used, r);
      ListsOther(reqs, offered, Offered, h, r);
      AckedMove(t, reqs, old(busy), mem, store, h);
      nSeen, finished, reqs := nSeen + 1, finished[1..], reqs[h := r];
    }

    lemma FirstUsed() returns (h: nat)
      requires Valid() && seenIdx != usedIdx
      ensures finished != [] && h == finished[0] && h in reqs && reqs[h].phase == Used
    {
      hide Chains, Lists, BusyExact, Holds, Moved;
      assert finished != [];
      ListsHas(reqs, finished, Used);
      h := finished[0];
    }

    /** virtio_disk_intr: every finished request is acknowledged, once. */
    method Intr()
      requires Valid()
      modifies this`seenIdx, this`busy, this`reqs, this`finished, this`nSeen
      ensures Valid() && finished == [] && seenIdx == usedIdx
      ensures reqs.Keys == old(reqs).Keys && forall h :: h in reqs ==> reqs[h] == Seen(old(reqs)[h])
    {
      hide Chains, Lists, BusyExact, Holds, Moved;
      InFlight();
      while seenIdx != usedIdx
        invariant Valid() && |finished| <= 2 && ReqsSeen(old(reqs), reqs)
        decreases |finished|
      {
        hide Valid, RingsOk, ReqsSeen;
        ghost var reqs1 := reqs;
        ghost var first := FirstUsed();
        var h := IntrOne();
        SeenMore(old(reqs), reqs1, h);
      }
      EmptyRing(nSeen, |finished|);
      assert finished == [];
      AllSeen(old(reqs), reqs, finished);
    }

    /** free_chain: follow the next flags from the head. */
    method FreeChain(h: nat, ghost r: Req)
      requires t.Sized() && Linked(t.desc, h, r) && !t.free[h] && !t.free[r.d1] && !t.free[r.d2]
      modifies this`t
      ensures t == old(t).(desc := Wiped(old(t).desc, h, r), free := Released(old(t).free, h, r))
    {
      ghost var t0 := t;
      hide Serves;
      var i, go := h, true;
      ghost var k := 0;
      while go
        invariant 0 <= k <= 3 && (go <==> k < 3) && t == t0.(desc := t.desc, free := t.free)
        invariant k == 0 ==> i == h && t == t0
        invariant k == 1 ==>
                  i == r.d1 && t.desc == t0.desc[h := Desc(Nowhere, false, false, 0)] && t.free == t0.free[h := true]
        invariant k == 2 ==>
                  && i == r.d2
                  && t.desc == t0.desc[h := Desc(Nowhere, false, false, 0)][r.d1 := Desc(Nowhere, false, false, 0)]
                  && t.free == t0.free[h := true][r.d1 := true]
        invariant k == 3 ==> t.desc == Wiped(t0.desc, h, r) && t.free == Released(t0.free, h, r)
        decreases 3 - k
      {
        var flag, nxt := t.desc[i].more, t.desc[i].next;
        FreeDesc(i);
        if flag {
          i := nxt;
        } else {
          go := false;
        }
        k := k + 1;
      }
    }

    /** The second half of virtio_disk_rw, once b->disk is clear: the data has moved, and
        exactly the chain's three descriptors are free again. */
    method Finish(h: nat)
      requires Valid() && h in reqs && reqs[h].buf !in busy
      modifies this`t, this`reqs
      ensures Valid() && Finished(old(t), old(reqs), h, t, reqs, mem, store)
    {
      ghost var r := reqs[h];
      hide Good, RingsOk, Unformatted, Freeable, Finished;
      FinishFacts(t, reqs, busy, offered, finished, mem, store, h);
      FreeRequest(h, r);
      reqs := reqs - {h};
    }

    method FreeRequest(h: nat, ghost r: Req)
      requires Freeable(t, h, r)
      modifies this`t
      ensures t == Unformatted(old(t), h, r)
    {
      assert h < NUM;
      hide Linked, Unformatted, Wiped, Released, Triple;
      ghost var t0 := t;
      t := t.(info := t.info[h := t.info[h].(inUse := false)]);
      FreeChain(h, r);
      Undone(t0, h, r);
      t := t.(own := t.own - {h, r.d1, r.d2});
    }
  }

  lemma OfferFacts<T>(t: Tables, reqs: map<nat, Req>, busy: set<nat>, offered: seq<nat>, finished: seq<nat>,
                      mem: seq<T>, store: seq<T>, h: nat, r: Req)
    requires Good(t, reqs, busy, offered, finished, mem, store) && t.Sized() && Triple(h, r) && t.free[h]
    requires t.free[r.d1] && t.free[r.d2]
    requires r.phase == Offered && r.buf < |mem| && r.op.blockno < |store| && Unused(reqs, r.buf, r.op.blockno)
    ensures h !in reqs && |offered| < NUM
    ensures Good(Formatted(t, h, r), reqs[h := r], busy + {r.buf}, offered + [h], finished, mem, store)
  {
    hide Chains, Lists, BusyExact, Triple, Formatted;
    InFlightOf(t, reqs, offered);
    AddChain(t, reqs, h, r);
    ListsEnter(reqs, offered, Offered, h, r);
    ListsOther(reqs, finished, Used, h, r);
    BusyAdded(reqs, busy, h, r);
  }

  lemma FinishFacts<T>(t: Tables, reqs: map<nat, Req>, busy: set<nat>, offered: seq<nat>, finished: seq<nat>,
                       mem: seq<T>, store: seq<T>, h: nat)
    requires Good(t, reqs, busy, offered, finished, mem, store) && h in reqs && reqs[h].buf !in busy
    ensures Freeable(t, h, reqs[h]) && Finished(t, reqs, h, Unformatted(t, h, reqs[h]), reqs - {h}, mem, store)
    ensures Good(Unformatted(t, h, reqs[h]), reqs - {h}, busy, offered, finished, mem, store)
  {
    hide Chains, Lists, BusyExact, Moved, Agrees, Linked, Unformatted, Triple, Freeable;
    OwnDescs(t, reqs, h);
    WithoutOne(reqs, busy, mem, store, h);
    DropChain(t, reqs, h);
    ListsDrop(reqs, offered, Offered, h);
    ListsDrop(reqs, finished, Used, h);
  }

  /** Request h is over: its data has moved and its chain is free. */
  ghost predicate Finished<T>(t0: Tables, reqs0: map<nat, Req>, h: nat, t: Tables, reqs: map<nat, Req>, mem: seq<T>,
                              store: seq<T>) {
    && h in reqs0 && reqs == reqs0 - {h} && reqs0[h].phase == Acked && Agrees(reqs0[h], mem, store)
    && Freeable(t0, h, reqs0[h]) && t == Unformatted(t0, h, reqs0[h])
  }

  ghost function Wiped(desc: seq<Desc>, h: nat, r: Req): (d: seq<Desc>)
    requires |desc| == NUM && Triple(h, r)
    ensures |d| == NUM
  {
    desc[h := Desc(Nowhere, false, false, 0)]
    [r.d1 := Desc(Nowhere, false, false, 0)]
    [r.d2 := Desc(Nowhere, false, false, 0)]
  }

  ghost function Released(free: seq<bool>, h: nat, r: Req): (f: seq<bool>)
    requires |free| == NUM && Triple(h, r)
    ensures |f| == NUM
  {
    free[h := true][r.d1 := true][r.d2 := true]
  }

  /** What the interrupt handler makes of a request. */
  ghost function Seen(r: Req): (r': Req) {
    if r.phase == Used then r.(phase := Acked) else r
  }

  ghost predicate ReqsSeen(reqs0: map<nat, Req>, reqs: map<nat, Req>) {
    reqs.Keys == reqs0.Keys && forall h :: h in reqs ==> SeenSoFar(reqs0[h], reqs[h])
  }

  lemma SeenMore(reqs0: map<nat, Req>, reqs: map<nat, Req>, h: nat)
    requires ReqsSeen(reqs0, reqs) && h in reqs && reqs[h].phase == Used
    ensures ReqsSeen(reqs0, reqs[h := reqs[h].(phase := Acked)])
  {
    assert SeenSoFar(reqs0[h], reqs[h]);
  }

  lemma AllSeen(reqs0: map<nat, Req>, reqs: map<nat, Req>, q: seq<nat>)
    requires ReqsSeen(reqs0, reqs) && Lists(reqs, q, Used) && q == []
    ensures reqs.Keys == reqs0.Keys && forall h :: h in reqs ==> reqs[h] == Seen(reqs0[h])
  {
    forall h | h in reqs ensures reqs[h] == Seen(reqs0[h]) {
      assert SeenSoFar(reqs0[h], reqs[h]) && h !in q;
    }
  }

  /** The status the device wrote is in the tables of a finished request, with its buffer. */
  lemma UsedInfo(t: Tables, reqs: map<nat, Req>, h: nat)
    requires Chains(t, reqs) && h in reqs && reqs[h].phase == Used
    ensures h < NUM == |t.info| && t.info[h].ok && t.info[h].buf == reqs[h].buf
  {
    assert Chain(t, h, reqs[h]);
  }

  lemma OwnDescs(t: Tables, reqs: map<nat, Req>, h: nat)
    requires Chains(t, reqs) && h in reqs
    ensures Freeable(t, h, reqs[h])
  {
    assert Chain(t, h, reqs[h]);
  }

  lemma Undone(t: Tables, h: nat, r: Req)
    requires Freeable(t, h, r)
    ensures Unformatted(t, h, r)
            == t.(info := t.info[h := t.info[h].(inUse := false)], desc := Wiped(t.desc, h, r),
                  free := Released(t.free, h, r),
                  own := t.own - {h, r.d1, r.d2})
  {
  }

  lemma WithoutOne<T>(reqs: map<nat, Req>, busy: set<nat>, mem: seq<T>, store: seq<T>, h: nat)
    requires BusyExact(reqs, busy) && Moved(reqs, mem, store) && h in reqs && reqs[h].buf !in busy
    ensures reqs[h].phase == Acked && Agrees(reqs[h], mem, store)
    ensures BusyExact(reqs - {h}, busy) && Moved(reqs - {h}, mem, store)
  {
  }

  ghost predicate SeenSoFar(r: Req, r': Req) {
    r' == r || (r.phase == Used && r' == r.(phase := Acked))
  }

  /** free is free0 without the descriptors idx. */
  ghost predicate Minus(free0: seq<bool>, idx: seq<nat>, free: seq<bool>) {
    |free0| == |free| == NUM && forall k :: 0 <= k < NUM ==> free[k] == (free0[k] && k !in idx)
  }

  ghost predicate ThreeFree(free: seq<bool>)
    requires |free| == NUM
  {
    exists a, b, c :: 0 <= a < b < c < NUM && free[a] && free[b] && free[c]
  }

  lemma TooFew(free0: seq<bool>, idx: seq<nat>, free: seq<bool>)
    requires Minus(free0, idx, free) && |idx| < 3 && forall k :: 0 <= k < NUM ==> !free[k]
    ensures !ThreeFree(free0)
  {
    forall k | 0 <= k < NUM && free0[k] ensures k in idx {
      assert !free[k];
    }
    forall a, b, c | 0 <= a < b < c < NUM && free0[a] && free0[b] ensures !free0[c] {
      assert a in idx && b in idx;
      assert c in idx ==> |idx| >= 3;
    }
  }

  lemma Enough(free0: seq<bool>, idx: seq<nat>)
    requires |free0| == NUM && |idx| == 3 && Distinct(idx) && forall j :: 0 <= j < 3 ==> idx[j] < NUM && free0[idx[j]]
    ensures ThreeFree(free0)
  {
    var x, y, z := idx[0], idx[1], idx[2];
    var lo := if x < y then x else y;
    var hi := if x < y then y else x;
    if z < lo {
      assert free0[z] && free0[lo] && free0[hi];
    } else if z < hi {
      assert free0[lo] && free0[z] && free0[hi];
    } else {
      assert free0[lo] && free0[hi] && free0[z];
    }
  }

  lemma MinusThree(free0: seq<bool>, idx: seq<nat>, free: seq<bool>)
    requires Minus(free0, idx, free) && |idx| == 3 && forall j :: 0 <= j < 3 ==> idx[j] < NUM
    ensures free == free0[idx[0] := false][idx[1] := false][idx[2] := false]
  {
    assert idx == [idx[0], idx[1], idx[2]];
  }

  lemma BusyAdded(reqs: map<nat, Req>, busy: set<nat>, h: nat, r: Req)
    requires BusyExact(reqs, busy) && r.phase != Acked && Unused(reqs, r.buf, r.op.blockno)
    ensures BusyExact(reqs[h := r], busy + {r.buf})
  {
  }

  lemma InFlightOf(t: Tables, reqs: map<nat, Req>, q: seq<nat>)
    requires Chains(t, reqs) && Lists(reqs, q, Offered)
    ensures |q| < NUM
  {
    ListsSize(t, reqs, q, Offered);
  }

  lemma FailedAlloc(t: Tables, desc: seq<Desc>, reqs: map<nat, Req>)
    requires Chains(t, reqs) && |desc| == NUM && forall k :: 0 <= k < NUM && !t.free[k] ==> desc[k] == t.desc[k]
    ensures Chains(t.(desc := desc), reqs)
  {
    var t' := t.(desc := desc);
    forall g | g in reqs ensures Chain(t', g, reqs[g]) {
      assert Chain(t, g, reqs[g]);
      assert !t.free[g] && !t.free[reqs[g].d1] && !t.free[reqs[g].d2];
    }
    hide Chain;
  }

  lemma ListsHas(reqs: map<nat, Req>, q: seq<nat>, p: Phase)
    requires Lists(reqs, q, p) && q != []
    ensures q[0] in reqs && reqs[q[0]].phase == p
  {
    assert q[0] in q;
  }

  lemma ChainsApart(t: Tables, reqs: map<nat, Req>)
    requires Chains(t, reqs)
    ensures BufsApart(reqs)
  {
  }

  lemma BusyKept(reqs: map<nat, Req>, busy: set<nat>, h: nat, p: Phase)
    requires BusyExact(reqs, busy) && h in reqs && reqs[h].phase != Acked && p != Acked
    ensures BusyExact(reqs[h := reqs[h].(phase := p)], busy)
  {
  }

  /** The device takes a request. */
  lemma Moving<T>(t: Tables, reqs: map<nat, Req>, busy: set<nat>, mem: seq<T>, store: seq<T>, h: nat, p: Phase)
    requires Chains(t, reqs) && BusyExact(reqs, busy) && Moved(reqs, mem, store) && h in reqs
    requires reqs[h].phase == Offered && p == Taken
    ensures Chains(t, reqs[h := reqs[h].(phase := p)]) && BusyExact(reqs[h := reqs[h].(phase := p)], busy)
    ensures Moved(reqs[h := reqs[h].(phase := p)], mem, store)
  {
    MoveSame(t, reqs, h, p);
    BusyKept(reqs, busy, h, p);
    hide Chains, BusyExact;
    forall g | g in reqs ensures Agrees(reqs[h := reqs[h].(phase := p)][g], mem, store) {
      assert Agrees(reqs[g], mem, store);
    }
  }

  lemma TransferMoved<T>(reqs: map<nat, Req>, mem: seq<T>, store: seq<T>, h: nat, mem': seq<T>, store': seq<T>)
    requires BufsApart(reqs) && Moved(reqs, mem, store) && h in reqs && reqs[h].phase == Taken
    requires reqs[h].buf < |mem| == |mem'| && reqs[h].op.blockno < |store| == |store'|
    requires reqs[h].op.write ==> mem' == mem && store' == store[reqs[h].op.blockno := mem[reqs[h].buf]]
    requires !reqs[h].op.write ==> store' == store && mem' == mem[reqs[h].buf := store[reqs[h].op.blockno]]
    ensures Moved(reqs[h := reqs[h].(phase := Used)], mem', store')
  {
    forall g | g in reqs ensures Agrees(reqs[h := reqs[h].(phase := Used)][g], mem', store') {
      assert Agrees(reqs[g], mem, store);
    }
  }

  lemma AckedMove<T>(t: Tables, reqs: map<nat, Req>, busy: set<nat>, mem: seq<T>, store: seq<T>, h: nat)
    requires Chains(t, reqs) && BusyExact(reqs, busy) && Moved(reqs, mem, store) && h in reqs && reqs[h].phase == Used
    ensures Chains(t, reqs[h := reqs[h].(phase := Acked)])
    ensures BusyExact(reqs[h := reqs[h].(phase := Acked)], busy - {reqs[h].buf})
    ensures Moved(reqs[h := reqs[h].(phase := Acked)], mem, store)
  {
    hide Chain, OwnExact, BufsApart, BusyExact, Agrees;
    MoveSame(t, reqs, h, Acked);
    assert BufsApart(reqs);
    hide Chains;
    assert BusyExact(reqs[h := reqs[h].(phase := Acked)], busy - {reqs[h].buf}) by { AckedBusy(reqs, busy, h); }
    assert Moved(reqs[h := reqs[h].(phase := Acked)], mem, store) by { AckedMoved(reqs, mem, store, h); }
  }

  lemma AckedMoved<T>(reqs: map<nat, Req>, mem: seq<T>, store: seq<T>, h: nat)
    requires Moved(reqs, mem, store) && h in reqs && reqs[h].phase == Used
    ensures Moved(reqs[h := reqs[h].(phase := Acked)], mem, store)
  {
    forall g | g in reqs ensures Agrees(reqs[h := reqs[h].(phase := Acked)][g], mem, store) {
      assert Agrees(reqs[g], mem, store);
    }
  }

  lemma MoveSame(t: Tables, reqs: map<nat, Req>, h: nat, p: Phase)
    requires Chains(t, reqs) && h in reqs && p != Used
    ensures Chains(t, reqs[h := reqs[h].(phase := p)])
  {
    assert Chain(t, h, reqs[h]);
    hide Chain;
    MoveChain(t, reqs, h, p, t.info[h].ok);
    assert t.(info := t.info[h := t.info[h].(ok := t.info[h].ok)]) == t;
  }

  lemma AckedBusy(reqs: map<nat, Req>, busy: set<nat>, h: nat)
    requires BufsApart(reqs) && BusyExact(reqs, busy) && h in reqs
    ensures BusyExact(reqs[h := reqs[h].(phase := Acked)], busy - {reqs[h].buf})
  {
  }
}
