/**
 The user-space allocator: an address-ordered circular list of free blocks
 (section 8.7 of The C Programming Language, 2nd edition). Addresses and sizes are in
 units of one 16-byte header.
 */
module Umalloc {
  import opened Sets

  // ------------------------------------------------------------------ tiling

  /** blk gives the size of every block, free or live, by its address; own gives the block
      of every unit obtained from sbrk. Every unit is in exactly one block. */
  ghost predicate Tiling(blk: map<nat, nat>, own: map<nat, nat>) {
    && (forall b :: b in blk ==> blk[b] > 0 && Filled(own, b, blk[b]))
    && (forall u :: u in own ==> Within(blk, own[u], u))
  }

  ghost predicate Filled(own: map<nat, nat>, b: nat, n: nat) {
    forall u :: b <= u < b + n ==> At(own, u, b)
  }

  ghost predicate At(own: map<nat, nat>, u: nat, b: nat) {
    u in own && own[u] == b
  }

  ghost predicate Within(blk: map<nat, nat>, b: nat, u: nat) {
    b in blk && b <= u < b + blk[b]
  }

  lemma Disjoint(blk: map<nat, nat>, own: map<nat, nat>, a: nat, b: nat)
    requires Tiling(blk, own) && a in blk && b in blk && a < b
    ensures a + blk[a] <= b
  {
    assert Filled(own, a, blk[a]) && Filled(own, b, blk[b]);
    assert At(own, b, b);
    assert !At(own, b, a);
  }

  /** own after the units of [a, z) pass to block b. */
  ghost function Given(own: map<nat, nat>, a: nat, z: nat, b: nat): (own': map<nat, nat>)
    ensures own'.Keys == own.Keys
  {
    map u | u in own :: if a <= u < z then b else own[u]
  }

  lemma KeptFilled(own: map<nat, nat>, c: nat, n: nat, a: nat, z: nat, b: nat)
    requires Filled(own, c, n) && (c + n <= a || z <= c)
    ensures Filled(Given(own, a, z, b), c, n)
  {
    var own' := Given(own, a, z, b);
    forall u | c <= u < c + n ensures At(own', u, c) {
      assert At(own, u, c);
    }
  }

  /** Block b, right after block a, is joined to it. */
  lemma Joined(blk: map<nat, nat>, own: map<nat, nat>, a: nat, b: nat, n: nat)
    requires Tiling(blk, own) && a in blk && b in blk && a + blk[a] == b && n == blk[a] + blk[b]
    ensures Tiling((blk - {b})[a := n], Given(own, b, a + n, a))
  {
    var blk', own' := (blk - {b})[a := n], Given(own, b, a + n, a);
    forall c | c in blk' ensures blk'[c] > 0 && Filled(own', c, blk'[c]) {
      if c == a {
        JoinedFilled(own, a, blk[a], blk[b]);
      } else if c < b {
        Disjoint(blk, own, c, b);
        KeptFilled(own, c, blk[c], b, a + n, a);
      } else {
        Disjoint(blk, own, b, c);
        KeptFilled(own, c, blk[c], b, a + n, a);
      }
    }
    forall u | u in own' ensures Within(blk', own'[u], u) {
      assert Within(blk, own[u], u);
    }
  }

  lemma JoinedFilled(own: map<nat, nat>, a: nat, m: nat, n: nat)
    requires Filled(own, a, m) && Filled(own, a + m, n)
    ensures Filled(Given(own, a + m, a + m + n, a), a, m + n)
  {
    var b := a + m;
    var own' := Given(own, b, b + n, a);
    forall u | a <= u < b + n ensures At(own', u, a) {
      assert u < b ==> At(own, u, a);
      assert u >= b ==> At(own, u, b);
    }
  }

  /** The last n units of block p are cut off. */
  lemma Cut(blk: map<nat, nat>, own: map<nat, nat>, p: nat, n: nat)
    requires Tiling(blk, own) && p in blk && 0 < n < blk[p]
    ensures p + blk[p] - n !in blk
    ensures Tiling(blk[p := blk[p] - n][p + blk[p] - n := n], Given(own, p + blk[p] - n, p + blk[p], p + blk[p] - n))
  {
    var q, z := p + blk[p] - n, p + blk[p];
    var blk', own' := blk[p := blk[p] - n][q := n], Given(own, q, z, q);
    assert q !in blk by {
      assert q in blk ==> q >= z by { if q in blk { Disjoint(blk, own, p, q); } }
    }
    forall c | c in blk' ensures blk'[c] > 0 && Filled(own', c, blk'[c]) {
      if c == p || c == q {
        CutFilled(own, p, blk[p] - n, n);
      } else if c < p {
        Disjoint(blk, own, c, p);
        KeptFilled(own, c, blk[c], q, z, q);
      } else {
        Disjoint(blk, own, p, c);
        KeptFilled(own, c, blk[c], q, z, q);
      }
    }
    forall u | u in own' ensures Within(blk', own'[u], u) {
      assert Within(blk, own[u], u);
    }
  }

  lemma CutFilled(own: map<nat, nat>, p: nat, m: nat, n: nat)
    requires Filled(own, p, m + n)
    ensures Filled(Given(own, p + m, p + m + n, p + m), p, m) && Filled(Given(own, p + m, p + m + n, p + m), p + m, n)
  {
    var q := p + m;
    var own' := Given(own, q, q + n, q);
    forall u | p <= u < q ensures At(own', u, p) {
      assert At(own, u, p);
    }
    forall u | q <= u < q + n ensures At(own', u, q) {
      assert At(own, u, p);
    }
  }

  ghost function Range(p: nat, n: nat): (s: set<nat>) {
    Upto(p + n) - Upto(p)
  }

  /** n units from p on are added as one block. */
  ghost function Grown(own: map<nat, nat>, p: nat, n: nat): (own': map<nat, nat>)
    ensures own'.Keys == own.Keys + Range(p, n)
  {
    map u | u in own.Keys + Range(p, n) :: if p <= u < p + n then p else own[u]
  }

  lemma Extended(blk: map<nat, nat>, own: map<nat, nat>, p: nat, n: nat)
    requires Tiling(blk, own) && n > 0 && forall u :: u in own ==> u < p
    ensures p !in blk && Tiling(blk[p := n], Grown(own, p, n))
  {
    var blk', own' := blk[p := n], Grown(own, p, n);
    forall c | c in blk ensures c + blk[c] <= p {
      assert Filled(own, c, blk[c]);
      assert At(own, c + blk[c] - 1, c);
    }
    forall c | c in blk' ensures blk'[c] > 0 && Filled(own', c, blk'[c]) {
      forall u | c <= u < c + blk'[c] ensures At(own', u, c) {
        if c != p {
          assert At(own, u, c);
        }
      }
    }
    forall u | u in own' ensures Within(blk', own'[u], u) {
      if u < p {
        assert Within(blk, own[u], u);
      }
    }
  }

  // -------------------------------------------------------------------- the ring

  ghost function Next(i: nat, n: nat): (j: nat) {
    if i + 1 < n then i + 1 else 0
  }

  /** How many steps from index i forward to index j of a ring of n. */
  ghost function Dist(i: nat, j: nat, n: nat): (d: nat)
    requires i < n && j < n
  {
    if i <= j then j - i else j + n - i
  }

  ghost predicate Ascending(ring: seq<nat>) {
    forall i, j :: 0 <= i < j < |ring| ==> ring[i] < ring[j]
  }

  /** ring is the list from base around: in address order, with one wrap, and a gap after
      every free block. */
  ghost predicate RingOk(ring: seq<nat>, base: nat, ptr: map<nat, nat>, size: map<nat, nat>) {
    && ring != [] && ring[0] == base && Ascending(ring)
    && Nodes(ring, ptr, size)
    && base in size && size[base] == 0
    && (forall i :: 0 <= i < |ring| - 1 ==> Gap(ring, size, i))
  }

  ghost predicate Nodes(ring: seq<nat>, ptr: map<nat, nat>, size: map<nat, nat>) {
    forall i :: 0 <= i < |ring| ==> Node(ring, ptr, size, i)
  }

  ghost predicate Node(ring: seq<nat>, ptr: map<nat, nat>, size: map<nat, nat>, i: nat)
    requires i < |ring|
  {
    ring[i] in ptr && ring[i] in size && ptr[ring[i]] == ring[Next(i, |ring|)]
  }

  ghost predicate Gap(ring: seq<nat>, size: map<nat, nat>, i: nat)
    requires i + 1 < |ring|
  {
    ring[i] in size && ring[i] + size[ring[i]] < ring[i + 1]
  }

  ghost function Without(ring: seq<nat>, i: nat): (r: seq<nat>)
    requires i < |ring|
    ensures |r| == |ring| - 1 && forall k :: 0 <= k < |r| ==> r[k] == ring[if k < i then k else k + 1]
  {
    ring[..i] + ring[i + 1..]
  }

  ghost function With(ring: seq<nat>, i: nat, x: nat): (r: seq<nat>)
    requires i <= |ring|
    ensures |r| == |ring| + 1
    ensures forall k :: 0 <= k < |r| ==> r[k] == if k < i then ring[k] else if k == i then x else ring[k - 1]
  {
    ring[..i] + [x] + ring[i..]
  }

  /** Unlinking the node after index i. */
  lemma RingWithout(ring: seq<nat>, base: nat, ptr: map<nat, nat>, size: map<nat, nat>, i: nat)
    requires RingOk(ring, base, ptr, size) && i + 1 < |ring|
    ensures ring[i + 1] in ptr && RingOk(Without(ring, i + 1), base, ptr[ring[i] := ptr[ring[i + 1]]], size)
  {
    NodesWithout(ring, ptr, size, i);
    hide Nodes, Node;
    var r := Without(ring, i + 1);
    forall k | 0 <= k < |r| - 1 ensures Gap(r, size, k) {
      if k < i {
        assert Gap(ring, size, k);
      } else if k == i {
        assert Gap(ring, size, i) && ring[i + 1] < ring[i + 2];
      } else {
        assert Gap(ring, size, k + 1);
      }
    }
    assert Ascending(r);
  }

  lemma NodesWithout(ring: seq<nat>, ptr: map<nat, nat>, size: map<nat, nat>, i: nat)
    requires Nodes(ring, ptr, size) && Ascending(ring) && i + 1 < |ring|
    ensures ring[i + 1] in ptr && Nodes(Without(ring, i + 1), ptr[ring[i] := ptr[ring[i + 1]]], size)
  {
    assert Node(ring, ptr, size, i + 1);
    var r, ptr' := Without(ring, i + 1), ptr[ring[i] := ptr[ring[i + 1]]];
    forall k | 0 <= k < |r| ensures Node(r, ptr', size, k) {
      if k < i {
        assert Node(ring, ptr, size, k) && ring[k] < ring[i];
      } else if k == i {
        assert Node(ring, ptr, size, i);
      } else {
        assert Node(ring, ptr, size, k + 1) && ring[i] < ring[k + 1];
      }
    }
  }

  /** Linking x in after index i, whose successor x already points to. */
  lemma RingWith(ring: seq<nat>, base: nat, ptr: map<nat, nat>, size: map<nat, nat>, i: nat, x: nat)
    requires i < |ring| && x in ptr && x in size && ptr[x] == ring[Next(i, |ring|)]
    requires RingOk(ring, base, ptr[ring[i] := ptr[x]], size) && ring[i] in size
    requires ring[i] + size[ring[i]] < x && (i + 1 < |ring| ==> x + size[x] < ring[i + 1])
    ensures RingOk(With(ring, i + 1, x), base, ptr[ring[i] := x], size)
  {
    var r, ptr0, ptr' := With(ring, i + 1, x), ptr[ring[i] := ptr[x]], ptr[ring[i] := x];
    AscendingWith(ring, i, x);
    NodesWith(ring, ptr, size, i, x);
    forall k | 0 <= k < |r| - 1 ensures Gap(r, size, k) {
      if k < i {
        assert Gap(ring, size, k);
      } else if k > i + 1 {
        assert Gap(ring, size, k - 1);
      }
    }
  }

  lemma NodesWith(ring: seq<nat>, ptr: map<nat, nat>, size: map<nat, nat>, i: nat, x: nat)
    requires i < |ring| && x in ptr && x in size && ptr[x] == ring[Next(i, |ring|)] && Ascending(With(ring, i + 1, x))
    requires Nodes(ring, ptr[ring[i] := ptr[x]], size)
    ensures Nodes(With(ring, i + 1, x), ptr[ring[i] := x], size)
  {
    var r, ptr0, ptr' := With(ring, i + 1, x), ptr[ring[i] := ptr[x]], ptr[ring[i] := x];
    forall k | 0 <= k < |r| ensures Node(r, ptr', size, k) {
      if k < i {
        assert Node(ring, ptr0, size, k) && r[k] < r[i] < r[i + 1];
      } else if k == i {
        assert Node(ring, ptr0, size, k);
      } else if k == i + 1 {
        assert r[k] == x && r[i] < x;
      } else {
        assert Node(ring, ptr0, size, k - 1) && r[k] > r[i + 1] > r[i];
      }
    }
  }

  lemma AscendingWith(ring: seq<nat>, i: nat, x: nat)
    requires Ascending(ring) && i < |ring| && ring[i] < x && (i + 1 < |ring| ==> x < ring[i + 1])
    ensures Ascending(With(ring, i + 1, x))
  {
  }

  /** The node at index i > 0 changes size, still short of its successor. */
  lemma RingResized(ring: seq<nat>, base: nat, ptr: map<nat, nat>, size: map<nat, nat>, i: nat, s: nat)
    requires RingOk(ring, base, ptr, size) && 0 < i < |ring| && (i + 1 < |ring| ==> ring[i] + s < ring[i + 1])
    ensures RingOk(ring, base, ptr, size[ring[i] := s])
  {
    var size' := size[ring[i] := s];
    forall k | 0 <= k < |ring| ensures Node(ring, ptr, size', k) {
      assert Node(ring, ptr, size, k);
    }
    forall k | 0 <= k < |ring| - 1 ensures Gap(ring, size', k) {
      assert Gap(ring, size, k);
    }
  }

  lemma {:induction false} PlaceOf(ring: seq<nat>, x: nat, n: nat) returns (j: nat)
    requires Ascending(ring) && 0 < n <= |ring| && ring[0] < x && x !in ring
    requires n < |ring| ==> x < ring[n]
    ensures j < |ring| && ring[j] < x && (j + 1 < |ring| ==> x < ring[j + 1])
    decreases n
  {
    if ring[n - 1] < x {
      j := n - 1;
    } else {
      j := PlaceOf(ring, x, n - 1);
    }
  }

  /** Headers off the ring do not matter to it. */
  lemma RingOff(ring: seq<nat>, base: nat, ptr: map<nat, nat>, size: map<nat, nat>, x: nat, a: nat, b: nat)
    requires RingOk(ring, base, ptr, size) && x !in ring
    ensures RingOk(ring, base, ptr[x := a], size) && RingOk(ring, base, ptr, size[x := b])
    ensures RingOk(ring, base, ptr[x := a], size[x := b])
  {
    var ptr', size' := ptr[x := a], size[x := b];
    forall k | 0 <= k < |ring|
      ensures Node(ring, ptr', size, k) && Node(ring, ptr, size', k) && Node(ring, ptr', size', k)
    {
      assert Node(ring, ptr, size, k) && ring[k] in ring;
    }
    forall k | 0 <= k < |ring| - 1 ensures Gap(ring, size', k) {
      assert Gap(ring, size, k) && ring[k] in ring;
    }
  }

  lemma InWithout(ring: seq<nat>, i: nat, b: nat)
    requires i < |ring| && b in ring && b != ring[i]
    ensures b in Without(ring, i)
  {
    var k :| 0 <= k < |ring| && ring[k] == b;
    var r := Without(ring, i);
    assert k < i ==> r[k] == b;
    assert k > i ==> r[k - 1] == b;
  }

  lemma InWith(ring: seq<nat>, i: nat, x: nat, b: nat)
    requires i <= |ring| && (b in ring || b == x)
    ensures b in With(ring, i, x)
  {
    var r := With(ring, i, x);
    if b == x {
      assert r[i] == x;
    } else {
      var k :| 0 <= k < |ring| && ring[k] == b;
      assert k < i ==> r[k] == b;
      assert k >= i ==> r[k + 1] == b;
    }
  }

  // ---------------------------------------------------------- free and live blocks

  ghost predicate FreeBlock(b: nat, size: map<nat, nat>, live: map<nat, nat>, blk: map<nat, nat>) {
    b in blk && b !in live && b in size && size[b] == blk[b]
  }

  ghost predicate LiveBlock(b: nat, size: map<nat, nat>, live: map<nat, nat>, blk: map<nat, nat>) {
    b in live && b in blk && b in size && blk[b] == live[b] == size[b]
  }

  /** The blocks are the ring's, except base, and the live ones. */
  ghost predicate Blocks(ring: seq<nat>, size: map<nat, nat>, live: map<nat, nat>, blk: map<nat, nat>) {
    && (forall i :: 0 < i < |ring| ==> FreeBlock(ring[i], size, live, blk))
    && (forall b :: b in live ==> LiveBlock(b, size, live, blk))
    && (forall b :: b in blk ==> b in live || b in ring)
    && (ring != [] ==> ring[0] !in blk)
  }

  lemma NotInRing(ring: seq<nat>, size: map<nat, nat>, live: map<nat, nat>, blk: map<nat, nat>, b: nat)
    requires Blocks(ring, size, live, blk) && (b in live || b !in blk) && (ring != [] ==> b != ring[0])
    ensures b !in ring
  {
    forall i | 0 <= i < |ring| ensures ring[i] != b {
      assert i > 0 ==> FreeBlock(ring[i], size, live, blk);
      assert b in live ==> LiveBlock(b, size, live, blk);
    }
  }

  lemma BlocksJoinNext(ring: seq<nat>, size: map<nat, nat>, live: map<nat, nat>, blk: map<nat, nat>, j: nat, bp: nat,
                       n: nat)
    requires Blocks(ring, size, live, blk) && Ascending(ring) && j + 1 < |ring| && bp in live
    ensures Blocks(Without(ring, j + 1), size[bp := n], live[bp := n], (blk - {ring[j + 1]})[bp := n])
  {
    var nxt, r := ring[j + 1], Without(ring, j + 1);
    var size', live', blk' := size[bp := n], live[bp := n], (blk - {nxt})[bp := n];
    assert FreeBlock(nxt, size, live, blk) && LiveBlock(bp, size, live, blk);
    forall i | 0 < i < |r| ensures FreeBlock(r[i], size', live', blk') {
      assert FreeBlock(ring[if i <= j then i else i + 1], size, live, blk);
    }
    forall b | b in live' ensures LiveBlock(b, size', live', blk') {
      assert LiveBlock(b, size, live, blk);
    }
    forall b | b in blk' ensures b in live' || b in r {
      if b !in live {
        InWithout(ring, j + 1, b);
      }
    }
  }

  lemma BlocksJoinPrev(ring: seq<nat>, size: map<nat, nat>, live: map<nat, nat>, blk: map<nat, nat>, j: nat, bp: nat,
                       n: nat)
    requires Blocks(ring, size, live, blk) && Ascending(ring) && 0 < j < |ring| && bp in live
    ensures Blocks(ring, size[ring[j] := n], live - {bp}, (blk - {bp})[ring[j] := n])
  {
    var p := ring[j];
    var size', live', blk' := size[p := n], live - {bp}, (blk - {bp})[p := n];
    assert FreeBlock(p, size, live, blk) && LiveBlock(bp, size, live, blk);
    forall i | 0 < i < |ring| ensures FreeBlock(ring[i], size', live', blk') {
      assert FreeBlock(ring[i], size, live, blk);
    }
    forall b | b in live' ensures LiveBlock(b, size', live', blk') {
      assert LiveBlock(b, size, live, blk);
    }
  }

  lemma BlocksInsert(ring: seq<nat>, size: map<nat, nat>, live: map<nat, nat>, blk: map<nat, nat>, j: nat, bp: nat)
    requires Blocks(ring, size, live, blk) && j < |ring| && bp in live
    ensures Blocks(With(ring, j + 1, bp), size, live - {bp}, blk)
  {
    var r, live' := With(ring, j + 1, bp), live - {bp};
    assert LiveBlock(bp, size, live, blk);
    forall i | 0 < i < |r| ensures FreeBlock(r[i], size, live', blk) {
      if i <= j {
        assert FreeBlock(ring[i], size, live, blk);
      } else if i > j + 1 {
        assert FreeBlock(ring[i - 1], size, live, blk);
      }
    }
    forall b | b in live' ensures LiveBlock(b, size, live', blk) {
      assert LiveBlock(b, size, live, blk);
    }
    forall b | b in blk ensures b in live' || b in r {
      if b in ring || b == bp {
        InWith(ring, j + 1, bp, b);
      }
    }
  }

  /** A whole free block is handed out. */
  lemma BlocksTake(ring: seq<nat>, size: map<nat, nat>, live: map<nat, nat>, blk: map<nat, nat>, k: nat)
    requires Blocks(ring, size, live, blk) && Ascending(ring) && 0 < k < |ring| && ring[k] in blk
    ensures Blocks(Without(ring, k), size, live[ring[k] := blk[ring[k]]], blk)
  {
    var p, r := ring[k], Without(ring, k);
    var live' := live[p := blk[p]];
    assert FreeBlock(p, size, live, blk);
    forall i | 0 < i < |r| ensures FreeBlock(r[i], size, live', blk) {
      assert FreeBlock(ring[if i < k then i else i + 1], size, live, blk);
    }
    forall b | b in live' ensures LiveBlock(b, size, live', blk) {
      assert b != p ==> LiveBlock(b, size, live, blk);
    }
    forall b | b in blk ensures b in live' || b in r {
      if b !in live' {
        InWithout(ring, k, b);
      }
    }
  }

  /** The tail q of the free block at index k is handed out. */
  lemma BlocksSplit(ring: seq<nat>, size: map<nat, nat>, live: map<nat, nat>, blk: map<nat, nat>, k: nat, m: nat,
                    q: nat, n: nat)
    requires Blocks(ring, size, live, blk) && Ascending(ring) && 0 < k < |ring| && q !in blk && q != ring[0]
    ensures Blocks(ring, size[ring[k] := m][q := n], live[q := n], blk[ring[k] := m][q := n])
  {
    var p := ring[k];
    var size', live', blk' := size[p := m][q := n], live[q := n], blk[p := m][q := n];
    assert FreeBlock(p, size, live, blk);
    forall i | 0 < i < |ring| ensures FreeBlock(ring[i], size', live', blk') {
      assert FreeBlock(ring[i], size, live, blk);
    }
    forall b | b in live' ensures LiveBlock(b, size', live', blk') {
      assert b != q ==> LiveBlock(b, size, live, blk);
    }
  }

  /** Fresh memory becomes a live block of its own. */
  lemma BlocksFresh(ring: seq<nat>, size: map<nat, nat>, live: map<nat, nat>, blk: map<nat, nat>, hp: nat, n: nat)
    requires Blocks(ring, size, live, blk) && hp !in blk && (ring != [] ==> ring[0] != hp)
    ensures Blocks(ring, size[hp := n], live[hp := n], blk[hp := n])
  {
    var size', live', blk' := size[hp := n], live[hp := n], blk[hp := n];
    forall i | 0 < i < |ring| ensures FreeBlock(ring[i], size', live', blk') {
      assert FreeBlock(ring[i], size, live, blk);
    }
    forall b | b in live' ensures LiveBlock(b, size', live', blk') {
      assert b != hp ==> LiveBlock(b, size, live, blk);
    }
  }

  // ------------------------------------------------------------------ the allocator

  /** The headers in memory. */
  datatype Heads = Heads(ptr: map<nat, nat>, size: map<nat, nat>)

  /** The free list from base around; the blocks handed out, with their sizes; all blocks;
      and the block of each unit. */
  datatype Shape = Shape(ring: seq<nat>, live: map<nat, nat>, blk: map<nat, nat>, own: map<nat, nat>)

  ghost predicate State(h: Heads, g: Shape, base: nat, brk: nat) {
    && RingOk(g.ring, base, h.ptr, h.size) && Blocks(g.ring, h.size, g.live, g.blk) && Tiling(g.blk, g.own)
    && InHeap(g.own, base, brk)
  }

  ghost predicate InHeap(own: map<nat, nat>, base: nat, brk: nat) {
    base < brk && forall u :: u in own ==> base < u < brk
  }

  /** bp, a live block, lies between the ring's nodes j and j + 1. */
  ghost predicate Between(ring: seq<nat>, size: map<nat, nat>, j: nat, bp: nat) {
    && j < |ring| && ring[j] in size && bp in size && ring[j] + size[ring[j]] <= bp
    && (j + 1 < |ring| ==> bp + size[bp] <= ring[j + 1])
  }

  lemma LiveBetween(h: Heads, g: Shape, base: nat, brk: nat, j: nat, bp: nat)
    requires State(h, g, base, brk) && bp in g.live
    requires j < |g.ring| && g.ring[j] < bp && (j + 1 < |g.ring| ==> bp < g.ring[j + 1])
    ensures Between(g.ring, h.size, j, bp)
  {
    hide Tiling;
    assert LiveBlock(bp, h.size, g.live, g.blk) && Node(g.ring, h.ptr, h.size, j);
    if j > 0 {
      assert FreeBlock(g.ring[j], h.size, g.live, g.blk);
      Disjoint(g.blk, g.own, g.ring[j], bp);
    }
    if j + 1 < |g.ring| {
      assert FreeBlock(g.ring[j + 1], h.size, g.live, g.blk);
      Disjoint(g.blk, g.own, bp, g.ring[j + 1]);
    }
  }

  lemma LiveOffRing(h: Heads, g: Shape, base: nat, brk: nat, bp: nat)
    requires State(h, g, base, brk) && bp in g.live
    ensures base < bp && bp !in g.ring && LiveBlock(bp, h.size, g.live, g.blk) && g.live[bp] > 0
  {
    assert LiveBlock(bp, h.size, g.live, g.blk);
    assert Filled(g.own, bp, g.blk[bp]);
    assert At(g.own, bp, bp);
    hide Tiling;
    NotInRing(g.ring, h.size, g.live, g.blk, bp);
  }

  lemma OnRing(h: Heads, g: Shape, base: nat, brk: nat, j: nat)
    requires State(h, g, base, brk) && j < |g.ring|
    ensures Ascending(g.ring) && g.ring[0] == base && Node(g.ring, h.ptr, h.size, j) && g.ring[j] >= base
    ensures j == 0 ==> h.size[g.ring[j]] == 0
    ensures j > 0 ==> FreeBlock(g.ring[j], h.size, g.live, g.blk)
  {
  }

  /** Inside free, when bp points at what will follow it: the ring is right but for p's link. */
  ghost predicate Half(h: Heads, g: Shape, base: nat, brk: nat, j: nat, bp: nat) {
    && j < |g.ring| && bp in g.live && bp in h.ptr && h.ptr[bp] == g.ring[Next(j, |g.ring|)]
    && State(h.(ptr := h.ptr[g.ring[j] := h.ptr[bp]]), g, base, brk)
    && Between(g.ring, h.size, j, bp) && (j + 1 < |g.ring| ==> bp + h.size[bp] < g.ring[j + 1])
  }

  /** The header at a takes over the size and the link of the one at b. */
  function Absorb(h: Heads, a: nat, b: nat): (h': Heads)
    requires Known(h, a, b)
  {
    Heads(h.ptr[a := h.ptr[b]], h.size[a := h.size[a] + h.size[b]])
  }

  predicate Known(h: Heads, a: nat, b: nat) {
    a in h.size && b in h.size && b in h.ptr
  }

  /** The blocks once a has taken over b, right after it, for n units in all. */
  ghost function Merged(g: Shape, a: nat, b: nat, n: nat): (g': Shape) {
    g.(blk := (g.blk - {b})[a := n], own := Given(g.own, b, a + n, a))
  }

  /** The block after bp is free: bp takes it over. */
  ghost function TookNext(g: Shape, j: nat, bp: nat, n: nat): (g': Shape)
    requires j + 1 < |g.ring|
    ensures g'.own.Keys == g.own.Keys && g'.live == g.live[bp := n] && j < |g'.ring| && g'.ring[j] == g.ring[j]
  {
    Merged(g, bp, g.ring[j + 1], n).(ring := Without(g.ring, j + 1), live := g.live[bp := n])
  }

  lemma HalfJoined(h: Heads, g: Shape, base: nat, brk: nat, j: nat, bp: nat, nxt: nat)
    requires State(h, g, base, brk) && bp in g.live && Between(g.ring, h.size, j, bp)
    requires j + 1 < |g.ring| && nxt == g.ring[j + 1] && bp + h.size[bp] == nxt
    ensures Known(h, bp, nxt) && h.size[bp] == g.live[bp]
    ensures Half(Absorb(h, bp, nxt), TookNext(g, j, bp, h.size[bp] + h.size[nxt]), base, brk, j, bp)
  {
    hide RingOk, Blocks, Tiling, InHeap, Between, Ascending, Given, Without;
    OnRing(h, g, base, brk, j + 1);
    LiveOffRing(h, g, base, brk, bp);
    var n := h.size[bp] + h.size[nxt];
    Joined(g.blk, g.own, bp, nxt, n);
    HeapGiven(g.own, base, brk, nxt, bp + n, bp);
    BlocksJoinNext(g.ring, h.size, g.live, g.blk, j, bp, n);
    HalfRing(g.ring, base, h.ptr, h.size, j, bp, n);
  }

  lemma HeapGiven(own: map<nat, nat>, base: nat, brk: nat, a: nat, z: nat, b: nat)
    requires InHeap(own, base, brk)
    ensures InHeap(Given(own, a, z, b), base, brk)
  {
  }

  lemma HalfRing(ring: seq<nat>, base: nat, ptr: map<nat, nat>, size: map<nat, nat>, j: nat, bp: nat, n: nat)
    requires RingOk(ring, base, ptr, size) && j + 1 < |ring| && bp !in ring && ring[j + 1] in size && ring[j + 1] in ptr
    requires Between(ring, size, j, bp) && bp + size[bp] == ring[j + 1] && n == size[bp] + size[ring[j + 1]]
    ensures var r, ptr' := Without(ring, j + 1), ptr[bp := ptr[ring[j + 1]]];
            && RingOk(r, base, ptr'[r[j] := ptr'[bp]], size[bp := n]) && Between(r, size[bp := n], j, bp)
            && ptr'[bp] == r[Next(j, |r|)]
            && (j + 1 < |r| ==> bp + n < r[j + 1])
  {
    var nxt, r := ring[j + 1], Without(ring, j + 1);
    assert Node(ring, ptr, size, j + 1);
    assert j + 2 < |ring| ==> Gap(ring, size, j + 1);
    RingWithout(ring, base, ptr, size, j);
    hide RingOk;
    RingOff(r, base, ptr[ring[j] := ptr[nxt]], size, bp, ptr[nxt], n);
    assert ptr[ring[j] := ptr[nxt]][bp := ptr[nxt]] == ptr[bp := ptr[nxt]][ring[j] := ptr[nxt]];
  }

  lemma HalfApart(h: Heads, g: Shape, base: nat, brk: nat, j: nat, bp: nat)
    requires State(h, g, base, brk) && bp in g.live && Between(g.ring, h.size, j, bp)
    requires j + 1 < |g.ring| ==> bp + h.size[bp] != g.ring[j + 1]
    ensures g.ring[j] in h.ptr && Half(h.(ptr := h.ptr[bp := h.ptr[g.ring[j]]]), g, base, brk, j, bp)
  {
    OnRing(h, g, base, brk, j);
    LiveOffRing(h, g, base, brk, bp);
    hide Blocks, Tiling;
    var ptr' := h.ptr[bp := h.ptr[g.ring[j]]];
    RingOff(g.ring, base, h.ptr, h.size, bp, h.ptr[g.ring[j]], h.size[bp]);
    assert ptr'[g.ring[j] := ptr'[bp]] == ptr';
  }

  /** The block before bp is free: it takes bp over. */
  lemma WholeJoined(h: Heads, g: Shape, base: nat, brk: nat, j: nat, bp: nat)
    requires Half(h, g, base, brk, j, bp) && g.ring[j] + h.size[g.ring[j]] == bp
    ensures Known(h, g.ring[j], bp)
    ensures State(Absorb(h, g.ring[j], bp),
                  Merged(g, g.ring[j], bp, h.size[g.ring[j]] + h.size[bp]).(live := g.live - {bp}), base, brk)
  {
    hide Tiling, Blocks, RingOk, InHeap, Given, Ascending;
    var p := g.ring[j];
    var h0 := h.(ptr := h.ptr[p := h.ptr[bp]]);
    LiveOffRing(h0, g, base, brk, bp);
    OnRing(h0, g, base, brk, j);
    assert j > 0;
    var n := h.size[p] + h.size[bp];
    Joined(g.blk, g.own, p, bp, n);
    HeapGiven(g.own, base, brk, bp, p + n, p);
    BlocksJoinPrev(g.ring, h.size, g.live, g.blk, j, bp, n);
    RingResized(g.ring, base, h0.ptr, h.size, j, n);
  }

  lemma WholeApart(h: Heads, g: Shape, base: nat, brk: nat, j: nat, bp: nat)
    requires Half(h, g, base, brk, j, bp) && g.ring[j] + h.size[g.ring[j]] != bp
    ensures State(h.(ptr := h.ptr[g.ring[j] := bp]), g.(ring := With(g.ring, j + 1, bp), live := g.live - {bp}), base,
                  brk)
  {
    hide Tiling, Node, Gap;
    RingWith(g.ring, base, h.ptr, h.size, j, bp);
    hide RingOk;
    BlocksInsert(g.ring, h.size, g.live, g.blk, j, bp);
  }

  class Heap {
    const base: nat
    var h: Heads
    /** 0 until the first call of malloc. */
    var freep: nat
    /** The end of the process's memory, which sbrk moves. */
    var brk: nat
    ghost var g: Shape
    /** freep's index in the ring. */
    ghost var at: nat

    ghost predicate Valid()
      reads this
    {
      && base > 0
      && if freep == 0 then g == Shape([], map[], map[], map[]) && base < brk
         else State(h, g, base, brk) && at < |g.ring| && g.ring[at] == freep
    }

    constructor (base: nat, brk: nat)
      requires 0 < base < brk
      ensures Valid() && freep == 0 && g == Shape([], map[], map[], map[]) && this.base == base && this.brk == brk
    {
      this.base, this.brk, freep, h := base, brk, 0, Heads(map[], map[]);
      g := Shape([], map[], map[], map[]);
    }

    /** The search loop of free: the node after which bp belongs. */
    method FindPlace(bp: nat) returns (p: nat, ghost j: nat)
      requires State(h, g, base, brk) && at < |g.ring| && g.ring[at] == freep && bp in g.live
      ensures j < |g.ring| && p == g.ring[j] && p < bp && (j + 1 < |g.ring| ==> bp < g.ring[j + 1])
    {
      hide Blocks, Tiling;
      LiveOffRing(h, g, base, brk, bp);
      j := PlaceOf(g.ring, bp, |g.ring|);
      p := freep;
      ghost var i: nat := at;
      while true
        invariant i < |g.ring| && p == g.ring[i]
        decreases Dist(i, j, |g.ring|)
      {
        assert Node(g.ring, h.ptr, h.size, i);
        StopsAtPlace(g.ring, bp, i, j);
        var nxt := h.ptr[p];
        if bp > p && bp < nxt {
          break;
        }
        if p >= nxt && (bp > p || bp < nxt) {
          break;
        }
        p := nxt;
        i := Next(i, |g.ring|);
      }
    }

    /** free, after its search: join bp with what follows it, if that is free. */
    method JoinNext(bp: nat, p: nat, ghost j: nat)
      requires State(h, g, base, brk) && bp in g.live && Between(g.ring, h.size, j, bp) && p == g.ring[j]
      modifies this`h, this`g
      ensures Half(h, g, base, brk, j, bp) && p == g.ring[j] && g.own.Keys == old(g).own.Keys
      ensures g.live == old(g).live[bp := g.live[bp]] && g.live[bp] >= old(g).live[bp]
    {
      hide State, Half, Ascending, TookNext, Absorb, FreeBlock;
      OnRing(h, g, base, brk, j);
      LiveOffRing(h, g, base, brk, bp);
      var nxt: nat := h.ptr[p];
      if bp + h.size[bp] == nxt {
        HalfJoined(h, g, base, brk, j, bp, nxt);
        g := TookNext(g, j, bp, h.size[bp] + h.size[nxt]);
        h := Absorb(h, bp, nxt);
      } else {
        HalfApart(h, g, base, brk, j, bp);
        h := h.(ptr := h.ptr[bp := h.ptr[p]]);
      }
    }

    /** Then with what precedes it. The result is in the ring, at index w. */
    method JoinPrev(bp: nat, p: nat, ghost j: nat) returns (ghost w: nat)
      requires Half(h, g, base, brk, j, bp) && p == g.ring[j]
      modifies this`h, this`g
      ensures State(h, g, base, brk) && j < |g.ring| && p == g.ring[j] && g.own.Keys == old(g).own.Keys
      ensures g.live == old(g).live - {bp} && Fits(h, g, w, old(g).live[bp])
    {
      hide State, Given;
      LiveOffRing(h.(ptr := h.ptr[g.ring[j] := h.ptr[bp]]), g, base, brk, bp);
      if p + h.size[p] == bp {
        w := j;
        WholeJoined(h, g, base, brk, j, bp);
        g := Merged(g, p, bp, h.size[p] + h.size[bp]).(live := g.live - {bp});
        h := Absorb(h, p, bp);
      } else {
        w := j + 1;
        WholeApart(h, g, base, brk, j, bp);
        g := g.(ring := With(g.ring, j + 1, bp), live := g.live - {bp});
        h := h.(ptr := h.ptr[p := bp]);
      }
    }

    /** free, of a live block. */
    method Free(bp: nat) returns (ghost w: nat)
      requires Valid() && bp in g.live
      modifies this`h, this`g, this`freep, this`at
      ensures Valid() && freep != 0 && g.live == old(g).live - {bp} && g.own.Keys == old(g).own.Keys
      ensures Fits(h, g, w, old(g).live[bp])
    {
      ghost var j;
      var p;
      hide State, Between, Half;
      p, j := FindPlace(bp);
      LiveBetween(h, g, base, brk, j, bp);
      JoinNext(bp, p, j);
      w := JoinPrev(bp, p, j);
      OnRing(h, g, base, brk, j);
      assert p > 0;
      freep, at := p, j;
    }

    /** morecore: sbrk grants or refuses, and the break may have been moved on since the
        last call. On success the ring holds a block of nu units, at index w. */
    method Morecore(nu: nat, grant: bool, gap: nat) returns (p: nat, ghost w: nat)
      requires Valid() && freep != 0 && nu > 0
      modifies this`h, this`g, this`freep, this`at, this`brk
      ensures Valid() && freep != 0 && g.live == old(g).live
      ensures !grant ==> p == 0 && h == old(h) && g == old(g) && freep == old(freep) && brk == old(brk) && at == old(at)
      ensures grant ==> p == freep && Fits(h, g, w, nu) && brk == old(brk) + gap + Ask(nu)
                        && g.own.Keys == old(g).own.Keys + Range(old(brk) + gap, Ask(nu))
    {
      hide State, Range, Grown;
      w := 0;
      var n := Ask(nu);
      if !grant {
        return 0, 0;
      }
      var hp := brk + gap;
      brk := hp + n;
      FreshBlock(h, g, base, hp - gap, hp, n);
      h := h.(size := h.size[hp := n]);
      g := Shape(g.ring, g.live[hp := n], g.blk[hp := n], Grown(g.own, hp, n));
      w := Free(hp);
      p := freep;
    }

    /** malloc's carving of n units from the free block p, which follows prevp in the ring. */
    method Carve(prevp: nat, p: nat, n: nat, ghost i: nat) returns (bp: nat)
      requires State(h, g, base, brk) && base > 0 && i < |g.ring| && prevp == g.ring[i]
      requires p == g.ring[Next(i, |g.ring|)]
      requires p in h.size && h.size[p] >= n > 0
      modifies this`h, this`g, this`freep, this`at
      ensures Valid() && freep != 0 && g.own.Keys == old(g).own.Keys && bp !in old(g).live
      ensures g.live == old(g).live[bp := n]
    {
      hide State, Ascending, Without, Given;
      ghost var k := Next(i, |g.ring|);
      OnRing(h, g, base, brk, k);
      OnRing(h, g, base, brk, i);
      assert k == i + 1;
      if h.size[p] == n {
        bp := p;
        TookWhole(h, g, base, brk, i);
        h := h.(ptr := h.ptr[prevp := h.ptr[p]]);
        g := g.(ring := Without(g.ring, k), live := g.live[p := n]);
      } else {
        var m := h.size[p] - n;
        bp := p + m;
        TookTail(h, g, base, brk, k, n);
        h := h.(size := h.size[p := m]);
        h := h.(size := h.size[bp := n]);
        g := Shape(g.ring, g.live[bp := n], g.blk[p := m][bp := n], Given(g.own, bp, bp + n, bp));
      }
      freep, at := prevp, i;
    }

    /** malloc. A null result is 0; otherwise the block's header is one unit below the result. */
    method Malloc(nbytes: nat, grant: bool, gap: nat) returns (r: nat)
      requires Valid() && nbytes <= 0x8000_0000 - 32
      modifies this`h, this`g, this`freep, this`at, this`brk
      ensures Valid()
      ensures r == 0 ==>
                !grant && AllSmall(old(h), old(g), Units(nbytes)) && g.live == old(g).live && g.own == old(g).own
                  && brk == old(brk)
      ensures r != 0 ==> r - 1 !in old(g).live && g.live == old(g).live[r - 1 := Units(nbytes)]
      ensures r != 0 ==> if brk == old(brk) then g.own.Keys == old(g).own.Keys else
                grant && brk == old(brk) + gap + Ask(Units(nbytes)) && AllSmall(old(h), old(g), Units(nbytes))
                && g.own.Keys == old(g).own.Keys + Range(old(brk) + gap, Ask(Units(nbytes)))
    {
      hide State, Range, AllSmall;
      var nunits := Units(nbytes);
      if freep == 0 {
        FirstRing(h, base, brk);
        AllSmallEmpty(h, g, Heads(h.ptr[base := base], h.size[base := 0]), Shape([base], map[], map[], map[]), nunits);
        h := Heads(h.ptr[base := base], h.size[base := 0]);
        freep := base;
        g, at := Shape([base], map[], map[], map[]), 0;
      }
      var prevp, p;
      ghost var i;
      var ok;
      ok, prevp, p, i := Search(nunits, grant, gap);
      if !ok {
        return 0;
      }
      r := Carve(prevp, p, nunits, i);
      r := r + 1;
    }

    /** malloc's loop: the first block that fits, after at most one call of morecore. */
    method Search(n: nat, grant: bool, gap: nat) returns (ok: bool, prevp: nat, p: nat, ghost i: nat)
      requires Valid() && freep != 0 && n > 0
      modifies this`h, this`g, this`freep, this`at, this`brk
      ensures Valid() && freep != 0 && g.live == old(g).live
      ensures !ok ==> !grant && AllSmall(old(h), old(g), n) && g == old(g) && brk == old(brk)
      ensures ok ==>
                i < |g.ring| && prevp == g.ring[i] && p == g.ring[Next(i, |g.ring|)] && p in h.size && h.size[p] >= n
      ensures ok ==> if brk == old(brk) then g.own.Keys == old(g).own.Keys else
                grant && brk == old(brk) + gap + Ask(n) && AllSmall(old(h), old(g), n)
                && g.own.Keys == old(g).own.Keys + Range(old(brk) + gap, Ask(n))
    {
      hide State, Range, AllSmall, Scanned, Ascending, FreeBlock, Fits;
      ghost var big: nat := 0;
      ghost var grown := false;
      prevp := freep;
      i := at;
      OnRing(h, g, base, brk, i);
      p := h.ptr[prevp];
      ghost var k := Next(i, |g.ring|);
      ScanStart(h, g, at, n);
      OnRing(h, g, base, brk, k);
      while h.size[p] < n
        invariant Valid() && freep != 0 && g.live == old(g).live && i < |g.ring| && k == Next(i, |g.ring|)
        invariant k < |g.ring|
        invariant prevp == g.ring[i] && p == g.ring[k] && p in h.size && p in h.ptr
        invariant Scanned(h, g, at, k, n)
        invariant !grown ==> h == old(h) && g == old(g) && brk == old(brk)
        invariant grown ==> grant && brk == old(brk) + gap + Ask(n) && AllSmall(old(h), old(g), n) && Fits(h, g, big, n)
                            && g.own.Keys == old(g).own.Keys + Range(old(brk) + gap, Ask(n))
        decreases !grown, Dist(k, at, |g.ring|)
      {
        if p == freep {
          OneFreep(h, g, base, brk, at, k);
          ScanAll(h, g, at, n);
          AllSmallFits(h, g, big, n);
          p, big := Morecore(n, grant, gap);
          if p == 0 {
            return false, 0, 0, 0;
          }
          grown := true;
          k := at;
          ScanStart(h, g, at, n);
        } else {
          ScanStep(h, g, at, k, n);
        }
        prevp := p;
        i := k;
        OnRing(h, g, base, brk, i);
        p := h.ptr[p];
        k := Next(k, |g.ring|);
        OnRing(h, g, base, brk, k);
      }
      ok := true;
    }

    /** The program may write what it likes inside a live block, past its header. */
    method Store(bp: nat, u: nat, ptr: nat, size: nat)
      requires Valid() && bp in g.live && bp < u < bp + g.live[bp]
      modifies this`h
      ensures Valid() && h == Heads(old(h).ptr[u := ptr], old(h).size[u := size])
    {
      hide State;
      InsideLive(h, g, base, brk, bp, u, ptr, size);
      h := Heads(h.ptr[u := ptr], h.size[u := size]);
    }
  }

  /** malloc's number of units: the payload rounded up, and a header. */
  function Units(nbytes: nat): (n: nat)
    ensures n > 0 && nbytes <= (n - 1) * 16 < nbytes + 16
  {
    (nbytes + 15) / 16 + 1
  }

  /** What morecore asks sbrk for. */
  function Ask(nu: nat): (n: nat) {
    if nu < 4096 then 4096 else nu
  }

  /** The C conversion of a size to the int that sbrk takes. */
  function ToInt(x: nat): (i: int) {
    var low := x % 0x1_0000_0000;
    if low < 0x8000_0000 then low else low - 0x1_0000_0000
  }

  /** sbrk is asked for exactly the memory malloc goes on to use if and only if the request
      is at most 2^31 - 32 bytes. */
  lemma AskFits(nbytes: nat)
    requires nbytes < 0x1_0000_0000
    ensures ToInt(Ask(Units(nbytes)) * 16) == Ask(Units(nbytes)) * 16 <==> nbytes <= 0x8000_0000 - 32
  {
    var n := Units(nbytes);
    assert nbytes <= 0x8000_0000 - 32 <==> n * 16 < 0x8000_0000;
    assert n <= 0x1000_0001;
  }

  ghost predicate Small(h: Heads, g: Shape, m: nat, n: nat)
    requires m < |g.ring|
  {
    g.ring[m] in h.size && h.size[g.ring[m]] < n
  }

  /** No free block has n units. */
  ghost predicate AllSmall(h: Heads, g: Shape, n: nat) {
    forall m :: 0 <= m < |g.ring| ==> Small(h, g, m, n)
  }

  /** malloc's search has passed only small blocks on its way to index k. */
  ghost predicate Scanned(h: Heads, g: Shape, at: nat, k: nat, n: nat)
    requires at < |g.ring| && k < |g.ring|
  {
    forall m :: 0 <= m < |g.ring| && Dist(m, at, |g.ring|) > Dist(k, at, |g.ring|) ==> Small(h, g, m, n)
  }

  lemma ScanStart(h: Heads, g: Shape, at: nat, n: nat)
    requires at < |g.ring|
    ensures Scanned(h, g, at, Next(at, |g.ring|), n)
  {
  }

  lemma ScanStep(h: Heads, g: Shape, at: nat, k: nat, n: nat)
    requires at < |g.ring| && k < |g.ring| && k != at && Scanned(h, g, at, k, n) && Small(h, g, k, n)
    ensures Scanned(h, g, at, Next(k, |g.ring|), n) && Dist(Next(k, |g.ring|), at, |g.ring|) < Dist(k, at, |g.ring|)
  {
  }

  lemma ScanAll(h: Heads, g: Shape, at: nat, n: nat)
    requires at < |g.ring| && Scanned(h, g, at, at, n) && Small(h, g, at, n)
    ensures AllSmall(h, g, n)
  {
    forall m | 0 <= m < |g.ring| ensures Small(h, g, m, n) {
      assert m != at ==> Dist(m, at, |g.ring|) > 0;
    }
  }

  lemma AllSmallFits(h: Heads, g: Shape, w: nat, n: nat)
    requires AllSmall(h, g, n)
    ensures !Fits(h, g, w, n)
  {
    assert w < |g.ring| ==> Small(h, g, w, n);
  }

  lemma OneFreep(h: Heads, g: Shape, base: nat, brk: nat, at: nat, k: nat)
    requires State(h, g, base, brk) && at < |g.ring| && k < |g.ring| && g.ring[at] == g.ring[k]
    ensures k == at
  {
  }

  lemma FirstRing(h: Heads, base: nat, brk: nat)
    requires base < brk
    ensures State(Heads(h.ptr[base := base], h.size[base := 0]), Shape([base], map[], map[], map[]), base, brk)
  {
  }

  lemma AllSmallEmpty(h: Heads, g: Shape, h': Heads, g': Shape, n: nat)
    requires g.ring == [] && |g'.ring| == 1 && g'.ring[0] in h'.size && h'.size[g'.ring[0]] == 0 && n > 0
    ensures AllSmall(h, g, n) && AllSmall(h', g', n)
  {
  }

  lemma FreshBlock(h: Heads, g: Shape, base: nat, brk: nat, hp: nat, n: nat)
    requires State(h, g, base, brk) && hp >= brk && n > 0
    ensures hp !in g.live
    ensures State(h.(size := h.size[hp := n]), Shape(g.ring, g.live[hp := n], g.blk[hp := n], Grown(g.own, hp, n)),
                  base, hp + n)
  {
    hide Tiling, Blocks, RingOk;
    Extended(g.blk, g.own, hp, n);
    hide Grown, Range;
    BaseFirst(h, g, base, brk);
    NotInRing(g.ring, h.size, g.live, g.blk, hp);
    LiveIsBlock(g.ring, h.size, g.live, g.blk, hp);
    BlocksFresh(g.ring, h.size, g.live, g.blk, hp, n);
    RingOff(g.ring, base, h.ptr, h.size, hp, 0, n);
    HeapGrown(g.own, base, brk, hp, n);
  }

  lemma BaseFirst(h: Heads, g: Shape, base: nat, brk: nat)
    requires State(h, g, base, brk)
    ensures g.ring != [] && g.ring[0] == base && Ascending(g.ring)
  {
  }

  lemma LiveIsBlock(ring: seq<nat>, size: map<nat, nat>, live: map<nat, nat>, blk: map<nat, nat>, b: nat)
    requires Blocks(ring, size, live, blk)
    ensures b in live ==> b in blk
  {
    assert b in live ==> LiveBlock(b, size, live, blk);
  }

  lemma HeapGrown(own: map<nat, nat>, base: nat, brk: nat, hp: nat, n: nat)
    requires InHeap(own, base, brk) && hp >= brk
    ensures InHeap(Grown(own, hp, n), base, hp + n)
  {
  }

  /** A free block that fits exactly is unlinked. */
  lemma TookWhole(h: Heads, g: Shape, base: nat, brk: nat, i: nat)
    requires State(h, g, base, brk) && i + 1 < |g.ring|
    ensures g.ring[i] in h.ptr && g.ring[i + 1] in h.ptr && FreeBlock(g.ring[i + 1], h.size, g.live, g.blk)
    ensures State(h.(ptr := h.ptr[g.ring[i] := h.ptr[g.ring[i + 1]]]),
                  g.(ring := Without(g.ring, i + 1), live := g.live[g.ring[i + 1] := h.size[g.ring[i + 1]]]), base, brk)
  {
    hide Tiling, Blocks, RingOk, InHeap, Ascending, Without;
    OnRing(h, g, base, brk, i);
    OnRing(h, g, base, brk, i + 1);
    RingWithout(g.ring, base, h.ptr, h.size, i);
    BlocksTake(g.ring, h.size, g.live, g.blk, i + 1);
  }

  /** The tail of a larger one is cut off. */
  lemma TookTail(h: Heads, g: Shape, base: nat, brk: nat, k: nat, n: nat)
    requires State(h, g, base, brk) && 0 < k < |g.ring| && g.ring[k] in h.size && 0 < n < h.size[g.ring[k]]
    ensures var p := g.ring[k]; var m := h.size[p] - n; var q := p + m;
            && q !in g.live
            && State(h.(size := h.size[p := m][q := n]),
                     Shape(g.ring, g.live[q := n], g.blk[p := m][q := n], Given(g.own, q, q + n, q)), base, brk)
  {
    hide Tiling, Blocks, RingOk, InHeap, Ascending, Given;
    OnRing(h, g, base, brk, k);
    BaseFirst(h, g, base, brk);
    var p := g.ring[k];
    var m := h.size[p] - n;
    var q := p + m;
    Cut(g.blk, g.own, p, n);
    HeapGiven(g.own, base, brk, q, q + n, q);
    NotInRing(g.ring, h.size, g.live, g.blk, q);
    LiveIsBlock(g.ring, h.size, g.live, g.blk, q);
    BlocksSplit(g.ring, h.size, g.live, g.blk, k, m, q, n);
    Shrinks(g.ring, base, h.ptr, h.size, k, m);
    RingResized(g.ring, base, h.ptr, h.size, k, m);
    RingOff(g.ring, base, h.ptr, h.size[p := m], q, 0, n);
  }

  lemma Shrinks(ring: seq<nat>, base: nat, ptr: map<nat, nat>, size: map<nat, nat>, k: nat, m: nat)
    requires RingOk(ring, base, ptr, size) && k < |ring| && ring[k] in size && m < size[ring[k]]
    ensures k + 1 < |ring| ==> ring[k] + m < ring[k + 1]
  {
    assert k + 1 < |ring| ==> Gap(ring, size, k);
  }

  lemma InsideLive(h: Heads, g: Shape, base: nat, brk: nat, bp: nat, u: nat, a: nat, b: nat)
    requires State(h, g, base, brk) && bp in g.live && bp < u < bp + g.live[bp]
    ensures State(Heads(h.ptr[u := a], h.size[u := b]), g, base, brk)
  {
    assert LiveBlock(bp, h.size, g.live, g.blk);
    assert u !in g.blk by {
      if u in g.blk {
        Disjoint(g.blk, g.own, bp, u);
      }
    }
    hide Tiling, RingOk;
    BaseFirst(h, g, base, brk);
    LiveOffRing(h, g, base, brk, bp);
    NotInRing(g.ring, h.size, g.live, g.blk, u);
    RingOff(g.ring, base, h.ptr, h.size, u, a, b);
    BlocksOff(g.ring, h.size, g.live, g.blk, u, b);
  }

  lemma BlocksOff(ring: seq<nat>, size: map<nat, nat>, live: map<nat, nat>, blk: map<nat, nat>, u: nat, n: nat)
    requires Blocks(ring, size, live, blk) && u !in blk
    ensures Blocks(ring, size[u := n], live, blk)
  {
    var size' := size[u := n];
    forall i | 0 < i < |ring| ensures FreeBlock(ring[i], size', live, blk) {
      assert FreeBlock(ring[i], size, live, blk);
    }
    forall b | b in live ensures LiveBlock(b, size', live, blk) {
      assert LiveBlock(b, size, live, blk);
    }
  }

  /** The free block at index w of the ring has at least n units. */
  ghost predicate Fits(h: Heads, g: Shape, w: nat, n: nat) {
    w < |g.ring| && g.ring[w] in h.size && h.size[g.ring[w]] >= n
  }

  /** The test that ends the search loop of free, at index i. */
  ghost predicate Stops(ring: seq<nat>, bp: nat, i: nat)
    requires i < |ring|
  {
    var p, nxt := ring[i], ring[Next(i, |ring|)];
    (bp > p && bp < nxt) || (p >= nxt && (bp > p || bp < nxt))
  }

  /** It holds exactly at the place of bp, and every other step comes nearer. */
  lemma StopsAtPlace(ring: seq<nat>, bp: nat, i: nat, j: nat)
    requires Ascending(ring) && i < |ring| && j < |ring| && ring[0] < bp && bp !in ring
    requires ring[j] < bp && (j + 1 < |ring| ==> bp < ring[j + 1])
    ensures Stops(ring, bp, i) <==> i == j
    ensures i != j ==> Dist(Next(i, |ring|), j, |ring|) < Dist(i, j, |ring|)
  {
    assert i < j ==> ring[i + 1] <= ring[j];
    assert i > j ==> ring[j + 1] <= ring[i];
  }
}
