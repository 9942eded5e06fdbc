/** User memory as a whole: freeing it, copying it for fork, and moving bytes in and out. */
module UserMemory {
  import Division
  import opened Frames
  import opened PageTables
  import opened Vm
  import opened FreeWalk

  // ---------------------------------------------------------------------- uvmfree

  lemma {:induction false} BareTable(r: Ram, f: nat, level: nat, lo: nat)
    requires Inv(r, {}) && level <= 2 && f < |r.mem| && r.own[f].Node? && r.own[f].level == level
    requires lo % (Span(level) * ENTRIES) == 0
    requires forall v :: lo <= v < lo + Span(level) * ENTRIES ==> !LookupFrom(r.mem, f, level, v).v
    ensures Bare(r.mem, f, level)
    decreases level
  {
    assert FrameOk(r, {}, f);
    var o := r.own[f];
    if level == 0 {
      forall i | 0 <= i < ENTRIES ensures !r.mem[f].ptes[i].v {
        IndexAt(level, lo, i, 0);
        assert !LookupFrom(r.mem, f, level, lo + i).v;
      }
    } else {
      forall i | 0 <= i < ENTRIES && r.mem[f].ptes[i].v ensures Bare(r.mem, r.mem[f].ptes[i].ppn, level - 1) {
        assert EntryOk(r, f, o.root, o.level, o.prefix, i);
        var base, child, below := lo + i * Span(level), r.mem[f].ptes[i].ppn, level - 1;
        IndexAt(level, lo, i, 0);
        forall v | base <= v < base + Span(below) * ENTRIES ensures !LookupFrom(r.mem, child, below, v).v {
          IndexAt(level, lo, i, v - base);
          assert !LookupFrom(r.mem, f, level, v).v;
        }
        hide EntryOk, FrameOk, LookupFrom;
        BareTable(r, child, below, base);
      }
    }
  }

  lemma IndexAt(level: nat, lo: nat, i: nat, x: nat)
    requires level <= 2 && i < ENTRIES && x < Span(level) && lo % (Span(level) * ENTRIES) == 0
    ensures Index(level, lo + i * Span(level) + x) == i && lo + i * Span(level) + x < lo + Span(level) * ENTRIES
    ensures level > 0 ==>
              Span(level) == Span(level - 1) * ENTRIES && (lo + i * Span(level)) % (Span(level - 1) * ENTRIES) == 0
  {
    hide Index;
    if level == 0 {
      IndexAt0(lo, i);
    } else if level == 1 {
      IndexAt1(lo, i, x);
    } else {
      IndexAt2(lo, i, x);
    }
  }

  lemma IndexAt0(lo: nat, i: nat)
    requires lo % 512 == 0 && i < 512
    ensures Index(0, lo + i) == i
  {
    Division.QuotientIs(lo + i, lo / 512, i, 512);
  }

  lemma IndexAt1(lo: nat, i: nat, x: nat)
    requires lo % 0x4_0000 == 0 && i < 512 && x < 512
    ensures Index(1, lo + i * 512 + x) == i && (lo + i * 512) % 512 == 0
  {
    var q := lo / 0x4_0000;
    var a := q * 512 + i;
    Division.QuotientIs(lo + i * 512 + x, a, x, 512);
    Division.QuotientIs(a, q, i, 512);
    Division.QuotientIs(lo + i * 512, a, 0, 512);
  }

  lemma IndexAt2(lo: nat, i: nat, x: nat)
    requires lo % 0x800_0000 == 0 && i < 512 && x < 0x4_0000
    ensures Index(2, lo + i * 0x4_0000 + x) == i && (lo + i * 0x4_0000) % 0x4_0000 == 0
  {
    var q := lo / 0x800_0000;
    var a := q * 512 + i;
    Division.QuotientIs(lo + i * 0x4_0000 + x, a, x, 0x4_0000);
    Division.QuotientIs(a, q, i, 512);
    Division.QuotientIs(lo + i * 0x4_0000, a, 0, 0x4_0000);
  }

  /** Page numbers of the tree's pages are in range, and they are mapped. */
  lemma LeafMapped(r: Ram, f: nat)
    requires Inv(r, {}) && f < |r.mem| && r.own[f].Leaf?
    ensures r.own[f].vpn < PAGES && Lookup(r.mem, r.own[f].root, r.own[f].vpn).v
  {
    assert FrameOk(r, {}, f);
    var up, v := r.own[f].up, r.own[f].vpn;
    NodeRange(r, up);
    hide FrameOk;
    FoundEntry(r, r.own[f].root, up, v);
  }

  lemma NodeRange(r: Ram, f: nat)
    requires Inv(r, {}) && f < |r.mem| && r.own[f].Node? && r.own[f].level == 0
    ensures r.own[f].prefix < ENTRIES * ENTRIES
  {
    assert FrameOk(r, {}, f);
    var g := r.own[f].up;
    assert FrameOk(r, {}, g);
    assert FrameOk(r, {}, r.own[g].up);
  }

  /** Every frame of the tree is free; every other frame keeps its role. */
  ghost predicate TreeFreed(r: Ram, r': Ram, root: nat) {
    && Sized(r) && Sized(r') && |r'.mem| == |r.mem|
    && forall g :: 0 <= g < |r.mem| ==> FrameFreed(r, r', root, g)
  }

  ghost predicate FrameFreed(r: Ram, r': Ram, root: nat, g: nat)
    requires g < |r.mem| == |r.own| == |r'.mem| == |r'.own|
  {
    var o := r.own[g];
    if ((o.Node? || o.Leaf?) && o.root == root) || o.Free? then r'.own[g].Free?
    else r'.own[g] == o && (o.Node? || r'.mem[g] == r.mem[g])
  }

  lemma TreeGone(r: Ram, r1: Ram, r2: Ram, root: nat, n: nat)
    requires Inv(r, {}) && IsRoot(r, root) && Inv(r1, {}) && Touches(r, r1, root, 0, n)
    requires NoneMapped(r, root, n, PAGES) && NoneMapped(r1, root, 0, PAGES) && n <= PAGES
    requires Freed(r1, r2, root, 2, 0, 1, |r1.mem|)
    ensures TreeFreed(r, r2, root)
  {
    hide Inv, Lookup;
    forall g | 0 <= g < |r.mem| ensures FrameFreed(r, r2, root, g) {
      assert Keeps(r, r1, root, 0, n, g);
      assert Gone(r1, r2, root, 2, 0, 1, |r1.mem|, g);
      if r.own[g].Leaf? && r.own[g].root == root {
        LeafMapped(r, g);
      }
      if r1.own[g].Leaf? && r1.own[g].root == root {
        LeafMapped(r1, g);
      }
      if r1.own[g].Node? && r1.own[g].root == root {
        UnderRoot(r1, g);
      }
    }
  }

  lemma UnderRoot(r: Ram, g: nat)
    requires Inv(r, {}) && g < |r.mem| && r.own[g].Node?
    ensures Under(r.own[g], r.own[g].root, 2, 0, 1)
  {
    assert FrameOk(r, {}, g);
    var h := AncNode(r, {}, g, 2);
    assert FrameOk(r, {}, h);
  }

  /** Other trees do not notice. */
  lemma {:induction false} FreedLookup(r: Ram, r': Ram, root: nat, f: nat, level: nat, v: nat)
    requires Inv(r, {}) && Freed(r, r', root, 2, 0, 1, |r.mem|) && f < |r.mem| && r.own[f].Node?
    requires r.own[f].root != root && r.own[f].level == level <= 2
    ensures LookupFrom(r'.mem, f, level, v) == LookupFrom(r.mem, f, level, v)
    decreases level
  {
    assert FrameOk(r, {}, f);
    assert Gone(r, r', root, 2, 0, 1, |r.mem|, f);
    var o, i := r.own[f], Index(level, v);
    assert EntryOk(r, f, o.root, o.level, o.prefix, i);
    if level > 0 && r.mem[f].ptes[i].v {
      FreedLookup(r, r', root, r.mem[f].ptes[i].ppn, level - 1, v);
    }
  }

  lemma FreedSame(r: Ram, r1: Ram, r2: Ram, root: nat)
    requires Inv(r1, {}) && Freed(r1, r2, root, 2, 0, 1, |r1.mem|) && SameElse(r, r1, root, 0, PAGES)
    requires forall q :: IsRoot(r, q) ==> IsRoot(r1, q)
    ensures SameElse(r, r2, root, 0, PAGES)
  {
    forall q, v | IsRoot(r, q) && 0 <= v < PAGES && q != root ensures Lookup(r2.mem, q, v) == Lookup(r.mem, q, v) {
      RootOnWay(r1, q, v);
      hide Inv, Freed;
      FreedLookup(r1, r2, root, q, 2, v);
    }
  }

  /** uvmfree: the tree's pages and tables all go back to the free list. */
  method Uvmfree(k: Kernel, root: nat, sz: nat)
    requires Inv(k.ram, {}) && IsRoot(k.ram, root) && Pages(sz) <= MAXVPN
    requires AllMapped(k.ram, root, 0, Pages(sz), true) && NoneMapped(k.ram, root, Pages(sz), PAGES)
    modifies k
    ensures Inv(k.ram, {}) && TreeFreed(old(k.ram), k.ram, root) && SameElse(old(k.ram), k.ram, root, 0, PAGES)
  {
    hide Inv, Touches, SameElse, Lookup, Freed;
    ghost var r0, n := k.ram, Pages(sz);
    SizedOf(k.ram);
    TouchesRefl(k.ram, root, 0, n);
    if sz > 0 {
      k.Uvmunmap(root, 0, Pages(sz), true);
    }
    ghost var r1 := k.ram;
    NoneLeft(r0, r1, root, n);
    TouchesRoots(r0, r1, root, 0, n);
    SameWider(r0, r1, root, 0, n, 0, PAGES);
    BareRoot(r1, root);
    RootOnWay(r1, root, 0);
    Freewalk(k, root, 2, {});
    TreeGone(r0, r1, k.ram, root, n);
    FreedSame(r0, r1, k.ram, root);
  }

  lemma NoneLeft(r: Ram, r': Ram, root: nat, n: nat)
    requires IsRoot(r, root) && SameElse(r, r', root, 0, n) && NoneMapped(r, root, n, PAGES)
    requires NoneMapped(r', root, 0, n)
    ensures NoneMapped(r', root, 0, PAGES)
  {
    hide Lookup;
  }

  lemma BareRoot(r: Ram, root: nat)
    requires Inv(r, {}) && IsRoot(r, root) && NoneMapped(r, root, 0, PAGES)
    ensures Bare(r.mem, root, 2)
  {
    forall v | 0 <= v < 0 + Span(2) * ENTRIES ensures !LookupFrom(r.mem, root, 2, v).v {
      assert !Lookup(r.mem, root, v).v;
    }
    hide LookupFrom;
    BareTable(r, root, 2, 0);
  }

  // ---------------------------------------------------------------------- uvmcopy

  /** Page v of the tree root is a copy of page v of the tree from. */
  ghost predicate Copied(r: Ram, from: nat, root: nat, v: nat) {
    Owned(r, from, v) && HasPage(r, root, v, Lookup(r.mem, from, v).perm, r.mem[Lookup(r.mem, from, v).ppn])
  }

  /** A page of the tree holds data and is mapped as a leaf. */
  lemma OwnedPage(r: Ram, root: nat, v: nat)
    requires Inv(r, {}) && IsRoot(r, root) && v < PAGES && Owned(r, root, v)
    ensures var e := Lookup(r.mem, root, v); Leafy(e.perm) && r.mem[e.ppn].Bytes? && |r.mem[e.ppn].data| == PGSIZE
  {
    var e := Lookup(r.mem, root, v);
    assert FrameOk(r, {}, e.ppn);
    MappedLeafy(r, root, v);
  }

  lemma MappedLeafy(r: Ram, root: nat, v: nat)
    requires Inv(r, {}) && IsRoot(r, root) && v < PAGES && Lookup(r.mem, root, v).v
    ensures var e := Lookup(r.mem, root, v); Leafy(e.perm) && (e.perm.u ==> Owned(r, root, v))
  {
    RootOnWay(r, root, v);
    FindNode(r, root, 2, v);
    LookupFound(r.mem, root, 2, v);
    var t := Find(r.mem, root, 2, v);
    assert FrameOk(r, {}, t);
    assert EntryOk(r, t, root, 0, r.own[t].prefix, Index(0, v));
  }

  /** One page of uvmcopy. */
  method CopyPage(k: Kernel, from: nat, root: nat, v: nat) returns (ok: bool)
    requires Inv(k.ram, {}) && IsRoot(k.ram, from) && IsRoot(k.ram, root) && from != root && v < MAXVPN
    requires Owned(k.ram, from, v) && !Lookup(k.ram.mem, root, v).v
    modifies k
    ensures Inv(k.ram, {}) && IsRoot(k.ram, root) && Touches(old(k.ram), k.ram, root, v, v + 1)
    ensures SameElse(old(k.ram), k.ram, root, v, v + 1)
    ensures ok ==> Copied(k.ram, from, root, v)
    ensures !ok ==> !Lookup(k.ram.mem, root, v).v && |old(k.ram).free| < 3
    ensures |k.ram.free| >= |old(k.ram).free| - 3
  {
    hide Inv, Lookup, Index, Touches, SameElse, Leafy;
    ghost var r0 := k.ram;
    SizedOf(k.ram);
    TouchesRefl(k.ram, root, v, v + 1);
    OwnedPage(k.ram, from, v);
    var t := k.Walk(from, v, false);
    FoundEntry(k.ram, from, t, v);
    var e := k.ram.mem[t].ptes[Index(0, v)];
    var f := k.Kalloc({});
    if f == 0 {
      return false;
    }
    var page := k.ram.mem[e.ppn];
    PageSet(k.ram, {}, f, page);
    k.ram := k.ram.(mem := k.ram.mem[f := page]);
    ok := k.PutPage(root, v, f, e.perm, r0);
    PageKept(r0, k.ram, root, v, v + 1, from, v);
  }

  /** uvmcopy: the new tree has copies of all the pages, or none of them. Three free frames a
      page are always enough. */
  method Uvmcopy(k: Kernel, from: nat, root: nat, sz: nat) returns (ok: bool)
    requires Inv(k.ram, {}) && IsRoot(k.ram, from) && IsRoot(k.ram, root) && from != root && Pages(sz) <= MAXVPN
    requires AllMapped(k.ram, from, 0, Pages(sz), true) && NoneMapped(k.ram, root, 0, Pages(sz))
    modifies k
    ensures Inv(k.ram, {}) && IsRoot(k.ram, root) && Touches(old(k.ram), k.ram, root, 0, Pages(sz))
    ensures SameElse(old(k.ram), k.ram, root, 0, Pages(sz))
    ensures ok ==> forall v :: 0 <= v < Pages(sz) ==> Copied(k.ram, from, root, v)
    ensures !ok ==> NoneMapped(k.ram, root, 0, Pages(sz)) && |old(k.ram).free| < 3 * Pages(sz)
  {
    hide Inv, Lookup, Touches, SameElse, Copied;
    ghost var r0, n := k.ram, Pages(sz);
    SizedOf(k.ram);
    TouchesRefl(k.ram, root, 0, n);
    var i := 0;
    while i * PGSIZE < sz
      invariant 0 <= i <= n && Inv(k.ram, {}) && IsRoot(k.ram, root) && IsRoot(k.ram, from)
      invariant Touches(r0, k.ram, root, 0, n) && SameElse(r0, k.ram, root, 0, n)
      invariant AllMapped(k.ram, from, 0, n, true) && NoneMapped(k.ram, root, i, n) && |k.ram.free| >= |r0.free| - 3 * i
      invariant forall v :: 0 <= v < i ==> Copied(k.ram, from, root, v)
    {
      ghost var r1 := k.ram;
      ok := CopyPage(k, from, root, i);
      CopyMore(r1, k.ram, from, root, i, n);
      Wider(r1, k.ram, root, i, i + 1, 0, n);
      Then(r0, r1, k.ram, root, 0, n);
      if !ok {
        ghost var r2 := k.ram;
        CopiedMapped(k.ram, from, root, i);
        k.Uvmunmap(root, 0, i, true);
        DeallocMore(r2, k.ram, root, 0, i, n);
        Wider(r2, k.ram, root, 0, i, 0, n);
        Then(r0, r2, k.ram, root, 0, n);
        return false;
      }
      i := i + 1;
    }
    return true;
  }

  lemma CopyMore(r: Ram, r': Ram, from: nat, root: nat, i: nat, n: nat)
    requires IsRoot(r, root) && IsRoot(r, from) && from != root && i < n <= PAGES && Touches(r, r', root, i, i + 1)
    requires SameElse(r, r', root, i, i + 1)
    requires AllMapped(r, from, 0, n, true) && NoneMapped(r, root, i, n)
    requires forall v :: 0 <= v < i ==> Copied(r, from, root, v)
    ensures IsRoot(r', from) && AllMapped(r', from, 0, n, true) && NoneMapped(r', root, i + 1, n)
    ensures forall v :: 0 <= v < i ==> Copied(r', from, root, v)
  {
    hide Lookup, Touches, SameElse, Owned;
    TouchesRoot(r, r', root, i, i + 1, from);
    forall v | 0 <= v < n ensures Lookup(r'.mem, from, v).v && Owned(r', from, v) {
      PageKept(r, r', root, i, i + 1, from, v);
    }
    forall v | i + 1 <= v < n ensures !Lookup(r'.mem, root, v).v {
      PageKept(r, r', root, i, i + 1, root, v);
    }
    forall v | 0 <= v < i ensures Copied(r', from, root, v) {
      assert Copied(r, from, root, v);
      PageKept(r, r', root, i, i + 1, from, v);
      PageKept(r, r', root, i, i + 1, root, v);
    }
  }

  lemma CopiedMapped(r: Ram, from: nat, root: nat, i: nat)
    requires forall v :: 0 <= v < i ==> Copied(r, from, root, v)
    ensures AllMapped(r, root, 0, i, true)
  {
    hide Lookup;
    forall v | 0 <= v < i ensures Lookup(r.mem, root, v).v && Owned(r, root, v) {
      assert Copied(r, from, root, v);
    }
  }

  // ----------------------------------------------------------- copyout and copyin

  /** walkaddr accepts the page. */
  ghost predicate UserPage(r: Ram, root: nat, v: nat) {
    v < MAXVPN && Lookup(r.mem, root, v).v && Lookup(r.mem, root, v).perm.u
  }

  /** The byte at a user address. */
  ghost function Byte(r: Ram, root: nat, va: nat): (b: nat)
    requires Inv(r, {}) && IsRoot(r, root) && UserPage(r, root, va / PGSIZE)
  {
    MappedLeafy(r, root, va / PGSIZE);
    OwnedPage(r, root, va / PGSIZE);
    r.mem[Lookup(r.mem, root, va / PGSIZE).ppn].data[va % PGSIZE]
  }

  method Walkaddr(k: Kernel, root: nat, v: nat) returns (f: nat)
    requires Inv(k.ram, {}) && IsRoot(k.ram, root)
    modifies k
    ensures k.ram == old(k.ram) && (f != 0 <==> UserPage(k.ram, root, v))
    ensures (f != 0 ==> f == Lookup(k.ram.mem, root, v).ppn)
  {
    hide Inv, Lookup, Index;
    if v >= MAXVPN {
      return 0;
    }
    var t := k.Walk(root, v, false);
    if t == 0 {
      return 0;
    }
    FoundEntry(k.ram, root, t, v);
    var e := k.ram.mem[t].ptes[Index(0, v)];
    if !e.v || !e.perm.u {
      return 0;
    }
    UserFrame(k.ram, root, v);
    return e.ppn;
  }

  lemma UserFrame(r: Ram, root: nat, v: nat)
    requires Inv(r, {}) && IsRoot(r, root) && UserPage(r, root, v)
    ensures Owned(r, root, v) && Lookup(r.mem, root, v).ppn > 0
    ensures var f := Lookup(r.mem, root, v).ppn; r.mem[f].Bytes? && |r.mem[f].data| == PGSIZE
  {
    MappedLeafy(r, root, v);
    OwnedPage(r, root, v);
    assert FrameOk(r, {}, Lookup(r.mem, root, v).ppn);
  }

  /** New contents for a page of a tree. */
  lemma DataSet(r: Ram, f: nat, data: seq<nat>)
    requires Inv(r, {}) && f < |r.mem| && r.own[f].Leaf? && |data| == PGSIZE
    ensures Inv(r.(mem := r.mem[f := Bytes(data)]), {})
  {
    var r' := r.(mem := r.mem[f := Bytes(data)]);
    forall g | 0 <= g < |r.mem| ensures FrameOk(r', {}, g) {
      assert FrameOk(r, {}, g);
      if r.own[g].Node? {
        var o := r.own[g];
        forall i | 0 <= i < ENTRIES ensures EntryOk(r', g, o.root, o.level, o.prefix, i) {
          assert EntryOk(r, g, o.root, o.level, o.prefix, i);
        }
      }
    }
  }

  lemma DataLookup(r: Ram, f: nat, page: Page, q: nat, v: nat)
    requires Inv(r, {}) && f < |r.mem| && r.own[f].Leaf? && IsRoot(r, q) && v < PAGES
    ensures Lookup(r.mem[f := page], q, v) == Lookup(r.mem, q, v)
  {
    hide Inv, Index;
    var mem' := r.mem[f := page];
    RootOnWay(r, q, v);
    forall g | 0 <= g < |r.mem| && r.own[g].Node? ensures IsTable(r, g) {
      TableOf(r, g);
    }
    FindSame(r, mem', q, 2, v);
    FindNode(r, q, 2, v);
    LookupFound(r.mem, q, 2, v);
    LookupFound(mem', q, 2, v);
  }

  /** Bytes lo to hi under root are now those of src; no other byte of any tree, and no
      translation, has changed. */
  ghost predicate Wrote(r: Ram, r': Ram, root: nat, lo: nat, hi: nat, src: seq<nat>) {
    && Inv(r, {}) && Inv(r', {}) && r'.own == r.own && r'.free == r.free && lo <= hi <= lo + |src|
    && (forall q, v :: IsRoot(r, q) && 0 <= v < PAGES ==> Lookup(r'.mem, q, v) == Lookup(r.mem, q, v))
    && (forall q, va :: IsRoot(r, q) && 0 <= va && UserPage(r, q, va / PGSIZE) ==>
        ByteAfter(r, r', root, lo, hi, src, q, va))
  }

  ghost predicate ByteAfter(r: Ram, r': Ram, root: nat, lo: nat, hi: nat, src: seq<nat>, q: nat, va: nat)
    requires Inv(r, {}) && Inv(r', {}) && IsRoot(r, q) && UserPage(r, q, va / PGSIZE) && lo <= hi <= lo + |src|
  {
    && IsRoot(r', q) && UserPage(r', q, va / PGSIZE)
    && Byte(r', q, va) == if q == root && lo <= va < hi then src[va - lo] else Byte(r, q, va)
  }

  /** memmove of a chunk into one page. */
  ghost function Stored(r: Ram, f: nat, off: nat, chunk: seq<nat>): (r': Ram)
    requires f < |r.mem| && r.mem[f].Bytes? && off + |chunk| <= |r.mem[f].data|
  {
    var data := r.mem[f].data;
    r.(mem := r.mem[f := Bytes(data[..off] + chunk + data[off + |chunk|..])])
  }

  lemma StoredWrote(r: Ram, root: nat, va: nat, chunk: seq<nat>, f: nat)
    requires Inv(r, {}) && IsRoot(r, root) && UserPage(r, root, va / PGSIZE) && va % PGSIZE + |chunk| <= PGSIZE
    requires f == Lookup(r.mem, root, va / PGSIZE).ppn
    ensures f < |r.mem| && r.mem[f].Bytes? && |r.mem[f].data| == PGSIZE
    ensures Wrote(r, Stored(r, f, va % PGSIZE, chunk), root, va, va + |chunk|, chunk)
  {
    hide Inv, Lookup;
    UserFrame(r, root, va / PGSIZE);
    var r' := Stored(r, f, va % PGSIZE, chunk);
    DataSet(r, f, r'.mem[f].data);
    forall q, v | IsRoot(r, q) && 0 <= v < PAGES ensures Lookup(r'.mem, q, v) == Lookup(r.mem, q, v) {
      DataLookup(r, f, r'.mem[f], q, v);
    }
    var hi := va + |chunk|;
    forall q, a | IsRoot(r, q) && 0 <= a && UserPage(r, q, a / PGSIZE)
      ensures ByteAfter(r, r', root, va, hi, chunk, q, a)
    {
      UserFrame(r, q, a / PGSIZE);
    }
  }

  lemma WroteThen(r: Ram, r1: Ram, r2: Ram, root: nat, lo: nat, mid: nat, hi: nat, src: seq<nat>, rest: seq<nat>)
    requires Wrote(r, r1, root, lo, mid, src) && Wrote(r1, r2, root, mid, hi, rest) && mid - lo + |rest| <= |src|
    requires rest == src[mid - lo..mid - lo + |rest|]
    ensures Wrote(r, r2, root, lo, hi, src)
  {
    hide Inv, Lookup, Byte;
    SizedOf(r);
    SizedOf(r1);
    forall q, v | IsRoot(r, q) && 0 <= v < PAGES ensures Lookup(r2.mem, q, v) == Lookup(r.mem, q, v) {
      assert IsRoot(r1, q);
    }
    forall q, a | IsRoot(r, q) && 0 <= a && UserPage(r, q, a / PGSIZE)
      ensures ByteAfter(r, r2, root, lo, hi, src, q, a)
    {
      assert ByteAfter(r, r1, root, lo, mid, src, q, a);
      assert ByteAfter(r1, r2, root, mid, hi, rest, q, a);
    }
  }

  lemma WroteNothing(r: Ram, root: nat, va: nat, src: seq<nat>)
    requires Inv(r, {})
    ensures Wrote(r, r, root, va, va, src)
  {
    hide Inv, Lookup, Byte;
  }

  ghost predicate AllUser(r: Ram, root: nat, lo: nat, hi: nat) {
    forall va :: lo <= va < hi ==> UserPage(r, root, va / PGSIZE)
  }

  /** copyout succeeds exactly if every page of the range is a user page, and then has
      written the bytes there and nothing elsewhere; otherwise it has written some of them. */
  method Copyout(k: Kernel, root: nat, dstva: nat, src: seq<nat>) returns (ok: bool)
    requires Inv(k.ram, {}) && IsRoot(k.ram, root)
    modifies k
    ensures Inv(k.ram, {}) && IsRoot(k.ram, root) && (ok <==> AllUser(old(k.ram), root, dstva, dstva + |src|))
    ensures ok ==> Wrote(old(k.ram), k.ram, root, dstva, dstva + |src|, src)
    ensures !ok ==> exists hi :: dstva <= hi < dstva + |src| && Wrote(old(k.ram), k.ram, root, dstva, hi, src)
  {
    hide Inv, Lookup, UserPage, Wrote;
    ghost var r0 := k.ram;
    WroteNothing(r0, root, dstva, src);
    var va, left := dstva, |src|;
    while left > 0
      invariant 0 <= left <= |src| && (left > 0 ==> va == dstva + |src| - left)
      invariant Inv(k.ram, {}) && IsRoot(k.ram, root) && Wrote(r0, k.ram, root, dstva, dstva + |src| - left, src)
      invariant AllUser(r0, root, dstva, dstva + |src| - left)
    {
      ghost var r1 := k.ram;
      WroteFacts(r0, r1, root, dstva, va, src, va / PGSIZE);
      var f := Walkaddr(k, root, va / PGSIZE);
      if f == 0 {
        assert !UserPage(r0, root, va / PGSIZE);
        return false;
      }
      var n := PGSIZE - va % PGSIZE;
      if n > left {
        n := left;
      }
      var done := |src| - left;
      ghost var chunk := src[done..done + n];
      StoredWrote(r1, root, va, chunk, f);
      var data := k.ram.mem[f].data;
      var page := data[..va % PGSIZE] + src[done..done + n] + data[va % PGSIZE + n..];
      k.ram := k.ram.(mem := k.ram.mem[f := Bytes(page)]);
      WroteThen(r0, r1, k.ram, root, dstva, va, va + n, src, chunk);
      UserOn(r0, root, dstva, va, n);
      WroteFacts(r0, k.ram, root, dstva, va + n, src, va / PGSIZE);
      left := left - n;
      va := va / PGSIZE * PGSIZE + PGSIZE;
    }
    ok := true;
  }

  lemma WroteFacts(r: Ram, r': Ram, root: nat, lo: nat, hi: nat, src: seq<nat>, v: nat)
    requires Wrote(r, r', root, lo, hi, src) && IsRoot(r, root)
    ensures Inv(r', {}) && IsRoot(r', root) && (UserPage(r', root, v) <==> UserPage(r, root, v))
  {
    hide Lookup;
  }

  lemma UserOn(r: Ram, root: nat, lo: nat, va: nat, n: nat)
    requires AllUser(r, root, lo, va) && UserPage(r, root, va / PGSIZE) && va % PGSIZE + n <= PGSIZE
    ensures AllUser(r, root, lo, va + n)
  {
    hide UserPage;
    forall a | lo <= a < va + n ensures UserPage(r, root, a / PGSIZE) {
      assert a >= va ==> a / PGSIZE == va / PGSIZE;
    }
  }

  /** copyin succeeds exactly if every page of the range is a user page. It has stored the bytes
      of the range up to the first that is not user memory, all of them if it succeeds. */
  method Copyin(k: Kernel, root: nat, srcva: nat, len: nat) returns (ok: bool, dst: seq<nat>)
    requires Inv(k.ram, {}) && IsRoot(k.ram, root)
    modifies k
    ensures k.ram == old(k.ram) && (ok <==> AllUser(k.ram, root, srcva, srcva + len))
    ensures |dst| <= len && (ok <==> |dst| == len)
    ensures forall i :: 0 <= i < |dst| ==> ByteIs(k.ram, root, srcva + i, dst[i])
    ensures !ok ==> !UserPage(k.ram, root, (srcva + |dst|) / PGSIZE)
  {
    hide Inv, Lookup, UserPage, ByteIs;
    dst := [];
    var va, left := srcva, len;
    while left > 0
      invariant 0 <= left <= len && |dst| == len - left && (left > 0 ==> va == srcva + len - left)
      invariant k.ram == old(k.ram)
      invariant AllUser(k.ram, root, srcva, srcva + len - left)
      invariant forall i :: 0 <= i < |dst| ==> ByteIs(k.ram, root, srcva + i, dst[i])
    {
      var f := Walkaddr(k, root, va / PGSIZE);
      if f == 0 {
        assert !UserPage(k.ram, root, va / PGSIZE);
        return false, dst;
      }
      UserFrame(k.ram, root, va / PGSIZE);
      var n := PGSIZE - va % PGSIZE;
      if n > left {
        n := left;
      }
      var chunk := k.ram.mem[f].data[va % PGSIZE..va % PGSIZE + n];
      forall j | 0 <= j < n ensures ByteIs(k.ram, root, va + j, chunk[j]) {
        InPage(k.ram, root, va, j, f);
      }
      UserOn(k.ram, root, srcva, va, n);
      dst := dst + chunk;
      left := left - n;
      va := va / PGSIZE * PGSIZE + PGSIZE;
    }
    ok := true;
  }

  ghost predicate ByteIs(r: Ram, root: nat, va: nat, b: nat) {
    Inv(r, {}) && IsRoot(r, root) && UserPage(r, root, va / PGSIZE) && Byte(r, root, va) == b
  }

  lemma InPage(r: Ram, root: nat, va: nat, j: nat, f: nat)
    requires Inv(r, {}) && IsRoot(r, root) && UserPage(r, root, va / PGSIZE)
    requires f == Lookup(r.mem, root, va / PGSIZE).ppn && va % PGSIZE + j < PGSIZE
    ensures f < |r.mem| && r.mem[f].Bytes? && |r.mem[f].data| == PGSIZE
    ensures ByteIs(r, root, va + j, r.mem[f].data[va % PGSIZE + j])
  {
    hide Inv, Lookup, UserPage;
    UserFrame(r, root, va / PGSIZE);
    assert (va + j) / PGSIZE == va / PGSIZE && (va + j) % PGSIZE == va % PGSIZE + j;
  }

  /** What was copied out is copied in again, across page boundaries. */
  method OutThenIn(k: Kernel, root: nat, va: nat, src: seq<nat>) returns (ok: bool, dst: seq<nat>)
    requires Inv(k.ram, {}) && IsRoot(k.ram, root)
    modifies k
    ensures ok <==> AllUser(old(k.ram), root, va, va + |src|)
    ensures ok ==> dst == src
  {
    hide Inv, Lookup, UserPage, Wrote, ByteIs, AllUser;
    ghost var r0 := k.ram;
    ok := Copyout(k, root, va, src);
    if !ok {
      return false, [];
    }
    var got;
    StillUser(r0, k.ram, root, va, src);
    got, dst := Copyin(k, root, va, |src|);
    forall i | 0 <= i < |src| ensures dst[i] == src[i] {
      ReadBack(r0, k.ram, root, va, src, i, dst[i]);
    }
  }

  lemma StillUser(r: Ram, r': Ram, root: nat, va: nat, src: seq<nat>)
    requires Wrote(r, r', root, va, va + |src|, src) && IsRoot(r, root) && AllUser(r, root, va, va + |src|)
    ensures AllUser(r', root, va, va + |src|)
  {
    hide UserPage, Wrote;
    forall a | va <= a < va + |src| ensures UserPage(r', root, a / PGSIZE) {
      WroteFacts(r, r', root, va, va + |src|, src, a / PGSIZE);
    }
  }

  lemma ReadBack(r: Ram, r': Ram, root: nat, va: nat, src: seq<nat>, i: nat, b: nat)
    requires Wrote(r, r', root, va, va + |src|, src) && IsRoot(r, root) && AllUser(r, root, va, va + |src|)
    requires i < |src| && ByteIs(r', root, va + i, b)
    ensures b == src[i]
  {
    hide Inv, Lookup, UserPage, Byte;
    assert UserPage(r, root, (va + i) / PGSIZE);
    assert ByteAfter(r, r', root, va, va + |src|, src, root, va + i);
  }

  // ----------------------------------------------- a process's page table, and the frames

  const TRAMPOLINE := 0x3ff_ffff
  const TRAPFRAME := 0x3ff_fffe

  /** The tree holds pages 0 to n of its own, the trampoline and the trapframe. */
  ghost predicate ProcTable(r: Ram, root: nat, n: nat) {
    && IsRoot(r, root) && n <= TRAPFRAME && AllMapped(r, root, 0, n, true) && NoneMapped(r, root, n, TRAPFRAME)
    && AllMapped(r, root, TRAPFRAME, TRAMPOLINE + 1, false) && NoneMapped(r, root, TRAMPOLINE + 1, PAGES)
  }

  /** proc_pagetable, for a process whose trapframe page is the frame trapframe: the kernel may
      read and execute the trampoline and read and write the trapframe, and the user neither.
      On failure every frame it took is free again; with five free frames it succeeds. */
  method ProcPagetable(k: Kernel, trampoline: nat, trapframe: nat) returns (root: nat)
    requires Inv(k.ram, {}) && trampoline < |k.ram.mem| && k.ram.own[trampoline].Kernel? && trapframe < |k.ram.mem|
    requires k.ram.own[trapframe].Held?
    modifies k
    ensures Inv(k.ram, {}) && |k.ram.mem| == |old(k.ram).mem|
    ensures root != 0 ==>
              && ProcTable(k.ram, root, 0)
              && Lookup(k.ram.mem, root, TRAMPOLINE) == Pte(trampoline, true, Perm(true, false, true, false))
              && Lookup(k.ram.mem, root, TRAPFRAME) == Pte(trapframe, true, Perm(true, true, false, false))
    ensures root == 0 ==> |old(k.ram).free| < 5
    ensures root == 0 ==> forall g :: 0 <= g < |k.ram.mem| ==>
              if old(k.ram).own[g].Free? then k.ram.own[g].Free? else k.ram.own[g] == old(k.ram).own[g]
  {
    hide Inv, Lookup, Touches, SameElse, TreeFreed;
    SizedOf(k.ram);
    ghost var r0 := k.ram;
    root := k.Uvmcreate();
    if root == 0 {
      return 0;
    }
    ghost var r1 := k.ram;
    RootOnWay(r1, root, 0);
    var ok := MapShared(k, root, TRAMPOLINE, trampoline, Perm(true, false, true, false));
    ghost var r2 := k.ram;
    if !ok {
      NoneAfter(r1, r2, root, 0, 0);
      Uvmfree(k, root, 0);
      Aborted(r0, r1, r2, k.ram, root, 0, 0);
      return 0;
    }
    NoneAfter(r1, r2, root, TRAMPOLINE, TRAMPOLINE + 1);
    SharedKept(r1, r2, root, trapframe);
    ok := MapShared(k, root, TRAPFRAME, trapframe, Perm(true, true, false, false));
    ghost var r3 := k.ram;
    TouchesTrans(r1, r2, r3, root, 0, 0);
    if !ok {
      PageKept(r2, r3, root, 0, 0, root, TRAMPOLINE);
      NoneStill(r2, r3, root, 0, 0, 0, TRAMPOLINE);
      NoneStill(r2, r3, root, 0, 0, TRAMPOLINE + 1, PAGES);
      k.Uvmunmap(root, TRAMPOLINE, 1, false);
      ghost var r4 := k.ram;
      NoneStill(r3, r4, root, TRAMPOLINE, TRAMPOLINE + 1, 0, TRAMPOLINE);
      NoneStill(r3, r4, root, TRAMPOLINE, TRAMPOLINE + 1, TRAMPOLINE + 1, PAGES);
      Uvmfree(k, root, 0);
      TouchesWider(r1, r3, root, 0, 0, TRAMPOLINE, TRAMPOLINE + 1);
      TouchesTrans(r1, r3, r4, root, TRAMPOLINE, TRAMPOLINE + 1);
      Aborted(r0, r1, r4, k.ram, root, TRAMPOLINE, TRAMPOLINE + 1);
      return 0;
    }
    SizeKept(r1, r3, root, 0, 0);
    TouchesWider(r2, r3, root, 0, 0, TRAPFRAME, TRAPFRAME + 1);
    PageKept(r2, r3, root, TRAPFRAME, TRAPFRAME + 1, root, TRAMPOLINE);
    NoneStill(r2, r3, root, TRAPFRAME, TRAPFRAME + 1, 0, TRAPFRAME);
    NoneStill(r2, r3, root, TRAPFRAME, TRAPFRAME + 1, TRAMPOLINE + 1, PAGES);
  }

  lemma SizeKept(r: Ram, r': Ram, root: nat, lo: nat, hi: nat)
    requires Touches(r, r', root, lo, hi)
    ensures |r'.mem| == |r.mem|
  {
  }

  /** Map one frame that does not belong to the tree. */
  method MapShared(k: Kernel, root: nat, vpn: nat, f: nat, perm: Perm) returns (ok: bool)
    requires Inv(k.ram, {}) && IsRoot(k.ram, root) && vpn < MAXVPN && !Lookup(k.ram.mem, root, vpn).v && Leafy(perm)
    requires !perm.u
    requires f < |k.ram.mem| && (k.ram.own[f].Kernel? || k.ram.own[f].Held?)
    modifies k
    ensures Inv(k.ram, {}) && IsRoot(k.ram, root) && Touches(old(k.ram), k.ram, root, 0, 0)
    ensures !ok ==> SameElse(old(k.ram), k.ram, root, 0, 0) && |old(k.ram).free| < 2
    ensures |k.ram.free| >= |old(k.ram).free| - 2
    ensures ok ==>
              SameElse(old(k.ram), k.ram, root, vpn, vpn + 1) && Lookup(k.ram.mem, root, vpn) == Pte(f, true, perm)
                && !Owned(k.ram, root, vpn)
  {
    hide Inv, Lookup, Touches, SameElse, Leafy;
    ghost var r0 := k.ram;
    FramePage(vpn);
    FramePage(f);
    ok := k.Mappages(root, vpn * PGSIZE, PGSIZE, f * PGSIZE, perm, false);
    SharedKept(r0, k.ram, root, f);
  }

  lemma SharedKept(r: Ram, r': Ram, root: nat, f: nat)
    requires Touches(r, r', root, 0, 0) && f < |r.mem| && (r.own[f].Kernel? || r.own[f].Held?)
    ensures f < |r'.mem| && r'.own[f] == r.own[f]
  {
    assert Keeps(r, r', root, 0, 0, f);
  }

  lemma NoneAfter(r: Ram, r': Ram, root: nat, lo: nat, hi: nat)
    requires IsRoot(r, root) && NoneMapped(r, root, 0, PAGES) && SameElse(r, r', root, lo, hi)
    ensures forall v :: 0 <= v < PAGES && !(lo <= v < hi) ==> !Lookup(r'.mem, root, v).v
  {
    hide Lookup;
  }

  lemma NoneStill(r: Ram, r': Ram, root: nat, lo: nat, hi: nat, a: nat, b: nat)
    requires IsRoot(r, root) && NoneMapped(r, root, a, b) && SameElse(r, r', root, lo, hi) && b <= PAGES
    requires (hi <= lo || b <= lo || hi <= a)
    ensures NoneMapped(r', root, a, b)
  {
    hide Lookup;
  }

  /** A tree that was begun and freed again has left every frame as it was. */
  lemma Aborted(r0: Ram, r1: Ram, r2: Ram, r3: Ram, root: nat, lo: nat, hi: nat)
    requires Inv(r0, {}) && OffTreeRoot(r0, r1, root) && r0.own[root].Free? && IsRoot(r1, root)
    requires Touches(r1, r2, root, lo, hi) && TreeFreed(r2, r3, root)
    requires r1.own[root].root == root
    ensures |r3.mem| == |r0.mem| == |r3.own| == |r0.own|
    ensures forall g :: 0 <= g < |r0.mem| ==> if r0.own[g].Free? then r3.own[g].Free? else r3.own[g] == r0.own[g]
  {
    forall g | 0 <= g < |r0.mem| ensures if r0.own[g].Free? then r3.own[g].Free? else r3.own[g] == r0.own[g] {
      assert Keeps(r1, r2, root, lo, hi, g) && FrameFreed(r2, r3, root, g);
      NotIn(r0, root, g);
    }
  }

  lemma NotIn(r: Ram, root: nat, g: nat)
    requires Inv(r, {}) && root < |r.mem| && r.own[root].Free? && g < |r.mem|
    ensures (r.own[g].Node? || r.own[g].Leaf?) ==> r.own[g].root != root
  {
    assert FrameOk(r, {}, g);
    if r.own[g].Node? {
      RootIs(r, g);
    } else if r.own[g].Leaf? {
      RootIs(r, r.own[g].up);
    }
  }

  /** proc_freepagetable: the tables and pages of the process, and no other frame, become free. */
  method ProcFreePagetable(k: Kernel, root: nat, sz: nat)
    requires Inv(k.ram, {}) && ProcTable(k.ram, root, Pages(sz))
    modifies k
    ensures Inv(k.ram, {}) && |k.ram.mem| == |old(k.ram).mem| == |old(k.ram).own|
    ensures SameElse(old(k.ram), k.ram, root, 0, PAGES)
    ensures forall g :: 0 <= g < |k.ram.mem| ==> var o := old(k.ram).own[g];
              if o.Free? || ((o.Node? || o.Leaf?) && o.root == root) then k.ram.own[g].Free? else k.ram.own[g] == o
  {
    hide Inv, Lookup, Touches, SameElse, TreeFreed;
    ghost var r0, n := k.ram, Pages(sz);
    k.Uvmunmap(root, TRAMPOLINE, 1, false);
    ghost var r1 := k.ram;
    NoneStill(r0, r1, root, TRAMPOLINE, TRAMPOLINE + 1, n, TRAPFRAME);
    NoneStill(r0, r1, root, TRAMPOLINE, TRAMPOLINE + 1, TRAMPOLINE + 1, PAGES);
    MappedStill(r0, r1, root, TRAMPOLINE, TRAMPOLINE + 1, 0, n, true);
    PageKept(r0, r1, root, TRAMPOLINE, TRAMPOLINE + 1, root, TRAPFRAME);
    k.Uvmunmap(root, TRAPFRAME, 1, false);
    ghost var r2 := k.ram;
    NoneStill(r1, r2, root, TRAPFRAME, TRAPFRAME + 1, n, TRAPFRAME);
    NoneStill(r1, r2, root, TRAPFRAME, TRAPFRAME + 1, TRAMPOLINE, PAGES);
    MappedStill(r1, r2, root, TRAPFRAME, TRAPFRAME + 1, 0, n, true);
    Uvmfree(k, root, sz);
    Wider(r0, r1, root, TRAMPOLINE, TRAMPOLINE + 1, TRAPFRAME, TRAMPOLINE + 1);
    Wider(r1, r2, root, TRAPFRAME, TRAPFRAME + 1, TRAPFRAME, TRAMPOLINE + 1);
    Then(r0, r1, r2, root, TRAPFRAME, TRAMPOLINE + 1);
    SameWider(r0, r2, root, TRAPFRAME, TRAMPOLINE + 1, 0, PAGES);
    TouchesRoots(r0, r2, root, TRAPFRAME, TRAMPOLINE + 1);
    SameTrans(r0, r2, k.ram, root, 0, PAGES);
    Retired(r0, r2, k.ram, root);
  }

  lemma MappedStill(r: Ram, r': Ram, root: nat, lo: nat, hi: nat, a: nat, b: nat, owned: bool)
    requires IsRoot(r, root) && AllMapped(r, root, a, b, owned) && Touches(r, r', root, lo, hi)
    requires SameElse(r, r', root, lo, hi) && b <= PAGES && b <= lo
    ensures AllMapped(r', root, a, b, owned)
  {
    hide Lookup, Touches, SameElse, Owned;
    forall v | a <= v < b ensures Lookup(r'.mem, root, v).v && (owned <==> Owned(r', root, v)) {
      PageKept(r, r', root, lo, hi, root, v);
    }
  }

  lemma Retired(r: Ram, r2: Ram, r3: Ram, root: nat)
    requires Inv(r, {}) && Inv(r2, {}) && Touches(r, r2, root, TRAPFRAME, TRAMPOLINE + 1) && TreeFreed(r2, r3, root)
    requires AllMapped(r, root, TRAPFRAME, TRAMPOLINE + 1, false)
    ensures |r3.mem| == |r.mem| == |r3.own| == |r.own|
    ensures forall g :: 0 <= g < |r.mem| ==> var o := r.own[g];
              if o.Free? || ((o.Node? || o.Leaf?) && o.root == root) then r3.own[g].Free? else r3.own[g] == o
  {
    hide Inv, Lookup;
    forall g | 0 <= g < |r.mem|
      ensures var o := r.own[g];
              if o.Free? || ((o.Node? || o.Leaf?) && o.root == root) then r3.own[g].Free? else r3.own[g] == o
    {
      assert Keeps(r, r2, root, TRAPFRAME, TRAMPOLINE + 1, g) && FrameFreed(r2, r3, root, g);
    }
  }

  /** freerange: every whole frame of the range goes to the free list. */
  method Freerange(k: Kernel, start: nat, end: nat)
    requires Inv(k.ram, {}) && end <= |k.ram.mem| * PGSIZE
    requires forall g :: Pages(start) <= g < end / PGSIZE ==> k.ram.own[g].Held?
    modifies k
    ensures Inv(k.ram, {}) && |k.ram.own| == |k.ram.mem| == |old(k.ram).mem| == |old(k.ram).own|
    ensures forall g :: 0 <= g < |k.ram.mem| ==>
              if Pages(start) <= g < end / PGSIZE then k.ram.own[g].Free? else k.ram.own[g] == old(k.ram).own[g]
  {
    hide Inv;
    SizedOf(k.ram);
    ghost var r0 := k.ram;
    var p := Pages(start);
    while (p + 1) * PGSIZE <= end
      invariant Inv(k.ram, {}) && |k.ram.own| == |k.ram.mem| == |r0.mem| && Pages(start) <= p
      invariant (p <= end / PGSIZE || p == Pages(start))
      invariant forall g :: 0 <= g < |k.ram.mem| ==>
                if Pages(start) <= g < p then k.ram.own[g].Free? else k.ram.own[g] == r0.own[g]
      decreases end - p * PGSIZE
    {
      k.Kfree(p, {});
      p := p + 1;
    }
  }
}
