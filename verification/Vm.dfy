/** kalloc.c and vm.c: allocating frames, walking and changing page tables, growing user memory. */
module Vm {
  import opened Frames
  import opened PageTables

  lemma HeadNull(r: Ram, stale: set<(nat, nat)>)
    requires Inv(r, stale)
    ensures r.head == 0 <==> r.free == []
    ensures r.head != 0 ==> r.head < |r.mem| && r.mem[r.head].Run? && r.own[r.head].Free?
  {
    if r.free != [] {
      AllocInv(r, stale);
    }
  }

  /** A frame kalloc handed out is given other contents. */
  lemma PageSet(r: Ram, stale: set<(nat, nat)>, f: nat, page: Page)
    requires Inv(r, stale) && f < |r.mem| && r.own[f].Held?
    ensures Inv(r.(mem := r.mem[f := page]), stale) && OffTree(r, r.(mem := r.mem[f := page]), f)
  {
    hide NodeOk, LeafOk, EntryOk;
    var r' := r.(mem := r.mem[f := page]);
    forall g | 0 <= g < |r.mem| ensures FrameOk(r', stale, g) {
      assert FrameOk(r, stale, g);
      if g != f && (r.own[g].Node? || r.own[g].Leaf?) {
        OffTreeKeeps(r, r', stale, f, g);
      }
    }
  }

  /** walk's new table, hung into entry i of t. */
  ghost function Attached(r: Ram, t: nat, i: nat, f: nat): (r': Ram)
    requires t < |r.mem| == |r.own| && r.mem[t].Table? && i < |r.mem[t].ptes| && f < |r.own| && r.own[t].Node?
    requires r.own[t].level > 0
  {
    SetRole(SetEntry(r, t, i, Pte(f, true, NoPerm())), f,
            Node(r.own[t].root, r.own[t].level - 1, r.own[t].prefix * ENTRIES + i, t))
  }

  lemma AttachedInv(r: Ram, t: nat, i: nat, f: nat)
    requires Inv(r, {}) && t < |r.mem| && r.own[t].Node? && r.own[t].level > 0 && IsTable(r, t) && i < ENTRIES
    requires !r.mem[t].ptes[i].v
    requires f < |r.mem| && r.own[f].Held? && r.mem[f] == ZeroTable()
    ensures Inv(Attached(r, t, i, f), {})
  {
    assert Sized(r);
    hide Inv;
    var e := Pte(f, true, NoPerm());
    SetEntryInv(r, {}, t, i, e);
    assert {} + {(t, i)} == {(t, i)};
    var r1 := SetEntry(r, t, i, e);
    NodeAdded(r1, {(t, i)}, t, i, f);
    var r2 := Attached(r, t, i, f);
    Fresh(r2, {(t, i)}, t, i);
    assert {(t, i)} - {(t, i)} == {};
  }

  /** The state after walk has made a table for vpn below the node f. */
  ghost function NewTable(r: Ram, f: nat, i: nat): (r': Ram)
    requires Inv(r, {}) && r.free != [] && f < |r.mem| && r.own[f].Node? && r.own[f].level > 0 && i < ENTRIES
  {
    AllocInv(r, {});
    TableOf(r, f);
    var r1 := Alloc(r);
    Attached(r1.(mem := r1.mem[r.head := ZeroTable()]), f, i, r.head)
  }

  lemma NewTableInv(r: Ram, f: nat, level: nat, vpn: nat)
    requires Inv(r, {}) && r.free != [] && 0 < level <= 2 && OnWay(r, f, level, vpn) && vpn < PAGES && IsTable(r, f)
    requires !r.mem[f].ptes[Index(level, vpn)].v
    ensures var r' := NewTable(r, f, Index(level, vpn)); var root := r.own[f].root;
            && Inv(r', {}) && Touches(r, r', root, 0, 0) && SameElse(r, r', root, 0, 0)
            && r.head < |r.mem| && OnWay(r', r.head, level - 1, vpn) && r'.own[r.head].root == root
  {
    hide Inv, Index, Lookup, EntryOk;
    var i, nt := Index(level, vpn), r.head;
    AllocInv(r, {});
    var r1 := Alloc(r);
    PageSet(r1, {}, nt, ZeroTable());
    var r2 := r1.(mem := r1.mem[nt := ZeroTable()]);
    AttachedInv(r2, f, i, nt);
    var r' := Attached(r2, f, i, nt);
    PrefixDown(level, vpn);
    assert Touches(r, r', r.own[f].root, 0, 0);
    forall q, v | IsRoot(r, q) && 0 <= v < PAGES ensures Lookup(r'.mem, q, v) == Lookup(r.mem, q, v) {
      OffTreeLookup(r, r1, nt, q, v);
      OffTreeLookup(r1, r2, nt, q, v);
      RootOnWay(r2, q, v);
      AttachLookup(r2, f, i, nt, q, 2, v);
      LookupRoot(r2.mem, q, v);
      LookupRoot(r'.mem, q, v);
    }
  }

  lemma LookupRoot(mem: seq<Page>, q: nat, v: nat)
    ensures Lookup(mem, q, v) == LookupFrom(mem, q, 2, v)
  {
  }

  /** The page vpn is mapped to a frame that belongs to the tree. */
  ghost predicate Owned(r: Ram, root: nat, vpn: nat) {
    var e := Lookup(r.mem, root, vpn);
    Sized(r) && e.v && e.ppn < |r.mem| && r.own[e.ppn].Leaf? && r.own[e.ppn].root == root && r.own[e.ppn].vpn == vpn
  }

  /** The entry for vpn in its table t is set, and the frame recorded as the tree's if it is. */
  ghost function Mapped(r: Ram, t: nat, vpn: nat, e: Pte, owned: bool): (r': Ram)
    requires t < |r.mem| == |r.own| && IsTable(r, t) && r.own[t].Node? && (owned ==> e.ppn < |r.mem|)
  {
    var r1 := SetEntry(r, t, Index(0, vpn), e);
    if owned then SetRole(r1, e.ppn, Leaf(r.own[t].root, vpn, t)) else r1
  }

  /** What a frame must be to be mapped as a page of the tree. */
  ghost predicate Mappable(r: Ram, e: Pte, owned: bool) {
    && e.v && Leafy(e.perm) && (e.perm.u ==> owned)
    && (owned ==>
        Sized(r) && e.ppn < |r.mem| && r.own[e.ppn].Held? && r.mem[e.ppn].Bytes? && |r.mem[e.ppn].data| == PGSIZE)
  }

  lemma MappedInv(r: Ram, t: nat, vpn: nat, e: Pte, owned: bool)
    requires Inv(r, {}) && vpn < PAGES && OnWay(r, t, 0, vpn) && IsTable(r, t) && !r.mem[t].ptes[Index(0, vpn)].v
    requires Mappable(r, e, owned)
    ensures Inv(Mapped(r, t, vpn, e, owned), {})
  {
    hide Inv, FrameOk;
    var i := Index(0, vpn);
    assert vpn == r.own[t].prefix * ENTRIES + i;
    SetEntryInv(r, {}, t, i, e);
    assert {} + {(t, i)} == {(t, i)};
    var r1 := SetEntry(r, t, i, e);
    if owned {
      LeafAdded(r1, {(t, i)}, t, i, e.ppn);
    }
    Fresh(Mapped(r, t, vpn, e, owned), {(t, i)}, t, i);
    assert {(t, i)} - {(t, i)} == {};
  }

  /** Every frame but f keeps its role and contents. */
  ghost predicate TouchesOnly(r: Ram, r': Ram, root: nat, f: nat) {
    && Sized(r) && Sized(r') && |r'.mem| == |r.mem| && r'.lo == r.lo
    && forall g :: 0 <= g < |r.mem| && g != f ==> Keeps(r, r', root, 0, 0, g)
  }

  /** Frame f has become the page vpn of the tree, with its contents. */
  ghost predicate Became(r: Ram, r': Ram, f: nat, root: nat, vpn: nat) {
    && f < |r.mem| == |r'.mem| == |r'.own| && r'.mem[f] == r.mem[f]
    && r'.own[f].Leaf? && r'.own[f].root == root && r'.own[f].vpn == vpn
  }

  lemma MappedTouches(r: Ram, r1: Ram, t: nat, vpn: nat, e: Pte, owned: bool, root: nat)
    requires Inv(r1, {}) && vpn < PAGES && OnWay(r1, t, 0, vpn) && r1.own[t].root == root && IsTable(r1, t)
    requires Touches(r, r1, root, 0, 0) && SameElse(r, r1, root, 0, 0)
    requires (owned ==> e.ppn < |r1.mem| && !r1.own[e.ppn].Node?)
    ensures var r' := Mapped(r1, t, vpn, e, owned);
            && SameElse(r, r', root, vpn, vpn + 1) && Lookup(r'.mem, root, vpn) == e
            && (if owned then TouchesOnly(r, r', root, e.ppn) else Touches(r, r', root, 0, 0))
            && (owned ==> r'.own[e.ppn] == Leaf(root, vpn, t) && r'.mem[e.ppn] == r1.mem[e.ppn])
  {
    hide Inv, Lookup, Index;
    var r' := Mapped(r1, t, vpn, e, owned);
    forall q, v | IsRoot(r, q) && 0 <= v < PAGES && !(q == root && vpn <= v < vpn + 1)
      ensures Lookup(r'.mem, q, v) == Lookup(r.mem, q, v)
    {
      TouchesRoot(r, r1, root, 0, 0, q);
      SetLookup(r1, r'.mem, t, vpn, e, q, v);
    }
    RootIs(r1, t);
    SetLookup(r1, r'.mem, t, vpn, e, root, vpn);
    forall g | 0 <= g < |r.mem| && !(owned && g == e.ppn) ensures Keeps(r, r', root, 0, 0, g) {
      assert Keeps(r, r1, root, 0, 0, g);
    }
  }

  lemma {:induction false} RootIs(r: Ram, f: nat)
    requires Inv(r, {}) && f < |r.mem| && r.own[f].Node?
    ensures IsRoot(r, r.own[f].root)
    decreases if r.own[f].level <= 2 then 2 - r.own[f].level else 0
  {
    assert FrameOk(r, {}, f);
    if r.own[f].level < 2 {
      RootIs(r, r.own[f].up);
    }
  }

  /** The entry for vpn in its table t is cleared, after its frame has been freed if asked. */
  ghost function Cleared(r: Ram, t: nat, vpn: nat, free: bool): (r': Ram)
    requires t < |r.mem| == |r.own| && IsTable(r, t) && r.mem[t].ptes[Index(0, vpn)].ppn < |r.mem|
    requires free ==> r.mem[t].ptes[Index(0, vpn)].ppn != t
  {
    var f := r.mem[t].ptes[Index(0, vpn)].ppn;
    var r1 := if free then Release(SetRole(r, f, Held), f) else r;
    SetEntry(r1, t, Index(0, vpn), NoPte())
  }

  lemma ClearedOwned(r: Ram, t: nat, vpn: nat, f: nat)
    requires Inv(r, {}) && vpn < PAGES && OnWay(r, t, 0, vpn) && IsTable(r, t)
    requires r.mem[t].ptes[Index(0, vpn)].ppn == f < |r.mem| && r.own[f] == Leaf(r.own[t].root, vpn, t)
    ensures f != t && Inv(SetRole(r, f, Held), {(t, Index(0, vpn))}) && r.lo <= f
    ensures Inv(Cleared(r, t, vpn, true), {}) && Cleared(r, t, vpn, true).own[f].Free?
  {
    hide FrameOk;
    var i := Index(0, vpn);
    assert FrameOk(r, {}, f) && vpn % ENTRIES == i;
    LeafBound(r, f);
    hide Inv;
    RoleDropped(r, {}, f);
    assert {} + {(t, i)} == {(t, i)};
    var r1 := SetRole(r, f, Held);
    ReleaseInv(r1, {(t, i)}, f);
    var r2 := Release(r1, f);
    SetEntryInv(r2, {(t, i)}, t, i, NoPte());
    assert {(t, i)} + {(t, i)} == {(t, i)};
    Fresh(Cleared(r, t, vpn, true), {(t, i)}, t, i);
    assert {(t, i)} - {(t, i)} == {};
  }

  lemma LeafBound(r: Ram, f: nat)
    requires Inv(r, {}) && f < |r.mem| && r.own[f].Leaf?
    ensures r.lo <= f
  {
    assert FrameOk(r, {}, f);
  }

  lemma ClearedBorrowed(r: Ram, t: nat, vpn: nat)
    requires Inv(r, {}) && vpn < PAGES && OnWay(r, t, 0, vpn) && IsTable(r, t)
    requires var f := r.mem[t].ptes[Index(0, vpn)].ppn; f < |r.mem| ==> r.own[f] != Leaf(r.own[t].root, vpn, t)
    ensures Inv(SetEntry(r, t, Index(0, vpn), NoPte()), {})
  {
    hide Inv;
    var i, f := Index(0, vpn), r.mem[t].ptes[Index(0, vpn)].ppn;
    if f < |r.mem| && Claims(r.own[f], t, i) {
      ClaimsOwned(r, t, vpn, f);
    }
    SetEntryInv(r, {}, t, i, NoPte());
    assert {} + {(t, i)} == {(t, i)};
    Fresh(SetEntry(r, t, i, NoPte()), {(t, i)}, t, i);
    assert {(t, i)} - {(t, i)} == {};
  }

  lemma ClaimsOwned(r: Ram, t: nat, vpn: nat, f: nat)
    requires Inv(r, {}) && OnWay(r, t, 0, vpn) && f < |r.mem| && Claims(r.own[f], t, Index(0, vpn))
    ensures r.own[f] == Leaf(r.own[t].root, vpn, t)
  {
    assert FrameOk(r, {}, f);
  }

  lemma ClearedTouches(r: Ram, r': Ram, t: nat, vpn: nat, root: nat, f: nat)
    requires Inv(r, {}) && vpn < PAGES && OnWay(r, t, 0, vpn) && r.own[t].root == root && IsTable(r, t)
    requires Sized(r') && |r'.mem| == |r.mem| && r'.lo == r.lo && TablesBut(r, r'.mem, t, Index(0, vpn), NoPte())
    requires forall g :: 0 <= g < |r.mem| && g != f ==>
              r'.own[g] == r.own[g] && (r.own[g].Node? || r'.mem[g] == r.mem[g])
    requires f < |r.mem| ==>
              (r'.own[f] == r.own[f] && (r.own[f].Node? || r'.mem[f] == r.mem[f]))
                || (r.own[f] == Leaf(root, vpn, t) && r'.own[f].Free?)
    ensures Touches(r, r', root, vpn, vpn + 1) && SameElse(r, r', root, vpn, vpn + 1)
    ensures Lookup(r'.mem, root, vpn) == NoPte()
  {
    hide Inv, Lookup, Index;
    forall q, v | IsRoot(r, q) && 0 <= v < PAGES && !(q == root && vpn <= v < vpn + 1)
      ensures Lookup(r'.mem, q, v) == Lookup(r.mem, q, v)
    {
      SetLookup(r, r'.mem, t, vpn, NoPte(), q, v);
    }
    RootIs(r, t);
    SetLookup(r, r'.mem, t, vpn, NoPte(), root, vpn);
  }

  class Kernel {
    var ram: Ram

    method Kalloc(ghost stale: set<(nat, nat)>) returns (f: nat)
      requires Inv(ram, stale)
      modifies this
      ensures Inv(ram, stale)
      ensures f == 0 ==> old(ram).free == [] && ram == old(ram)
      ensures f != 0 ==>
                old(ram).free != [] && f == old(ram).head < |old(ram).mem| && old(ram).mem[f].Run?
                  && |old(ram).own| == |old(ram).mem|
                         && ram == Alloc(old(ram)) && OffTree(old(ram), ram, f) && ram.own[f].Held?
                         && old(ram).own[f].Free?
    {
      HeadNull(ram, stale);
      if ram.head != 0 {
        AllocInv(ram, stale);
      }
      hide Inv;
      f := ram.head;
      if f != 0 {
        ghost var own, free := ram.own[f := Held], ram.free[..|ram.free| - 1];
        ram := ram.(head := ram.mem[f].next, own := own, free := free);
      }
      if f != 0 {
        ram := ram.(mem := ram.mem[f := Junk(5)]);
      }
    }

    method Kfree(f: nat, ghost stale: set<(nat, nat)>)
      requires Inv(ram, stale) && f < |ram.mem| && ram.own[f].Held?
      modifies this
      ensures |old(ram).own| == |old(ram).mem| && ram == Release(old(ram), f) && Inv(ram, stale)
      ensures OffTree(old(ram), ram, f)
    {
      assert FrameOk(ram, stale, f);
      ReleaseInv(ram, stale, f);
      hide Inv;
      ram := ram.(mem := ram.mem[f := Junk(1)]);
      ghost var own, free := ram.own[f := Free(|ram.free|)], ram.free + [f];
      ram := ram.(mem := ram.mem[f := Run(ram.head)], head := f, own := own, free := free);
    }

    /** walk: the last-level table for vpn, or 0. With alloc, at most two missing tables are
        made, and it fails only for want of frames. */
    method Walk(root: nat, vpn: nat, alloc: bool) returns (t: nat)
      requires Inv(ram, {}) && IsRoot(ram, root) && vpn < MAXVPN
      modifies this
      ensures Inv(ram, {}) && Touches(old(ram), ram, root, 0, 0) && SameElse(old(ram), ram, root, 0, 0)
      ensures t != 0 ==>
                OnWay(ram, t, 0, vpn) && ram.own[t].root == root && IsTable(ram, t) && Find(ram.mem, root, 2, vpn) == t
      ensures t == 0 ==> !Lookup(ram.mem, root, vpn).v && (alloc ==> ram.free == [] && |old(ram).free| < 2)
      ensures !alloc ==> ram == old(ram)
      ensures |ram.free| >= |old(ram).free| - 2
    {
      hide Inv, Lookup, Index, Find;
      RootOnWay(ram, root, vpn);
      TouchesRefl(ram, root, 0, 0);
      var f := root;
      var level := 2;
      while level > 0
        invariant 0 <= level <= 2 && Inv(ram, {}) && IsRoot(ram, root) && OnWay(ram, f, level, vpn)
        invariant ram.own[f].root == root
        invariant Touches(old(ram), ram, root, 0, 0) && SameElse(old(ram), ram, root, 0, 0)
        invariant !alloc ==> ram == old(ram)
        invariant |ram.free| >= |old(ram).free| - (2 - level)
      {
        ghost var ram1 := ram;
        var f', stop := WalkStep(root, f, level, vpn, alloc);
        Then(old(ram), ram1, ram, root, 0, 0);
        if stop {
          return 0;
        }
        f := f';
        level := level - 1;
      }
      TableOf(ram, f);
      Positive(ram, f);
      t := f;
      FindLast(ram.mem, f, vpn);
      FindVia(ram, f, 0, vpn);
    }

    /** One level of walk: the next table, or stop. */
    method WalkStep(root: nat, f: nat, level: nat, vpn: nat, alloc: bool) returns (f': nat, stop: bool)
      requires Inv(ram, {}) && IsRoot(ram, root) && OnWay(ram, f, level, vpn) && ram.own[f].root == root
      requires vpn < MAXVPN && 0 < level <= 2
      modifies this
      ensures Inv(ram, {}) && IsRoot(ram, root) && Touches(old(ram), ram, root, 0, 0)
      ensures SameElse(old(ram), ram, root, 0, 0)
      ensures !alloc ==> ram == old(ram)
      ensures stop ==> ram == old(ram) && !Lookup(ram.mem, root, vpn).v && (alloc ==> ram.free == [])
      ensures |ram.free| >= |old(ram).free| - 1
      ensures !stop ==> OnWay(ram, f', level - 1, vpn) && ram.own[f'].root == root
    {
      hide Inv, Lookup, Index, Touches, SameElse;
      Down(ram, f, level, vpn);
      TouchesRefl(ram, root, 0, 0);
      var i := Index(level, vpn);
      var e := ram.mem[f].ptes[i];
      if e.v {
        return e.ppn, false;
      }
      Unmapped(ram, f, level, vpn);
      if !alloc {
        return 0, true;
      }
      ghost var r0 := ram;
      var nt := Kalloc({});
      if nt == 0 {
        return 0, true;
      }
      NewTableInv(r0, f, level, vpn);
      ram := ram.(mem := ram.mem[nt := Table(seq(ENTRIES, _ => NoPte()))]);
      var e' := Pte(nt, true, NoPerm());
      assert ram.mem[f] == r0.mem[f];
      ghost var o := Node(root, level - 1, ram.own[f].prefix * ENTRIES + i, f);
      ram := SetEntry(ram, f, i, e');
      ram := ram.(own := ram.own[nt := o]);
      assert ram == NewTable(r0, f, i);
      TouchesRoot(r0, ram, root, 0, 0, root);
      return nt, false;
    }

    /** One page of mappages. */
    method MapPage(root: nat, vpn: nat, e: Pte, ghost owned: bool) returns (ok: bool)
      requires Inv(ram, {}) && IsRoot(ram, root) && vpn < MAXVPN && !Lookup(ram.mem, root, vpn).v
      requires Mappable(ram, e, owned)
      modifies this
      ensures Inv(ram, {}) && IsRoot(ram, root)
      ensures !ok ==> Touches(old(ram), ram, root, 0, 0) && SameElse(old(ram), ram, root, 0, 0) && ram.free == []
      ensures |ram.free| >= |old(ram).free| - 2 && (!ok ==> |old(ram).free| < 2)
      ensures ok ==> SameElse(old(ram), ram, root, vpn, vpn + 1) && Lookup(ram.mem, root, vpn) == e
      ensures ok && !owned ==> Touches(old(ram), ram, root, 0, 0)
      ensures ok && owned ==> TouchesOnly(old(ram), ram, root, e.ppn) && Became(old(ram), ram, e.ppn, root, vpn)
    {
      hide Inv, Lookup, Index, Touches, SameElse, TouchesOnly;
      ghost var r0 := ram;
      var t := Walk(root, vpn, true);
      TouchesRoot(r0, ram, root, 0, 0, root);
      if t == 0 {
        return false;
      }
      HeldKept(r0, ram, root, e, owned);
      SameAt(r0, ram, root, vpn);
      FoundEntry(ram, root, t, vpn);
      MappedInv(ram, t, vpn, e, owned);
      MappedTouches(r0, ram, t, vpn, e, owned, root);
      ghost var r1 := ram;
      ram := SetEntry(ram, t, Index(0, vpn), e);
      ghost var own := if owned then ram.own[e.ppn := Leaf(root, vpn, t)] else ram.own;
      ram := ram.(own := own);
      RootKept(r1, ram, root);
      ok := true;
    }

    /** mappages. A page that belongs to the tree is mapped alone; frames that do not (owned is
        false) may be mapped many at a time. */
    method Mappages(root: nat, va: nat, size: nat, pa: nat, perm: Perm, ghost owned: bool) returns (ok: bool)
      requires Inv(ram, {}) && IsRoot(ram, root) && size > 0 && (va + size - 1) / PGSIZE < MAXVPN
      requires forall v :: va / PGSIZE <= v <= (va + size - 1) / PGSIZE ==> !Lookup(ram.mem, root, v).v
      requires if owned
               then va / PGSIZE == (va + size - 1) / PGSIZE && Mappable(ram, Pte(pa / PGSIZE, true, perm), true)
               else Leafy(perm) && !perm.u
      modifies this
      ensures Inv(ram, {}) && IsRoot(ram, root)
      ensures SameElse(old(ram), ram, root, va / PGSIZE, (va + size - 1) / PGSIZE + 1)
      ensures !ok ==> Touches(old(ram), ram, root, 0, 0) && ram.free == []
      ensures var n := (va + size - 1) / PGSIZE + 1 - va / PGSIZE;
              |ram.free| >= |old(ram).free| - 2 * n && (!ok ==> |old(ram).free| < 2 * n)
      ensures !ok && va / PGSIZE == (va + size - 1) / PGSIZE ==> SameElse(old(ram), ram, root, 0, 0)
      ensures ok ==> forall v :: va / PGSIZE <= v <= (va + size - 1) / PGSIZE ==>
                       Lookup(ram.mem, root, v) == Pte(pa / PGSIZE + v - va / PGSIZE, true, perm)
      ensures ok && !owned ==> Touches(old(ram), ram, root, 0, 0)
      ensures ok && owned ==>
                TouchesOnly(old(ram), ram, root, pa / PGSIZE) && Became(old(ram), ram, pa / PGSIZE, root, va / PGSIZE)
    {
      hide Inv, Lookup, Touches, SameElse, TouchesOnly, Leafy;
      ghost var first, r0 := va / PGSIZE, ram;
      SizedOf(ram);
      TouchesRefl(ram, root, 0, 0);
      SameWider(ram, ram, root, 0, 0, first, first);
      var a, last, f := va / PGSIZE, (va + size - 1) / PGSIZE, pa / PGSIZE;
      while true
        invariant Inv(ram, {}) && IsRoot(ram, root) && first <= a <= last && f == pa / PGSIZE + a - first
        invariant (owned ==> ram == r0) && |ram.free| >= |r0.free| - 2 * (a - first)
        invariant Touches(r0, ram, root, 0, 0) && SameElse(r0, ram, root, first, a)
        invariant forall v :: first <= v < a ==> Lookup(ram.mem, root, v) == Pte(pa / PGSIZE + v - first, true, perm)
        decreases last - a
      {
        ghost var r1 := ram;
        SameBut(r0, r1, root, first, a, a);
        var done := MapPage(root, a, Pte(f, true, perm), owned);
        if !done {
          MapStep(r0, r1, ram, root, first, a, a, a);
          SameWider(r0, ram, root, first, a, first, last + 1);
          if a == first {
            SameWider(r0, ram, root, first, a, 0, 0);
          }
          return false;
        }
        MapMore(r1, ram, root, first, a, pa / PGSIZE, perm);
        if !owned {
          MapStep(r0, r1, ram, root, first, a, a, a + 1);
        }
        if a == last {
          return true;
        }
        a := a + 1;
        f := f + 1;
      }
    }

    /** One page of uvmunmap; its panics are excluded by the precondition. */
    method UnmapPage(root: nat, vpn: nat, free: bool)
      requires Inv(ram, {}) && IsRoot(ram, root) && vpn < MAXVPN && Lookup(ram.mem, root, vpn).v
      requires (free <==> Owned(ram, root, vpn))
      modifies this
      ensures Inv(ram, {}) && IsRoot(ram, root) && Lookup(ram.mem, root, vpn) == NoPte()
      ensures Touches(old(ram), ram, root, vpn, vpn + 1) && SameElse(old(ram), ram, root, vpn, vpn + 1)
    {
      hide Inv, Lookup, Index, Touches, SameElse;
      var t := Walk(root, vpn, false);
      ghost var r0 := ram;
      FoundEntry(ram, root, t, vpn);
      var e := ram.mem[t].ptes[Index(0, vpn)];
      ghost var i := Index(0, vpn);
      if free {
        OwnedUp(ram, root, vpn, t);
        ClearedOwned(ram, t, vpn, e.ppn);
        ghost var own := ram.own[e.ppn := Held];
        ram := ram.(own := own);
        Kfree(e.ppn, {(t, i)});
      } else {
        NotOwned(ram, root, vpn, t);
        ClearedBorrowed(ram, t, vpn);
      }
      ram := SetEntry(ram, t, Index(0, vpn), NoPte());
      ClearedTouches(r0, ram, t, vpn, root, if free then e.ppn else |r0.mem|);
      TouchesRoot(r0, ram, root, vpn, vpn + 1, root);
    }

    /** uvmunmap, of n pages from the page number first. */
    method Uvmunmap(root: nat, first: nat, n: nat, free: bool)
      requires Inv(ram, {}) && IsRoot(ram, root) && first + n <= MAXVPN && AllMapped(ram, root, first, first + n, free)
      modifies this
      ensures Inv(ram, {}) && IsRoot(ram, root) && NoneMapped(ram, root, first, first + n)
      ensures Touches(old(ram), ram, root, first, first + n) && SameElse(old(ram), ram, root, first, first + n)
    {
      hide Inv, Touches, SameElse, Lookup;
      SizedOf(ram);
      TouchesRefl(ram, root, first, first + n);
      ghost var r0 := ram;
      var a := first;
      while a < first + n
        invariant first <= a <= first + n && Inv(ram, {}) && IsRoot(ram, root)
        invariant NoneMapped(ram, root, first, a) && AllMapped(ram, root, a, first + n, free)
        invariant Touches(r0, ram, root, first, first + n) && SameElse(r0, ram, root, first, first + n)
      {
        ghost var r1 := ram;
        UnmapPage(root, a, free);
        UnmapMore(r1, ram, root, first, a, first + n, free);
        Wider(r1, ram, root, a, a + 1, first, first + n);
        Then(r0, r1, ram, root, first, first + n);
        a := a + 1;
      }
    }

    /** uvmdealloc. */
    method Uvmdealloc(root: nat, oldsz: nat, newsz: nat) returns (sz: nat)
      requires Inv(ram, {}) && IsRoot(ram, root) && Pages(oldsz) <= MAXVPN
      requires (newsz < oldsz ==> AllMapped(ram, root, Pages(newsz), Pages(oldsz), true))
      modifies this
      ensures Inv(ram, {}) && IsRoot(ram, root) && sz == if newsz >= oldsz then oldsz else newsz
      ensures newsz >= oldsz ==> ram == old(ram)
      ensures newsz < oldsz ==> NoneMapped(ram, root, Pages(newsz), Pages(oldsz))
      ensures newsz < oldsz ==>
                Touches(old(ram), ram, root, Pages(newsz), Pages(oldsz))
                  && SameElse(old(ram), ram, root, Pages(newsz), Pages(oldsz))
    {
      hide Inv, Touches, SameElse, Lookup;
      SizedOf(ram);
      if newsz >= oldsz {
        return oldsz;
      }
      TouchesRefl(ram, root, Pages(newsz), Pages(oldsz));
      if Pages(newsz) < Pages(oldsz) {
        Uvmunmap(root, Pages(newsz), Pages(oldsz) - Pages(newsz), true);
      }
      return newsz;
    }

    /** One page of uvmalloc: a zeroed frame, mapped; on failure the frame goes back. */
    method AllocPage(root: nat, vpn: nat, perm: Perm) returns (ok: bool)
      requires Inv(ram, {}) && IsRoot(ram, root) && vpn < MAXVPN && !Lookup(ram.mem, root, vpn).v && Leafy(perm)
      modifies this
      ensures Inv(ram, {}) && IsRoot(ram, root) && Touches(old(ram), ram, root, vpn, vpn + 1)
      ensures SameElse(old(ram), ram, root, vpn, vpn + 1)
      ensures ok ==> HasPage(ram, root, vpn, perm, Junk(0))
      ensures !ok ==> !Lookup(ram.mem, root, vpn).v && |old(ram).free| < 3
      ensures |ram.free| >= |old(ram).free| - 3
    {
      hide Inv, Lookup, Touches, SameElse, TouchesOnly;
      SizedOf(ram);
      ghost var r0 := ram;
      TouchesRefl(ram, root, vpn, vpn + 1);
      var f := Kalloc({});
      if f == 0 {
        return false;
      }
      PageSet(ram, {}, f, Junk(0));
      ram := ram.(mem := ram.mem[f := Junk(0)]);
      ok := PutPage(root, vpn, f, perm, r0);
    }

    /** Map the frame f, just filled, as page vpn, or free it. */
    method PutPage(root: nat, vpn: nat, f: nat, perm: Perm, ghost r0: Ram) returns (ok: bool)
      requires Inv(r0, {}) && Inv(ram, {}) && IsRoot(r0, root) && vpn < MAXVPN && !Lookup(r0.mem, root, vpn).v
      requires Leafy(perm)
      requires f < |r0.mem| == |ram.mem| && r0.own[f].Free? && ram.own[f].Held? && ram.mem[f].Bytes?
      requires |ram.mem[f].data| == PGSIZE && OffTree(r0, ram, f)
      modifies this
      ensures Inv(ram, {}) && IsRoot(ram, root) && Touches(r0, ram, root, vpn, vpn + 1)
      ensures SameElse(r0, ram, root, vpn, vpn + 1)
      ensures ok ==> HasPage(ram, root, vpn, perm, old(ram).mem[f])
      ensures !ok ==> !Lookup(ram.mem, root, vpn).v && |old(ram).free| < 2
      ensures |ram.free| >= |old(ram).free| - 2
    {
      hide Inv, Lookup, Touches, SameElse, TouchesOnly, Leafy;
      ghost var r1 := ram;
      FilledSame(r0, r1, f, root, vpn);
      FramePage(f);
      ok := Mappages(root, vpn * PGSIZE, PGSIZE, f * PGSIZE, perm, true);
      if ok {
        PutOk(r0, r1, ram, f, root, vpn);
        PutHas(r1, ram, f, root, vpn, perm);
      } else {
        ghost var r2 := ram;
        TouchesHeld(r1, r2, root, f);
        Kfree(f, {});
        PutFailed(r0, r1, r2, ram, f, root, vpn);
      }
    }

    /** uvmalloc: the new pages are zeroed and the tree's own, or none is mapped. Three free
        frames a page are always enough. */
    method Uvmalloc(root: nat, oldsz: nat, newsz: nat, xperm: Perm) returns (sz: nat)
      requires Inv(ram, {}) && IsRoot(ram, root) && Pages(newsz) <= MAXVPN
      requires NoneMapped(ram, root, Pages(oldsz), Pages(newsz))
      modifies this
      ensures Inv(ram, {}) && IsRoot(ram, root) && (sz == newsz || sz == oldsz || sz == 0)
      ensures newsz < oldsz ==> sz == oldsz && ram == old(ram)
      ensures newsz >= oldsz ==>
                Touches(old(ram), ram, root, Pages(oldsz), Pages(newsz))
                  && SameElse(old(ram), ram, root, Pages(oldsz), Pages(newsz))
      ensures newsz >= oldsz && sz == newsz ==>
                forall v :: Pages(oldsz) <= v < Pages(newsz) ==>
                    HasPage(ram, root, v, Perm(true, xperm.w, xperm.x, true), Junk(0))
      ensures newsz >= oldsz && sz != newsz ==> sz == 0 && NoneMapped(ram, root, Pages(oldsz), Pages(newsz))
      ensures newsz >= oldsz && sz != newsz ==> |old(ram).free| < 3 * (Pages(newsz) - Pages(oldsz))
    {
      hide Inv, Touches, SameElse, Lookup, HasPage;
      if newsz < oldsz {
        return oldsz;
      }
      SizedOf(ram);
      ghost var r0, first, last := ram, Pages(oldsz), Pages(newsz);
      var perm := Perm(true, xperm.w, xperm.x, true);
      TouchesRefl(ram, root, first, last);
      var a := Pages(oldsz);
      while a * PGSIZE < newsz
        invariant first <= a && (a <= last || a == first) && Inv(ram, {}) && IsRoot(ram, root)
        invariant Touches(r0, ram, root, first, last) && SameElse(r0, ram, root, first, last)
        invariant forall v :: first <= v < a ==> HasPage(ram, root, v, perm, Junk(0))
        invariant NoneMapped(ram, root, a, last) && |ram.free| >= |r0.free| - 3 * (a - first)
        decreases newsz - a * PGSIZE
      {
        ghost var r1 := ram;
        var ok := AllocPage(root, a, perm);
        GrowMore(r1, ram, root, first, a, last, perm);
        Wider(r1, ram, root, a, a + 1, first, last);
        Then(r0, r1, ram, root, first, last);
        if !ok {
          ghost var r2 := ram;
          PagesOf(a);
          GrownMapped(ram, root, first, a, perm);
          var _ := Uvmdealloc(root, a * PGSIZE, Pages(oldsz) * PGSIZE);
          if first < a {
            DeallocMore(r2, ram, root, first, a, last);
            Wider(r2, ram, root, first, a, first, last);
            Then(r0, r2, ram, root, first, last);
          }
          return 0;
        }
        a := a + 1;
      }
      sz := newsz;
    }

    /** uvmcreate. */
    method Uvmcreate() returns (root: nat)
      requires Inv(ram, {})
      modifies this
      ensures Inv(ram, {})
      ensures root == 0 ==> ram == old(ram) && ram.free == []
      ensures |ram.free| >= |old(ram).free| - 1
      ensures root != 0 ==> root < |old(ram).mem| == |old(ram).own| && old(ram).own[root].Free? && IsRoot(ram, root)
                            && OffTreeRoot(old(ram), ram, root) && NoneMapped(ram, root, 0, PAGES)
    {
      hide Inv, Lookup;
      ghost var r0 := ram;
      root := Kalloc({});
      if root != 0 {
        PageSet(ram, {}, root, ZeroTable());
        ram := ram.(mem := ram.mem[root := Table(seq(ENTRIES, _ => NoPte()))]);
        RootAdded(ram, {}, root);
        EmptyRoot(ram, root);
        ghost var own := ram.own[root := Node(root, 2, 0, 0)];
        ram := ram.(own := own);
      }
    }
  }

  lemma SizedOf(r: Ram)
    requires Inv(r, {})
    ensures Sized(r)
  {
  }

  lemma Unmapped(r: Ram, f: nat, level: nat, vpn: nat)
    requires Inv(r, {}) && 0 < level <= 2 && OnWay(r, f, level, vpn) && vpn < PAGES && IsTable(r, f)
    requires !r.mem[f].ptes[Index(level, vpn)].v
    ensures !Lookup(r.mem, r.own[f].root, vpn).v
  {
    hide Inv, Index;
    FindVia(r, f, level, vpn);
    LookupFound(r.mem, r.own[f].root, 2, vpn);
  }

  lemma Positive(r: Ram, f: nat)
    requires Inv(r, {}) && f < |r.mem| && r.own[f].Node?
    ensures f > 0
  {
    assert FrameOk(r, {}, f);
  }

  lemma FindLast(mem: seq<Page>, f: nat, vpn: nat)
    requires f < |mem| && mem[f].Table? && |mem[f].ptes| == ENTRIES
    ensures Find(mem, f, 0, vpn) == f
  {
  }

  lemma HeldKept(r: Ram, r': Ram, root: nat, e: Pte, owned: bool)
    requires Touches(r, r', root, 0, 0) && Mappable(r, e, owned)
    ensures |r'.mem| == |r.mem| && Mappable(r', e, owned) && (owned ==> r'.mem[e.ppn] == r.mem[e.ppn])
  {
    if owned {
      assert Keeps(r, r', root, 0, 0, e.ppn);
    }
  }

  lemma SameAt(r: Ram, r': Ram, root: nat, vpn: nat)
    requires IsRoot(r, root) && SameElse(r, r', root, 0, 0) && vpn < PAGES
    ensures Lookup(r'.mem, root, vpn) == Lookup(r.mem, root, vpn)
  {
  }

  lemma SameBut(r: Ram, r': Ram, root: nat, lo: nat, hi: nat, vpn: nat)
    requires IsRoot(r, root) && SameElse(r, r', root, lo, hi) && vpn < PAGES && !(lo <= vpn < hi)
    ensures Lookup(r'.mem, root, vpn) == Lookup(r.mem, root, vpn)
  {
  }

  /** The entry found by walk is the translation. */
  lemma FoundEntry(r: Ram, root: nat, t: nat, vpn: nat)
    requires Inv(r, {}) && vpn < PAGES && OnWay(r, t, 0, vpn) && r.own[t].root == root && IsTable(r, t)
    ensures r.mem[t].ptes[Index(0, vpn)] == Lookup(r.mem, root, vpn)
  {
    FindVia(r, t, 0, vpn);
    LookupFound(r.mem, root, 2, vpn);
  }

  lemma RootKept(r: Ram, r': Ram, root: nat)
    requires IsRoot(r, root) && Sized(r') && |r'.mem| == |r.mem| && r'.own[root] == r.own[root]
    ensures IsRoot(r', root)
  {
  }

  /** mappages goes on by one page, or fails to. */
  lemma MapStep(r0: Ram, r1: Ram, r2: Ram, root: nat, first: nat, a: nat, lo: nat, hi: nat)
    requires Touches(r0, r1, root, 0, 0) && Touches(r1, r2, root, 0, 0) && SameElse(r0, r1, root, first, a)
    requires first <= a && lo == a && (hi == a + 1 || (hi == a && SameElse(r1, r2, root, 0, 0)))
    requires (hi == a + 1 ==> SameElse(r1, r2, root, lo, hi))
    ensures Touches(r0, r2, root, 0, 0) && SameElse(r0, r2, root, first, hi)
  {
    hide Touches, SameElse, IsRoot;
    TouchesTrans(r0, r1, r2, root, 0, 0);
    TouchesRoots(r0, r1, root, 0, 0);
    if hi == a {
      SameWider(r1, r2, root, 0, 0, first, hi);
    } else {
      SameWider(r0, r1, root, first, a, first, hi);
      SameWider(r1, r2, root, lo, hi, first, hi);
    }
    SameTrans(r0, r1, r2, root, first, hi);
  }

  lemma MapMore(r1: Ram, r2: Ram, root: nat, first: nat, a: nat, ppn: nat, perm: Perm)
    requires IsRoot(r1, root) && SameElse(r1, r2, root, a, a + 1) && first <= a < PAGES
    requires Lookup(r2.mem, root, a) == Pte(ppn + a - first, true, perm)
    requires forall v :: first <= v < a ==> Lookup(r1.mem, root, v) == Pte(ppn + v - first, true, perm)
    ensures forall v :: first <= v < a + 1 ==> Lookup(r2.mem, root, v) == Pte(ppn + v - first, true, perm)
  {
    hide Lookup;
  }

  lemma OwnedUp(r: Ram, root: nat, vpn: nat, t: nat)
    requires Inv(r, {}) && vpn < PAGES && OnWay(r, t, 0, vpn) && r.own[t].root == root && IsTable(r, t)
    requires Owned(r, root, vpn)
    requires r.mem[t].ptes[Index(0, vpn)] == Lookup(r.mem, root, vpn)
    ensures r.own[Lookup(r.mem, root, vpn).ppn] == Leaf(root, vpn, t)
  {
    hide Lookup;
    var f := Lookup(r.mem, root, vpn).ppn;
    assert FrameOk(r, {}, f);
    OneTable(r, r.own[f].up, t, vpn);
  }

  /** A page has one table. */
  lemma OneTable(r: Ram, a: nat, b: nat, vpn: nat)
    requires Inv(r, {}) && vpn < PAGES && OnWay(r, a, 0, vpn) && OnWay(r, b, 0, vpn) && r.own[a].root == r.own[b].root
    ensures a == b
  {
    hide Inv;
    FindVia(r, a, 0, vpn);
    FindVia(r, b, 0, vpn);
    TableOf(r, a);
    TableOf(r, b);
    FindLast(r.mem, a, vpn);
    FindLast(r.mem, b, vpn);
  }

  lemma NotOwned(r: Ram, root: nat, vpn: nat, t: nat)
    requires OnWay(r, t, 0, vpn) && r.own[t].root == root && IsTable(r, t) && !Owned(r, root, vpn)
    requires Lookup(r.mem, root, vpn).v
    requires r.mem[t].ptes[Index(0, vpn)] == Lookup(r.mem, root, vpn)
    ensures var f := r.mem[t].ptes[Index(0, vpn)].ppn; f < |r.mem| ==> r.own[f] != Leaf(root, vpn, t)
  {
  }

  /** PGROUNDUP(sz) / PGSIZE. */
  function Pages(sz: nat): (n: nat)
    ensures (n - 1) * PGSIZE < sz <= n * PGSIZE || sz == n == 0
  {
    (sz + PGSIZE - 1) / PGSIZE
  }

  /** Pages lo to hi are all mapped, to frames of the tree (or all to others). */
  ghost predicate AllMapped(r: Ram, root: nat, lo: nat, hi: nat, owned: bool) {
    forall v :: lo <= v < hi ==> Lookup(r.mem, root, v).v && (owned <==> Owned(r, root, v))
  }

  ghost predicate NoneMapped(r: Ram, root: nat, lo: nat, hi: nat) {
    forall v :: lo <= v < hi ==> !Lookup(r.mem, root, v).v
  }

  /** Page vpn is mapped with this permission to a frame of the tree with these contents. */
  ghost predicate HasPage(r: Ram, root: nat, vpn: nat, perm: Perm, page: Page) {
    Owned(r, root, vpn) && Lookup(r.mem, root, vpn).perm == perm && r.mem[Lookup(r.mem, root, vpn).ppn] == page
  }

  /** Pages an operation is not about keep their translation, owner and contents. */
  lemma PageKept(r: Ram, r': Ram, root: nat, lo: nat, hi: nat, q: nat, v: nat)
    requires Touches(r, r', root, lo, hi) && SameElse(r, r', root, lo, hi) && IsRoot(r, q) && v < PAGES
    requires !(q == root && lo <= v < hi)
    ensures Lookup(r'.mem, q, v) == Lookup(r.mem, q, v) && (Owned(r', q, v) <==> Owned(r, q, v))
    ensures Owned(r, q, v) ==> r'.mem[Lookup(r.mem, q, v).ppn] == r.mem[Lookup(r.mem, q, v).ppn]
  {
    hide Lookup;
    var f := Lookup(r.mem, q, v).ppn;
    if f < |r.mem| {
      assert Keeps(r, r', root, lo, hi, f);
    }
  }

  lemma UnmapMore(r: Ram, r': Ram, root: nat, first: nat, a: nat, hi: nat, owned: bool)
    requires IsRoot(r, root) && first <= a < hi <= PAGES && NoneMapped(r, root, first, a)
    requires AllMapped(r, root, a, hi, owned)
    requires Touches(r, r', root, a, a + 1) && SameElse(r, r', root, a, a + 1) && !Lookup(r'.mem, root, a).v
    ensures NoneMapped(r', root, first, a + 1) && AllMapped(r', root, a + 1, hi, owned)
  {
    hide Lookup, Touches, SameElse, Owned;
    forall v | first <= v < hi && v != a
      ensures Lookup(r'.mem, root, v) == Lookup(r.mem, root, v) && (Owned(r', root, v) <==> Owned(r, root, v))
    {
      PageKept(r, r', root, a, a + 1, root, v);
    }
  }

  lemma FramePage(f: nat)
    ensures f * PGSIZE / PGSIZE == f && (f * PGSIZE + PGSIZE - 1) / PGSIZE == f
  {
  }

  /** Filling a frame that was free changes no translation. */
  lemma FilledSame(r0: Ram, r1: Ram, f: nat, root: nat, vpn: nat)
    requires Inv(r0, {}) && OffTree(r0, r1, f) && IsRoot(r0, root) && vpn < PAGES
    ensures IsRoot(r1, root) && Lookup(r1.mem, root, vpn) == Lookup(r0.mem, root, vpn)
    ensures forall q, v :: IsRoot(r0, q) && 0 <= v < PAGES ==> Lookup(r1.mem, q, v) == Lookup(r0.mem, q, v)
    ensures forall q :: IsRoot(r0, q) ==> IsRoot(r1, q)
  {
    hide Inv, Lookup;
    forall q, v | IsRoot(r0, q) && 0 <= v < PAGES ensures Lookup(r1.mem, q, v) == Lookup(r0.mem, q, v) {
      OffTreeLookup(r0, r1, f, q, v);
    }
  }

  lemma PutOk(r0: Ram, r1: Ram, r2: Ram, f: nat, root: nat, vpn: nat)
    requires Inv(r0, {}) && OffTree(r0, r1, f) && r0.own[f].Free? && IsRoot(r0, root) && vpn < PAGES
    requires SameElse(r1, r2, root, vpn, vpn + 1) && TouchesOnly(r1, r2, root, f) && Became(r1, r2, f, root, vpn)
    ensures Touches(r0, r2, root, vpn, vpn + 1) && SameElse(r0, r2, root, vpn, vpn + 1)
  {
    hide Inv, Lookup;
    FilledSame(r0, r1, f, root, vpn);
    var hi := vpn + 1;
    forall g | 0 <= g < |r0.mem| ensures Keeps(r0, r2, root, vpn, hi, g) {
      if g != f {
        assert Keeps(r1, r2, root, 0, 0, g);
      }
    }
  }

  lemma PutHas(r1: Ram, r2: Ram, f: nat, root: nat, vpn: nat, perm: Perm)
    requires Sized(r2) && Became(r1, r2, f, root, vpn) && Lookup(r2.mem, root, vpn) == Pte(f, true, perm)
    ensures HasPage(r2, root, vpn, perm, r1.mem[f])
  {
  }

  lemma TouchesHeld(r: Ram, r': Ram, root: nat, f: nat)
    requires Touches(r, r', root, 0, 0) && f < |r.mem| && r.own[f].Held?
    ensures f < |r'.mem| && r'.own[f].Held?
  {
    assert Keeps(r, r', root, 0, 0, f);
  }

  lemma PutFailed(r0: Ram, r1: Ram, r2: Ram, r3: Ram, f: nat, root: nat, vpn: nat)
    requires Inv(r0, {}) && OffTree(r0, r1, f) && r0.own[f].Free? && IsRoot(r0, root) && vpn < PAGES
    requires !Lookup(r0.mem, root, vpn).v
    requires Touches(r1, r2, root, 0, 0) && SameElse(r1, r2, root, 0, 0) && Inv(r2, {}) && OffTree(r2, r3, f)
    requires r3.own[f].Free?
    ensures Touches(r0, r3, root, vpn, vpn + 1) && SameElse(r0, r3, root, vpn, vpn + 1) && IsRoot(r3, root)
    ensures !Lookup(r3.mem, root, vpn).v
  {
    hide Inv, Lookup;
    FilledSame(r0, r1, f, root, vpn);
    TouchesRoot(r1, r2, root, 0, 0, root);
    FilledSame(r2, r3, f, root, vpn);
    forall q, v | IsRoot(r0, q) && 0 <= v < PAGES ensures Lookup(r3.mem, q, v) == Lookup(r0.mem, q, v) {
      TouchesRoot(r1, r2, root, 0, 0, q);
    }
    var hi := vpn + 1;
    forall g | 0 <= g < |r0.mem| ensures Keeps(r0, r3, root, vpn, hi, g) {
      assert Keeps(r1, r2, root, 0, 0, g);
    }
  }

  lemma PagesOf(a: nat)
    ensures Pages(a * PGSIZE) == a
  {
  }

  lemma GrowMore(r: Ram, r': Ram, root: nat, first: nat, a: nat, last: nat, perm: Perm)
    requires IsRoot(r, root) && first <= a < last <= PAGES && NoneMapped(r, root, a, last)
    requires forall v :: first <= v < a ==> HasPage(r, root, v, perm, Junk(0))
    requires Touches(r, r', root, a, a + 1) && SameElse(r, r', root, a, a + 1)
    ensures NoneMapped(r', root, a + 1, last) && forall v :: first <= v < a ==> HasPage(r', root, v, perm, Junk(0))
  {
    hide Lookup, Touches, SameElse, Owned, Junk;
    forall v | a + 1 <= v < last ensures Lookup(r'.mem, root, v) == Lookup(r.mem, root, v) {
      PageKept(r, r', root, a, a + 1, root, v);
    }
    forall v | first <= v < a ensures HasPage(r', root, v, perm, Junk(0)) {
      assert HasPage(r, root, v, perm, Junk(0));
      PageKept(r, r', root, a, a + 1, root, v);
    }
  }

  lemma GrownMapped(r: Ram, root: nat, first: nat, a: nat, perm: Perm)
    requires forall v :: first <= v < a ==> HasPage(r, root, v, perm, Junk(0))
    ensures AllMapped(r, root, first, a, true)
  {
    hide Lookup, Junk;
    forall v | first <= v < a ensures Lookup(r.mem, root, v).v && Owned(r, root, v) {
      assert HasPage(r, root, v, perm, Junk(0));
    }
  }

  lemma DeallocMore(r: Ram, r': Ram, root: nat, first: nat, a: nat, last: nat)
    requires IsRoot(r, root) && first <= a < last <= PAGES && !Lookup(r.mem, root, a).v
    requires NoneMapped(r, root, a + 1, last)
    requires SameElse(r, r', root, first, a) && NoneMapped(r', root, first, a)
    ensures NoneMapped(r', root, first, last)
  {
    hide Lookup;
  }

  /** root, which was free, is a new empty tree; no other frame has changed. */
  ghost predicate OffTreeRoot(r: Ram, r': Ram, root: nat) {
    && Sized(r) && Sized(r') && |r'.mem| == |r.mem| && r'.lo == r.lo && root < |r.mem|
    && forall g :: 0 <= g < |r.mem| && g != root ==> r'.mem[g] == r.mem[g] && r'.own[g] == r.own[g]
  }

  lemma EmptyRoot(r: Ram, root: nat)
    requires root < |r.mem| && r.mem[root] == ZeroTable()
    ensures NoneMapped(r, root, 0, PAGES)
  {
    forall v | 0 <= v < PAGES ensures !Lookup(r.mem, root, v).v {
      ZeroLookup(r.mem, root, 2, v);
    }
  }
}
