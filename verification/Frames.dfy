/**
 Physical memory, page by page: the kernel's free list, the Sv39 page-table trees, user
 pages, and the exact account of which frame is what.
 */
module Frames {
  const PGSIZE := 4096
  const ENTRIES := 512

  datatype Perm = Perm(r: bool, w: bool, x: bool, u: bool)

  datatype Pte = Pte(ppn: nat, v: bool, perm: Perm)

  function NoPerm(): (p: Perm) {
    Perm(false, false, false, false)
  }

  function NoPte(): (e: Pte) {
    Pte(0, false, NoPerm())
  }

  predicate Leafy(p: Perm) {
    p.r || p.w || p.x
  }

  /** What a frame holds: a page table, data, or a link of the free list. */
  datatype Page = Table(ptes: seq<Pte>) | Bytes(data: seq<nat>) | Run(next: nat)

  /** What a frame is for: never handed out; handed out by kalloc; free, at a place in the
      free list; a node of the tree under root, reached from the frame up, covering the pages
      whose numbers start with prefix; or the page vpn of that tree, named in the table up. */
  datatype Role =
    | Kernel
    | Held
    | Free(pos: nat)
    | Node(root: nat, level: nat, prefix: nat, up: nat)
    | Leaf(root: nat, vpn: nat, up: nat)

  /** Frames are numbered; lo is the first after the kernel. own and free record what the
      steps did. */
  datatype Ram = Ram(mem: seq<Page>, head: nat, lo: nat, ghost own: seq<Role>, ghost free: seq<nat>)

  ghost predicate Sized(r: Ram) {
    |r.own| == |r.mem| && 0 < r.lo
  }

  ghost function Top(free: seq<nat>, n: nat): (h: nat)
    requires n <= |free|
  {
    if n == 0 then 0 else free[n - 1]
  }

  ghost predicate FreeListOk(r: Ram)
    requires Sized(r)
  {
    && r.head == Top(r.free, |r.free|)
    && (forall i :: 0 <= i < |r.free| ==> r.lo <= r.free[i] < |r.mem| && r.own[r.free[i]] == Free(i))
  }

  /** Entry i of the table f. */
  ghost predicate EntryOk(r: Ram, f: nat, root: nat, level: nat, prefix: nat, i: nat)
    requires Sized(r) && f < |r.mem| && r.mem[f].Table? && i < |r.mem[f].ptes|
  {
    var e := r.mem[f].ptes[i];
    if !e.v then e == NoPte()
    else if level > 0 then e.perm == NoPerm() && e.ppn < |r.mem|
      && r.own[e.ppn] == Node(root, level - 1, prefix * ENTRIES + i, f)
    else Leafy(e.perm) && (e.perm.u ==> e.ppn < |r.mem| && r.own[e.ppn] == Leaf(root, prefix * ENTRIES + i, f))
  }

  ghost predicate IsTable(r: Ram, f: nat) {
    f < |r.mem| && r.mem[f].Table? && |r.mem[f].ptes| == ENTRIES
  }

  /** Table up has, at the place that prefix or vpn says, an entry for f. */
  ghost predicate UpOk(r: Ram, f: nat, root: nat, level: nat, prefix: nat, up: nat)
    requires Sized(r)
  {
    && IsTable(r, up) && r.own[up].Node? && r.own[up].root == root && r.own[up].level == level + 1
    && r.own[up].prefix == prefix / ENTRIES
    && r.mem[up].ptes[prefix % ENTRIES] == Pte(f, true, NoPerm())
  }

  ghost predicate NodeOk(r: Ram, stale: set<(nat, nat)>, f: nat)
    requires Sized(r) && f < |r.mem| && r.own[f].Node?
  {
    var o := r.own[f];
    && o.level <= 2 && IsTable(r, f)
    && (if o.level == 2 then f == o.root && o.prefix == 0 else UpOk(r, f, o.root, o.level, o.prefix, o.up))
    && forall i :: 0 <= i < ENTRIES ==> (f, i) in stale || EntryOk(r, f, o.root, o.level, o.prefix, i)
  }

  ghost predicate LeafOk(r: Ram, f: nat)
    requires Sized(r) && f < |r.mem| && r.own[f].Leaf?
  {
    var o := r.own[f];
    && IsTable(r, o.up) && r.own[o.up].Node? && r.own[o.up].root == o.root && r.own[o.up].level == 0
    && r.own[o.up].prefix == o.vpn / ENTRIES
    && r.mem[o.up].ptes[o.vpn % ENTRIES].v && r.mem[o.up].ptes[o.vpn % ENTRIES].ppn == f
    && r.mem[f].Bytes? && |r.mem[f].data| == PGSIZE
  }

  /** Frame f is what its role says; entries in stale are not relied on. */
  ghost predicate FrameOk(r: Ram, stale: set<(nat, nat)>, f: nat)
    requires Sized(r) && f < |r.mem|
  {
    match r.own[f]
    case Kernel => true
    case Held => r.lo <= f
    case Free(i) => r.lo <= f && i < |r.free| && r.free[i] == f && r.mem[f] == Run(Top(r.free, i))
    case Node(_, _, _, _) => r.lo <= f && NodeOk(r, stale, f)
    case Leaf(_, _, _) => r.lo <= f && LeafOk(r, f)
  }

  ghost predicate Inv(r: Ram, stale: set<(nat, nat)>) {
    Sized(r) && FreeListOk(r) && forall f :: 0 <= f < |r.mem| ==> FrameOk(r, stale, f)
  }

  // ------------------------------------------------------------------- free frames

  function Junk(b: nat): (p: Page) {
    Bytes(seq(PGSIZE, _ => b))
  }

  /** kalloc's change, when the list is not empty. */
  function Alloc(r: Ram): (r': Ram)
    requires r.head < |r.mem| && r.mem[r.head].Run? && |r.own| == |r.mem| && |r.free| > 0
  {
    Ram(r.mem[r.head := Junk(5)], r.mem[r.head].next, r.lo, r.own[r.head := Held], r.free[..|r.free| - 1])
  }

  /** kfree's change. */
  function Release(r: Ram, f: nat): (r': Ram)
    requires f < |r.mem| == |r.own|
  {
    Ram(r.mem[f := Run(r.head)], f, r.lo, r.own[f := Free(|r.free|)], r.free + [f])
  }

  /** r' differs from r only at frame f, which neither in r nor in r' is a node or a leaf. */
  ghost predicate OffTree(r: Ram, r': Ram, f: nat) {
    && Sized(r) && Sized(r') && |r'.mem| == |r.mem| && r'.lo == r.lo && f < |r.mem|
    && (forall g :: 0 <= g < |r.mem| && g != f ==> r'.mem[g] == r.mem[g] && r'.own[g] == r.own[g])
    && !r.own[f].Node? && !r.own[f].Leaf? && !r'.own[f].Node? && !r'.own[f].Leaf?
  }

  lemma OffTreeKeeps(r: Ram, r': Ram, stale: set<(nat, nat)>, f: nat, g: nat)
    requires OffTree(r, r', f) && g < |r.mem| && g != f && FrameOk(r, stale, g) && (r.own[g].Node? || r.own[g].Leaf?)
    ensures FrameOk(r', stale, g)
  {
    if r.own[g].Node? {
      var o := r.own[g];
      forall i | 0 <= i < ENTRIES ensures (g, i) in stale || EntryOk(r', g, o.root, o.level, o.prefix, i) {
        assert (g, i) in stale || EntryOk(r, g, o.root, o.level, o.prefix, i);
      }
    }
  }

  lemma AllocInv(r: Ram, stale: set<(nat, nat)>)
    requires Inv(r, stale) && r.free != []
    ensures r.lo <= r.head < |r.mem| && r.own[r.head].Free? && r.mem[r.head].Run?
    ensures Inv(Alloc(r), stale) && OffTree(r, Alloc(r), r.head)
  {
    hide NodeOk, LeafOk, EntryOk;
    assert FrameOk(r, stale, r.head);
    var r' := Alloc(r);
    forall g | 0 <= g < |r.mem| ensures FrameOk(r', stale, g) {
      assert FrameOk(r, stale, g);
      if g != r.head && (r.own[g].Node? || r.own[g].Leaf?) {
        OffTreeKeeps(r, r', stale, r.head, g);
      }
    }
  }

  lemma ReleaseInv(r: Ram, stale: set<(nat, nat)>, f: nat)
    requires Inv(r, stale) && r.lo <= f < |r.mem| && r.own[f].Held?
    ensures Inv(Release(r, f), stale) && OffTree(r, Release(r, f), f)
  {
    hide NodeOk, LeafOk, EntryOk;
    var r' := Release(r, f);
    forall g | 0 <= g < |r.mem| ensures FrameOk(r', stale, g) {
      assert FrameOk(r, stale, g);
      if g != f && (r.own[g].Node? || r.own[g].Leaf?) {
        OffTreeKeeps(r, r', stale, f, g);
      }
    }
  }

  // ------------------------------------------------------------- entries and roles

  /** Frame g, with role o, is what entry i of table t leads to. */
  ghost predicate Claims(o: Role, t: nat, i: nat) {
    (o.Node? && o.level < 2 && o.up == t && o.prefix % ENTRIES == i) || (o.Leaf? && o.up == t && o.vpn % ENTRIES == i)
  }

  function SetEntry(r: Ram, t: nat, i: nat, e: Pte): (r': Ram)
    requires t < |r.mem| && r.mem[t].Table? && i < |r.mem[t].ptes|
  {
    r.(mem := r.mem[t := Table(r.mem[t].ptes[i := e])])
  }

  ghost function SetRole(r: Ram, f: nat, o: Role): (r': Ram)
    requires f < |r.own|
  {
    r.(own := r.own[f := o])
  }

  /** Only the frame that an entry names can claim it. */
  lemma ClaimsNamed(r: Ram, stale: set<(nat, nat)>, t: nat, i: nat, g: nat)
    requires Inv(r, stale) && g < |r.mem| && Claims(r.own[g], t, i)
    ensures IsTable(r, t) && i < ENTRIES && r.mem[t].ptes[i].v && r.mem[t].ptes[i].ppn == g
  {
    assert FrameOk(r, stale, g);
  }

  /** Any entry that no frame claims may be written. */
  lemma SetEntryInv(r: Ram, stale: set<(nat, nat)>, t: nat, i: nat, e: Pte)
    requires Inv(r, stale) && t < |r.mem| && r.own[t].Node? && i < ENTRIES && IsTable(r, t)
    requires r.mem[t].ptes[i].v && r.mem[t].ptes[i].ppn < |r.mem| ==> !Claims(r.own[r.mem[t].ptes[i].ppn], t, i)
    ensures Inv(SetEntry(r, t, i, e), stale + {(t, i)})
  {
    hide EntryOk;
    var r', stale' := SetEntry(r, t, i, e), stale + {(t, i)};
    forall g | 0 <= g < |r.mem| ensures FrameOk(r', stale', g) {
      assert FrameOk(r, stale, g);
      if Claims(r.own[g], t, i) {
        ClaimsNamed(r, stale, t, i, g);
      }
      if r.own[g].Node? {
        EntriesKept(r, r', stale, t, i, g);
      }
    }
  }

  lemma EntriesKept(r: Ram, r': Ram, stale: set<(nat, nat)>, t: nat, i: nat, g: nat)
    requires Sized(r) && t < |r.mem| && r.mem[t].Table? && i < |r.mem[t].ptes| && r'.own == r.own && r'.lo == r.lo
    requires |r'.mem| == |r.mem| && (forall h :: 0 <= h < |r.mem| && h != t ==> r'.mem[h] == r.mem[h])
    requires r'.mem[t].Table? && |r'.mem[t].ptes| == |r.mem[t].ptes|
    requires forall k :: 0 <= k < |r.mem[t].ptes| && k != i ==> r'.mem[t].ptes[k] == r.mem[t].ptes[k]
    requires g < |r.mem| && r.own[g].Node? && NodeOk(r, stale, g)
    ensures IsTable(r', g)
    ensures forall k :: 0 <= k < ENTRIES ==>
              (g, k) in stale + {(t, i)} || EntryOk(r', g, r.own[g].root, r.own[g].level, r.own[g].prefix, k)
  {
    var o := r.own[g];
    forall k | 0 <= k < ENTRIES ensures (g, k) in stale + {(t, i)} || EntryOk(r', g, o.root, o.level, o.prefix, k) {
      assert (g, k) in stale || EntryOk(r, g, o.root, o.level, o.prefix, k);
    }
  }

  /** An entry that is right again need not be stale. */
  lemma Fresh(r: Ram, stale: set<(nat, nat)>, t: nat, i: nat)
    requires Inv(r, stale) && t < |r.mem| && r.own[t].Node? && IsTable(r, t) && i < ENTRIES
    requires EntryOk(r, t, r.own[t].root, r.own[t].level, r.own[t].prefix, i)
    ensures Inv(r, stale - {(t, i)})
  {
    var stale' := stale - {(t, i)};
    forall g | 0 <= g < |r.mem| ensures FrameOk(r, stale', g) {
      assert FrameOk(r, stale, g);
      if r.own[g].Node? {
        var o := r.own[g];
        forall k | 0 <= k < ENTRIES ensures (g, k) in stale' || EntryOk(r, g, o.root, o.level, o.prefix, k) {
          assert (g, k) in stale || EntryOk(r, g, o.root, o.level, o.prefix, k);
        }
      }
    }
  }

  /** A page that kalloc handed out and an entry names becomes a user page. */
  lemma LeafAdded(r: Ram, stale: set<(nat, nat)>, t: nat, i: nat, f: nat)
    requires Inv(r, stale) && t < |r.mem| && r.own[t].Node? && r.own[t].level == 0 && IsTable(r, t) && i < ENTRIES
    requires r.mem[t].ptes[i].v && r.mem[t].ptes[i].ppn == f < |r.mem| && r.own[f].Held? && r.mem[f].Bytes?
    requires |r.mem[f].data| == PGSIZE
    ensures Inv(SetRole(r, f, Leaf(r.own[t].root, r.own[t].prefix * ENTRIES + i, t)), stale)
  {
    hide EntryOk;
    var r' := SetRole(r, f, Leaf(r.own[t].root, r.own[t].prefix * ENTRIES + i, t));
    assert FrameOk(r, stale, f);
    forall g | 0 <= g < |r.mem| ensures FrameOk(r', stale, g) {
      assert FrameOk(r, stale, g);
      if r.own[g].Node? {
        RoleAdded(r, r', stale, f, g);
      }
    }
  }

  /** A zeroed page that an entry names becomes a page table. */
  lemma NodeAdded(r: Ram, stale: set<(nat, nat)>, t: nat, i: nat, f: nat)
    requires Inv(r, stale) && t < |r.mem| && r.own[t].Node? && r.own[t].level > 0 && IsTable(r, t) && i < ENTRIES
    requires r.mem[t].ptes[i] == Pte(f, true, NoPerm()) && f < |r.mem| && r.own[f].Held?
    requires r.mem[f] == Table(seq(ENTRIES, _ => NoPte()))
    ensures Inv(SetRole(r, f, Node(r.own[t].root, r.own[t].level - 1, r.own[t].prefix * ENTRIES + i, t)), stale)
  {
    hide EntryOk;
    var r' := SetRole(r, f, Node(r.own[t].root, r.own[t].level - 1, r.own[t].prefix * ENTRIES + i, t));
    assert FrameOk(r, stale, f) && FrameOk(r, stale, t);
    forall g | 0 <= g < |r.mem| ensures FrameOk(r', stale, g) {
      assert FrameOk(r, stale, g);
      if g == f {
        EmptyTable(r', f);
      } else if r.own[g].Node? {
        RoleAdded(r, r', stale, f, g);
      }
    }
  }

  lemma RootAdded(r: Ram, stale: set<(nat, nat)>, f: nat)
    requires Inv(r, stale) && f < |r.mem| && r.own[f].Held? && r.mem[f] == Table(seq(ENTRIES, _ => NoPte()))
    ensures Inv(SetRole(r, f, Node(f, 2, 0, 0)), stale)
  {
    hide EntryOk;
    var r' := SetRole(r, f, Node(f, 2, 0, 0));
    assert FrameOk(r, stale, f);
    forall g | 0 <= g < |r.mem| ensures FrameOk(r', stale, g) {
      assert FrameOk(r, stale, g);
      if g == f {
        EmptyTable(r', f);
      } else if r.own[g].Node? {
        RoleAdded(r, r', stale, f, g);
      }
    }
  }

  lemma EmptyTable(r: Ram, f: nat)
    requires Sized(r) && f < |r.mem| && r.own[f].Node? && r.mem[f] == Table(seq(ENTRIES, _ => NoPte()))
    ensures forall i :: 0 <= i < ENTRIES ==> EntryOk(r, f, r.own[f].root, r.own[f].level, r.own[f].prefix, i)
  {
  }

  lemma RoleAdded(r: Ram, r': Ram, stale: set<(nat, nat)>, f: nat, g: nat)
    requires Sized(r) && Sized(r') && r'.mem == r.mem && f < |r.mem| && r.own[f].Held? && g < |r.mem| && g != f
    requires r.own[g].Node? && NodeOk(r, stale, g)
    requires forall h :: 0 <= h < |r.mem| && h != f ==> r'.own[h] == r.own[h]
    ensures NodeOk(r', stale, g)
  {
    var o := r.own[g];
    forall k | 0 <= k < ENTRIES ensures (g, k) in stale || EntryOk(r', g, o.root, o.level, o.prefix, k) {
      assert (g, k) in stale || EntryOk(r, g, o.root, o.level, o.prefix, k);
    }
  }

  /** A user page, or a table without valid entries, is taken back; the entry that names it
      becomes stale. */
  lemma RoleDropped(r: Ram, stale: set<(nat, nat)>, f: nat)
    requires Inv(r, stale) && f < |r.mem|
    requires r.own[f].Leaf? || (r.own[f].Node? && IsTable(r, f) && forall i :: 0 <= i < ENTRIES ==> !r.mem[f].ptes[i].v)
    requires r.own[f].Node? && r.own[f].level < 2 ==> (r.own[f].up, r.own[f].prefix % ENTRIES) in stale
    ensures Inv(SetRole(r, f, Held), stale + if r.own[f].Leaf? then {(r.own[f].up, r.own[f].vpn % ENTRIES)} else {})
  {
    hide EntryOk;
    var r' := SetRole(r, f, Held);
    var stale' := stale + if r.own[f].Leaf? then {(r.own[f].up, r.own[f].vpn % ENTRIES)} else {};
    assert FrameOk(r, stale, f);
    forall g | 0 <= g < |r.mem| ensures FrameOk(r', stale', g) {
      assert FrameOk(r, stale, g);
      if g != f && r.own[g].Node? {
        DroppedEntries(r, r', stale, stale', f, g);
      }
    }
  }

  lemma DroppedEntries(r: Ram, r': Ram, stale: set<(nat, nat)>, stale': set<(nat, nat)>, f: nat, g: nat)
    requires Sized(r) && Sized(r') && r'.mem == r.mem && f < |r.mem| && g < |r.mem| && g != f && r.own[g].Node?
    requires NodeOk(r, stale, g)
    requires stale <= stale'
    requires (r.own[f].Node? && r.own[f].level < 2 ==> (r.own[f].up, r.own[f].prefix % ENTRIES) in stale')
    requires r.own[f].Leaf? ==> (r.own[f].up, r.own[f].vpn % ENTRIES) in stale'
    requires r.own[f].Node? || r.own[f].Leaf?
    requires forall h :: 0 <= h < |r.mem| && h != f ==> r'.own[h] == r.own[h]
    ensures forall k :: 0 <= k < ENTRIES ==>
              (g, k) in stale' || EntryOk(r', g, r.own[g].root, r.own[g].level, r.own[g].prefix, k)
  {
    var o := r.own[g];
    forall k | 0 <= k < ENTRIES ensures (g, k) in stale' || EntryOk(r', g, o.root, o.level, o.prefix, k) {
      assert (g, k) in stale || EntryOk(r, g, o.root, o.level, o.prefix, k);
      assert (o.prefix * ENTRIES + k) % ENTRIES == k;
    }
  }
}
