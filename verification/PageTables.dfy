/**
 The Sv39 tree as a flat map (section 4.4 of the RISC-V Privileged Architecture, version
 1.12): looking pages up, and what setting one entry changes.
 */
module PageTables {
  import opened Frames

  /** Page numbers are below this: three 9-bit indices. MAXVA allows half of them. */
  const PAGES := 0x800_0000
  const MAXVPN := 0x400_0000

  /** How many pages one entry of a table at this level covers. */
  function Span(level: nat): (n: nat)
    ensures n > 0
  {
    if level == 0 then 1 else if level == 1 then 512 else 0x4_0000
  }

  /** PX(level, va), of the page number. */
  function Index(level: nat, vpn: nat): (i: nat)
    ensures i < ENTRIES
  {
    (vpn / Span(level)) % ENTRIES
  }

  /** The three indices determine the page: distinct pages have distinct entries. */
  lemma IndexInjective(a: nat, b: nat)
    requires a < PAGES && b < PAGES && forall level :: 0 <= level <= 2 ==> Index(level, a) == Index(level, b)
    ensures a == b
  {
    assert Index(0, a) == Index(0, b) && Index(1, a) == Index(1, b) && Index(2, a) == Index(2, b);
    Digits(a);
    Digits(b);
  }

  /** The indices are the page number's digits, the highest at the top of the tree. */
  lemma Digits(a: nat)
    requires a < PAGES
    ensures a == Index(2, a) * 0x4_0000 + Index(1, a) * 512 + Index(0, a)
  {
    assert a / 0x4_0000 == a / 512 / 512;
    assert a == a / 512 * 512 + a % 512;
    assert a / 512 == a / 512 / 512 * 512 + a / 512 % 512;
  }

  /** The 64-bit form of an entry: the frame number above ten bits of flags, V lowest. */
  function Bits(e: Pte): (b: nat) {
    Push(e.v, Push(e.perm.r, Push(e.perm.w, Push(e.perm.x, Push(e.perm.u, e.ppn * 32)))))
  }

  function Push(bit: bool, n: nat): (b: nat) {
    2 * n + if bit then 1 else 0
  }

  /** V, R, W, X and U are bits 0 to 4, and the frame number begins at bit 10. */
  lemma BitsAre(e: Pte)
    ensures Bits(e) == e.ppn * 1024 + (if e.v then 1 else 0) + (if e.perm.r then 2 else 0)
                       + (if e.perm.w then 4 else 0) + (if e.perm.x then 8 else 0) + (if e.perm.u then 16 else 0)
  {
  }

  /** PTE2PA and the flag tests, on the 64-bit form. */
  function FromBits(b: nat): (e: Pte) {
    Pte(b / 2 / 2 / 2 / 2 / 2 / 32, b % 2 == 1,
        Perm(b / 2 % 2 == 1, b / 2 / 2 % 2 == 1, b / 2 / 2 / 2 % 2 == 1, b / 2 / 2 / 2 / 2 % 2 == 1))
  }

  lemma PushPop(bit: bool, n: nat)
    ensures Push(bit, n) / 2 == n && (Push(bit, n) % 2 == 1 <==> bit)
  {
  }

  lemma BitsRoundTrip(e: Pte)
    ensures FromBits(Bits(e)) == e
  {
    hide Push;
    var n4 := Push(e.perm.u, e.ppn * 32);
    var n3 := Push(e.perm.x, n4);
    var n2 := Push(e.perm.w, n3);
    var n1 := Push(e.perm.r, n2);
    PushPop(e.perm.u, e.ppn * 32);
    PushPop(e.perm.x, n4);
    PushPop(e.perm.w, n3);
    PushPop(e.perm.r, n2);
    PushPop(e.v, n1);
  }

  /** The prefix of a node at this level on the way to vpn. */
  ghost function Prefix(level: nat, vpn: nat): (n: nat) {
    if level == 0 then vpn / 512 else if level == 1 then vpn / 0x4_0000 else 0
  }

  lemma PrefixDown(level: nat, vpn: nat)
    requires 0 < level <= 2 && vpn < PAGES
    ensures Prefix(level - 1, vpn) == Prefix(level, vpn) * ENTRIES + Index(level, vpn)
  {
    assert vpn / 0x4_0000 == vpn / 512 / 512;
  }

  lemma PrefixUp(level: nat, vpn: nat)
    requires level < 2 && vpn < PAGES
    ensures Prefix(level, vpn) / ENTRIES == Prefix(level + 1, vpn)
    ensures Prefix(level, vpn) % ENTRIES == Index(level + 1, vpn)
  {
    assert vpn / 0x4_0000 == vpn / 512 / 512;
  }

  // -------------------------------------------------------------------- looking up

  /** The entry for vpn, from the table f at this level down; NoPte if there is none. */
  ghost function LookupFrom(mem: seq<Page>, f: nat, level: nat, vpn: nat): (e: Pte)
    decreases level
  {
    if f >= |mem| || !mem[f].Table? || |mem[f].ptes| != ENTRIES then NoPte()
    else
      var e := mem[f].ptes[Index(level, vpn)];
      if level == 0 then e else if !e.v then NoPte() else LookupFrom(mem, e.ppn, level - 1, vpn)
  }

  ghost function Lookup(mem: seq<Page>, root: nat, vpn: nat): (e: Pte) {
    LookupFrom(mem, root, 2, vpn)
  }

  /** The last-level table that holds the entry for vpn; -1 if there is none. */
  ghost function Find(mem: seq<Page>, f: nat, level: nat, vpn: nat): (t: int)
    ensures t == -1 || 0 <= t < |mem|
    decreases level
  {
    if f >= |mem| || !mem[f].Table? || |mem[f].ptes| != ENTRIES then -1
    else if level == 0 then f
    else
      var e := mem[f].ptes[Index(level, vpn)];
      if !e.v then -1 else Find(mem, e.ppn, level - 1, vpn)
  }

  lemma {:induction false} LookupFound(mem: seq<Page>, f: nat, level: nat, vpn: nat)
    ensures var t := Find(mem, f, level, vpn);
            && (t == -1 ==> LookupFrom(mem, f, level, vpn) == NoPte())
            && (t != -1 ==>
                && mem[t].Table? && |mem[t].ptes| == ENTRIES
                && LookupFrom(mem, f, level, vpn) == mem[t].ptes[Index(0, vpn)])
    decreases level
  {
    if f < |mem| && mem[f].Table? && |mem[f].ptes| == ENTRIES && level > 0 {
      LookupFound(mem, mem[f].ptes[Index(level, vpn)].ppn, level - 1, vpn);
    }
  }

  /** f is a node on the way to vpn. */
  ghost predicate OnWay(r: Ram, f: nat, level: nat, vpn: nat) {
    Sized(r) && f < |r.mem| && r.own[f].Node? && r.own[f].level == level && r.own[f].prefix == Prefix(level, vpn)
  }

  ghost predicate IsRoot(r: Ram, root: nat) {
    Sized(r) && root < |r.mem| && r.own[root].Node? && r.own[root].level == 2
  }

  lemma RootOnWay(r: Ram, root: nat, vpn: nat)
    requires Inv(r, {}) && IsRoot(r, root)
    ensures OnWay(r, root, 2, vpn) && r.own[root].root == root
  {
    assert FrameOk(r, {}, root);
  }

  /** One level down. */
  lemma Down(r: Ram, f: nat, level: nat, vpn: nat)
    requires Inv(r, {}) && 0 < level <= 2 && OnWay(r, f, level, vpn) && vpn < PAGES
    ensures IsTable(r, f) && var e := r.mem[f].ptes[Index(level, vpn)];
            e.v ==> OnWay(r, e.ppn, level - 1, vpn) && r.own[e.ppn].root == r.own[f].root && r.own[e.ppn].up == f
  {
    assert FrameOk(r, {}, f);
    var o := r.own[f];
    assert EntryOk(r, f, o.root, o.level, o.prefix, Index(level, vpn));
    PrefixDown(level, vpn);
  }

  /** The table that Find finds is the node for vpn. */
  lemma {:induction false} FindNode(r: Ram, f: nat, level: nat, vpn: nat)
    requires Inv(r, {}) && level <= 2 && OnWay(r, f, level, vpn) && vpn < PAGES
    ensures var t := Find(r.mem, f, level, vpn);
            t != -1 ==> OnWay(r, t, 0, vpn) && r.own[t].root == r.own[f].root && IsTable(r, t)
    decreases level
  {
    hide Inv, Index;
    if level > 0 {
      Down(r, f, level, vpn);
      var e := r.mem[f].ptes[Index(level, vpn)];
      if e.v {
        FindNode(r, e.ppn, level - 1, vpn);
      }
    } else {
      TableOf(r, f);
    }
  }

  /** Every node on the way to vpn is where a walk from the root passes. */
  lemma {:induction false} FindVia(r: Ram, f: nat, level: nat, vpn: nat)
    requires Inv(r, {}) && level <= 2 && OnWay(r, f, level, vpn) && vpn < PAGES
    ensures Find(r.mem, r.own[f].root, 2, vpn) == Find(r.mem, f, level, vpn)
    decreases 2 - level
  {
    hide Index;
    assert FrameOk(r, {}, f);
    if level < 2 {
      var up := r.own[f].up;
      PrefixUp(level, vpn);
      assert OnWay(r, up, level + 1, vpn);
      assert r.mem[up].ptes[Index(level + 1, vpn)] == Pte(f, true, NoPerm());
      hide Inv;
      FindVia(r, up, level + 1, vpn);
    }
  }

  lemma TableOf(r: Ram, f: nat)
    requires Inv(r, {}) && f < |r.mem| && r.own[f].Node?
    ensures IsTable(r, f)
  {
    assert FrameOk(r, {}, f);
  }

  /** What lookups depend on: the upper tables, and that the last ones stay tables. */
  ghost predicate SameUpper(r: Ram, mem': seq<Page>) {
    && Sized(r) && |mem'| == |r.mem|
    && forall g :: 0 <= g < |r.mem| && r.own[g].Node? ==>
         if r.own[g].level > 0 then mem'[g] == r.mem[g] else mem'[g].Table? && |mem'[g].ptes| == ENTRIES
  }

  lemma {:induction false} FindSame(r: Ram, mem': seq<Page>, f: nat, level: nat, vpn: nat)
    requires Inv(r, {}) && level <= 2 && OnWay(r, f, level, vpn) && vpn < PAGES && SameUpper(r, mem')
    ensures Find(mem', f, level, vpn) == Find(r.mem, f, level, vpn)
    decreases level
  {
    hide Inv, Index;
    TableOf(r, f);
    if level > 0 {
      Down(r, f, level, vpn);
      var e := r.mem[f].ptes[Index(level, vpn)];
      if e.v {
        FindSame(r, mem', e.ppn, level - 1, vpn);
      }
    }
  }

  /** A change off the tree changes no translation. */
  lemma OffTreeLookup(r: Ram, r': Ram, f: nat, q: nat, v: nat)
    requires Inv(r, {}) && OffTree(r, r', f) && IsRoot(r, q) && v < PAGES
    ensures Lookup(r'.mem, q, v) == Lookup(r.mem, q, v) && Find(r'.mem, q, 2, v) == Find(r.mem, q, 2, v)
  {
    hide Index;
    RootOnWay(r, q, v);
    forall g | 0 <= g < |r.mem| && r.own[g].Node? ensures IsTable(r, g) && r'.mem[g] == r.mem[g] {
      TableOf(r, g);
    }
    hide Inv;
    FindSame(r, r'.mem, q, 2, v);
    FindNode(r, q, 2, v);
    LookupFound(r.mem, q, 2, v);
    LookupFound(r'.mem, q, 2, v);
  }

  /** The tables are the same but for entry i of t. */
  ghost predicate TablesBut(r: Ram, mem': seq<Page>, t: nat, i: nat, e: Pte)
    requires Sized(r) && IsTable(r, t) && i < ENTRIES
  {
    && |mem'| == |r.mem|
    && forall g :: 0 <= g < |r.mem| && r.own[g].Node? ==>
        mem'[g] == if g == t then Table(r.mem[t].ptes[i := e]) else r.mem[g]
  }

  /** Setting an entry of a last-level table changes exactly one translation. */
  lemma SetLookup(r: Ram, mem': seq<Page>, t: nat, vpn: nat, e: Pte, q: nat, v: nat)
    requires Inv(r, {}) && vpn < PAGES && OnWay(r, t, 0, vpn) && IsTable(r, t) && IsRoot(r, q) && v < PAGES
    requires TablesBut(r, mem', t, Index(0, vpn), e)
    ensures Lookup(mem', q, v) == if q == r.own[t].root && v == vpn then e else Lookup(r.mem, q, v)
  {
    hide Inv;
    RootOnWay(r, q, v);
    forall g | 0 <= g < |r.mem| && r.own[g].Node? ensures IsTable(r, g) {
      TableOf(r, g);
    }
    FindSame(r, mem', q, 2, v);
    FindNode(r, q, 2, v);
    FindVia(r, t, 0, vpn);
    LookupFound(r.mem, q, 2, v);
    LookupFound(mem', q, 2, v);
  }

  ghost function ZeroTable(): (p: Page) {
    Table(seq(ENTRIES, _ => NoPte()))
  }

  /** An empty table hung into an invalid entry of an upper table changes no translation. */
  lemma {:induction false} AttachLookup(r: Ram, t: nat, i: nat, f: nat, g: nat, level: nat, v: nat)
    requires Inv(r, {}) && t < |r.mem| && r.own[t].Node? && r.own[t].level > 0 && IsTable(r, t) && i < ENTRIES
    requires !r.mem[t].ptes[i].v
    requires f < |r.mem| && r.own[f].Held? && r.mem[f] == ZeroTable() && level <= 2 && OnWay(r, g, level, v)
    requires v < PAGES
    ensures LookupFrom(SetEntry(r, t, i, Pte(f, true, NoPerm())).mem, g, level, v) == LookupFrom(r.mem, g, level, v)
    decreases level
  {
    hide Inv, Index;
    var mem' := SetEntry(r, t, i, Pte(f, true, NoPerm())).mem;
    TableOf(r, g);
    if level > 0 {
      Down(r, g, level, v);
      var e := r.mem[g].ptes[Index(level, v)];
      if e.v {
        AttachLookup(r, t, i, f, e.ppn, level - 1, v);
      } else if g == t && Index(level, v) == i {
        ZeroLookup(mem', f, level - 1, v);
      }
    }
  }

  lemma ZeroLookup(mem: seq<Page>, f: nat, level: nat, v: nat)
    requires f < |mem| && mem[f] == ZeroTable()
    ensures LookupFrom(mem, f, level, v) == NoPte()
  {
    hide Index;
  }

  // ---------------------------------------------------- what operations leave alone

  /** Frames that an operation on pages lo to hi of a tree may use: free ones and its pages. */
  ghost predicate InPlay(o: Role, root: nat, lo: nat, hi: nat) {
    o.Free? || (o.Leaf? && o.root == root && lo <= o.vpn < hi)
  }

  /** Frame g keeps its role and, unless it is a table, its contents; or it was in play and
      is in play still or has become a table of this tree. */
  ghost predicate Keeps(r: Ram, r': Ram, root: nat, lo: nat, hi: nat, g: nat)
    requires g < |r.mem| == |r.own| == |r'.mem| == |r'.own|
  {
    || (r'.own[g] == r.own[g] && (r.own[g].Node? || r'.mem[g] == r.mem[g]))
    || (InPlay(r.own[g], root, lo, hi)
        && (InPlay(r'.own[g], root, lo, hi) || (r'.own[g].Node? && r'.own[g].root == root)))
  }

  ghost predicate Touches(r: Ram, r': Ram, root: nat, lo: nat, hi: nat) {
    && Sized(r) && Sized(r') && |r'.mem| == |r.mem| && r'.lo == r.lo
    && forall g :: 0 <= g < |r.mem| ==> Keeps(r, r', root, lo, hi, g)
  }

  /** Every translation of every tree is the same, except pages lo to hi under root. */
  ghost predicate SameElse(r: Ram, r': Ram, root: nat, lo: nat, hi: nat) {
    forall q, v :: IsRoot(r, q) && 0 <= v < PAGES && !(q == root && lo <= v < hi) ==>
        Lookup(r'.mem, q, v) == Lookup(r.mem, q, v)
  }

  lemma TouchesRefl(r: Ram, root: nat, lo: nat, hi: nat)
    requires Sized(r)
    ensures Touches(r, r, root, lo, hi) && SameElse(r, r, root, lo, hi)
  {
  }

  lemma TouchesRoot(r: Ram, r': Ram, root: nat, lo: nat, hi: nat, q: nat)
    requires Touches(r, r', root, lo, hi) && IsRoot(r, q)
    ensures IsRoot(r', q) && r'.own[q] == r.own[q]
  {
    assert Keeps(r, r', root, lo, hi, q);
  }

  lemma TouchesTrans(r: Ram, r1: Ram, r2: Ram, root: nat, lo: nat, hi: nat)
    requires Touches(r, r1, root, lo, hi) && Touches(r1, r2, root, lo, hi)
    ensures Touches(r, r2, root, lo, hi)
  {
    forall g | 0 <= g < |r.mem| ensures Keeps(r, r2, root, lo, hi, g) {
      assert Keeps(r, r1, root, lo, hi, g) && Keeps(r1, r2, root, lo, hi, g);
    }
  }

  lemma TouchesWider(r: Ram, r': Ram, root: nat, lo: nat, hi: nat, lo': nat, hi': nat)
    requires Touches(r, r', root, lo, hi) && (hi <= lo || (lo' <= lo && hi <= hi'))
    ensures Touches(r, r', root, lo', hi')
  {
    forall g | 0 <= g < |r.mem| ensures Keeps(r, r', root, lo', hi', g) {
      assert Keeps(r, r', root, lo, hi, g);
    }
  }

  lemma SameTrans(r: Ram, r1: Ram, r2: Ram, root: nat, lo: nat, hi: nat)
    requires SameElse(r, r1, root, lo, hi) && SameElse(r1, r2, root, lo, hi)
    requires forall q :: IsRoot(r, q) ==> IsRoot(r1, q)
    ensures SameElse(r, r2, root, lo, hi)
  {
    hide Lookup;
  }

  lemma SameWider(r: Ram, r': Ram, root: nat, lo: nat, hi: nat, lo': nat, hi': nat)
    requires SameElse(r, r', root, lo, hi) && (hi <= lo || (lo' <= lo && hi <= hi'))
    ensures SameElse(r, r', root, lo', hi')
  {
    hide Lookup;
  }

  lemma TouchesRoots(r: Ram, r': Ram, root: nat, lo: nat, hi: nat)
    requires Touches(r, r', root, lo, hi)
    ensures forall q :: IsRoot(r, q) ==> IsRoot(r', q)
  {
    forall q | IsRoot(r, q) ensures IsRoot(r', q) {
      TouchesRoot(r, r', root, lo, hi, q);
    }
  }

  /** Two operations on the same pages, one after the other. */
  lemma Then(r: Ram, r1: Ram, r2: Ram, root: nat, lo: nat, hi: nat)
    requires Touches(r, r1, root, lo, hi) && Touches(r1, r2, root, lo, hi) && SameElse(r, r1, root, lo, hi)
    requires SameElse(r1, r2, root, lo, hi)
    ensures Touches(r, r2, root, lo, hi) && SameElse(r, r2, root, lo, hi)
  {
    hide Touches, SameElse, IsRoot;
    TouchesTrans(r, r1, r2, root, lo, hi);
    TouchesRoots(r, r1, root, lo, hi);
    SameTrans(r, r1, r2, root, lo, hi);
  }

  lemma Wider(r: Ram, r': Ram, root: nat, lo: nat, hi: nat, lo': nat, hi': nat)
    requires Touches(r, r', root, lo, hi) && SameElse(r, r', root, lo, hi) && (hi <= lo || (lo' <= lo && hi <= hi'))
    ensures Touches(r, r', root, lo', hi') && SameElse(r, r', root, lo', hi')
  {
    hide Touches, SameElse;
    TouchesWider(r, r', root, lo, hi, lo', hi');
    SameWider(r, r', root, lo, hi, lo', hi');
  }
}
