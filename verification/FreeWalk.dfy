/** freewalk: giving back the tables of a tree without leaves. */
module FreeWalk {
  import opened Frames
  import opened PageTables
  import opened Vm

  /** No leaf can be reached from the table f. */
  ghost predicate Bare(mem: seq<Page>, f: nat, level: nat)
    decreases level
  {
    && f < |mem| && mem[f].Table? && |mem[f].ptes| == ENTRIES
    && forall i :: 0 <= i < ENTRIES && mem[f].ptes[i].v ==> level > 0 && Bare(mem, mem[f].ptes[i].ppn, level - 1)
  }

  /** The prefix, at this level, of the nodes above a node. */
  ghost function Anc(o: Role, level: nat): (n: nat)
    requires o.Node?
  {
    if level <= o.level then o.prefix else if level == o.level + 1 then o.prefix / ENTRIES
    else o.prefix / ENTRIES / ENTRIES
  }

  /** A node of the tree, at this level or below, under one of the prefixes lo to hi. */
  ghost predicate Under(o: Role, root: nat, level: nat, lo: nat, hi: nat) {
    o.Node? && o.root == root && o.level <= level && lo <= Anc(o, level) < hi
  }

  /** These nodes are free now; every other frame, but for f's contents, is what it was. */
  ghost predicate Freed(r: Ram, r': Ram, root: nat, level: nat, lo: nat, hi: nat, f: nat) {
    && Sized(r) && Sized(r') && |r'.mem| == |r.mem| && r'.lo == r.lo
    && forall g :: 0 <= g < |r.mem| ==> Gone(r, r', root, level, lo, hi, f, g)
  }

  ghost predicate Gone(r: Ram, r': Ram, root: nat, level: nat, lo: nat, hi: nat, f: nat, g: nat)
    requires g < |r.mem| == |r.own| == |r'.mem| == |r'.own|
  {
    if Under(r.own[g], root, level, lo, hi) then r'.own[g].Free?
    else r'.own[g] == r.own[g] && (g == f || r'.mem[g] == r.mem[g])
  }

  /** Stale entries belong to nodes above this level. */
  ghost predicate StaleAbove(r: Ram, stale: set<(nat, nat)>, level: nat) {
    forall s :: s in stale ==> s.0 < |r.own| && r.own[s.0].Node? && r.own[s.0].level > level
  }

  lemma FreedThen(r: Ram, r1: Ram, r2: Ram, root: nat, level: nat, lo: nat, mid: nat, hi: nat, f: nat)
    requires Freed(r, r1, root, level, lo, mid, f) && Freed(r1, r2, root, level, mid, hi, f) && lo <= mid <= hi
    ensures Freed(r, r2, root, level, lo, hi, f)
  {
    forall g | 0 <= g < |r.mem| ensures Gone(r, r2, root, level, lo, hi, f, g) {
      assert Gone(r, r1, root, level, lo, mid, f, g) && Gone(r1, r2, root, level, mid, hi, f, g);
    }
  }

  /** A node is determined by its tree, level and prefix. */
  lemma {:induction false} OneNode(r: Ram, stale: set<(nat, nat)>, a: nat, b: nat)
    requires Inv(r, stale) && a < |r.mem| && b < |r.mem| && r.own[a].Node? && r.own[b].Node?
    requires r.own[a].root == r.own[b].root && r.own[a].level == r.own[b].level && r.own[a].prefix == r.own[b].prefix
    ensures a == b
    decreases if r.own[a].level <= 2 then 2 - r.own[a].level else 0
  {
    assert FrameOk(r, stale, a) && FrameOk(r, stale, b);
    if r.own[a].level < 2 {
      hide EntryOk;
      OneNode(r, stale, r.own[a].up, r.own[b].up);
    }
  }

  /** The node above g at a level. */
  lemma AncNode(r: Ram, stale: set<(nat, nat)>, g: nat, level: nat) returns (h: nat)
    requires Inv(r, stale) && g < |r.mem| && r.own[g].Node? && r.own[g].level <= level <= 2
    ensures h < |r.mem| && r.own[h].Node? && r.own[h].root == r.own[g].root && r.own[h].level == level
    ensures r.own[h].prefix == Anc(r.own[g], level)
    decreases level - r.own[g].level
  {
    hide EntryOk;
    assert FrameOk(r, stale, g);
    if r.own[g].level == level {
      h := g;
    } else {
      h := AncNode(r, stale, r.own[g].up, level);
    }
  }

  /** Below an invalid entry there is no node. */
  lemma NothingBelow(r: Ram, stale: set<(nat, nat)>, f: nat, i: nat)
    requires Inv(r, stale) && f < |r.mem| && r.own[f].Node? && 0 < r.own[f].level <= 2 && IsTable(r, f) && i < ENTRIES
    requires !r.mem[f].ptes[i].v
    ensures var o := r.own[f]; var c := o.prefix * ENTRIES + i; Freed(r, r, o.root, o.level - 1, c, c + 1, f)
  {
    hide EntryOk;
    var o := r.own[f];
    var c := o.prefix * ENTRIES + i;
    forall g | 0 <= g < |r.mem| ensures !Under(r.own[g], o.root, o.level - 1, c, c + 1) {
      if Under(r.own[g], o.root, o.level - 1, c, c + 1) {
        var h := AncNode(r, stale, g, o.level - 1);
        assert FrameOk(r, stale, h);
        OneNode(r, stale, r.own[h].up, f);
      }
    }
  }

  /** Freeing other subtrees leaves a bare table bare. */
  lemma {:induction false} BareKept(r: Ram, stale: set<(nat, nat)>, mem': seq<Page>, f: nat, level: nat)
    requires Inv(r, stale) && StaleAbove(r, stale, level) && f < |r.mem| == |mem'| && r.own[f].Node?
    requires r.own[f].level == level <= 2 && Bare(r.mem, f, level)
    requires forall g ::
               0 <= g < |r.mem| && Under(r.own[g], r.own[f].root, level, r.own[f].prefix, r.own[f].prefix + 1) ==>
                 mem'[g] == r.mem[g]
    ensures Bare(mem', f, level)
    decreases level
  {
    var o := r.own[f];
    assert Under(o, o.root, level, o.prefix, o.prefix + 1);
    assert FrameOk(r, stale, f);
    forall i | 0 <= i < ENTRIES && mem'[f].ptes[i].v ensures level > 0 && Bare(mem', mem'[f].ptes[i].ppn, level - 1) {
      assert (f, i) !in stale;
      assert EntryOk(r, f, o.root, o.level, o.prefix, i);
      var h := r.mem[f].ptes[i].ppn;
      forall g | 0 <= g < |r.mem| && Under(r.own[g], r.own[h].root, level - 1, r.own[h].prefix, r.own[h].prefix + 1)
        ensures mem'[g] == r.mem[g]
      {
        UnderUp(r.own[g], o.root, level, o.prefix, i);
      }
      BareKept(r, stale, mem', h, level - 1);
    }
  }

  lemma UnderUp(o: Role, root: nat, level: nat, prefix: nat, i: nat)
    requires 0 < level <= 2 && i < ENTRIES && Under(o, root, level - 1, prefix * ENTRIES + i, prefix * ENTRIES + i + 1)
    ensures Under(o, root, level, prefix, prefix + 1)
  {
    assert (prefix * ENTRIES + i) / ENTRIES == prefix;
  }

  lemma UnderSplit(o: Role, root: nat, level: nat, prefix: nat)
    requires 0 < level <= 2
    ensures Under(o, root, level, prefix, prefix + 1) <==>
              (o.Node? && o.root == root && o.level == level && o.prefix == prefix)
              || Under(o, root, level - 1, prefix * ENTRIES, prefix * ENTRIES + ENTRIES)
  {
  }

  /** The table itself follows its subtrees. */
  lemma FreedWhole(r: Ram, r1: Ram, r2: Ram, stale: set<(nat, nat)>, f: nat)
    requires Inv(r, stale) && f < |r.mem| && r.own[f].Node? && r.own[f].level <= 2
    requires var o := r.own[f];
             if o.level == 0 then r1 == r
             else Freed(r, r1, o.root, o.level - 1, o.prefix * ENTRIES, o.prefix * ENTRIES + ENTRIES, f)
    requires OffTree(SetRole(r1, f, Held), r2, f) && r2.own[f].Free? && r1.own[f] == r.own[f]
    ensures Freed(r, r2, r.own[f].root, r.own[f].level, r.own[f].prefix, r.own[f].prefix + 1, |r.mem|)
  {
    hide FrameOk;
    var o, n := r.own[f], |r.mem|;
    var hi := o.prefix + 1;
    forall g | 0 <= g < |r.mem| ensures Gone(r, r2, o.root, o.level, o.prefix, hi, n, g) {
      if r.own[g].Node? && r.own[g].root == o.root && r.own[g].level == o.level && r.own[g].prefix == o.prefix {
        OneNode(r, stale, f, g);
      }
      if o.level > 0 {
        UnderSplit(r.own[g], o.root, o.level, o.prefix);
        assert Gone(r, r1, o.root, o.level - 1, o.prefix * ENTRIES, o.prefix * ENTRIES + ENTRIES, f, g);
      }
    }
  }

  lemma StaleKept(r: Ram, r': Ram, stale: set<(nat, nat)>, root: nat, level: nat, lo: nat, hi: nat, f: nat, above: nat)
    requires Freed(r, r', root, level, lo, hi, f) && StaleAbove(r, stale, above) && level <= above
    ensures StaleAbove(r', stale, above)
  {
    forall s | s in stale ensures s.0 < |r'.own| && r'.own[s.0].Node? && r'.own[s.0].level > above {
      assert Gone(r, r', root, level, lo, hi, f, s.0);
    }
  }

  /** The tables below the entries of f that are still to come are bare. */
  ghost predicate BareFrom(mem: seq<Page>, f: nat, level: nat, i: nat) {
    && f < |mem| && mem[f].Table? && |mem[f].ptes| == ENTRIES
    && forall j :: i <= j < ENTRIES && mem[f].ptes[j].v ==> level > 0 && Bare(mem, mem[f].ptes[j].ppn, level - 1)
  }

  lemma BareRest(r: Ram, r': Ram, stale: set<(nat, nat)>, f: nat, i: nat)
    requires Inv(r, stale) && f < |r.mem| && r.own[f].Node? && 0 < r.own[f].level <= 2
    requires StaleAbove(r, stale, r.own[f].level) && i < ENTRIES
    requires BareFrom(r.mem, f, r.own[f].level, i) && IsTable(r, f) && |r'.mem| == |r.mem|
    requires r'.mem[f] == Table(r.mem[f].ptes[i := NoPte()])
    requires var o := r.own[f]; var c := o.prefix * ENTRIES + i; Freed(r, r', o.root, o.level - 1, c, c + 1, f)
    ensures BareFrom(r'.mem, f, r.own[f].level, i + 1)
  {
    var o := r.own[f];
    var c := o.prefix * ENTRIES + i;
    assert FrameOk(r, stale, f);
    forall j | i + 1 <= j < ENTRIES && r'.mem[f].ptes[j].v ensures Bare(r'.mem, r'.mem[f].ptes[j].ppn, o.level - 1) {
      assert r'.mem[f].ptes[j] == r.mem[f].ptes[j];
      assert (f, j) !in stale;
      assert EntryOk(r, f, o.root, o.level, o.prefix, j);
      var h := r.mem[f].ptes[j].ppn;
      forall g | 0 <= g < |r.mem| && Under(r.own[g], r.own[h].root, o.level - 1, r.own[h].prefix, r.own[h].prefix + 1)
        ensures r'.mem[g] == r.mem[g]
      {
        assert Gone(r, r', o.root, o.level - 1, c, c + 1, f, g);
      }
      hide EntryOk, FrameOk, Gone;
      BareKept(r, stale, r'.mem, h, o.level - 1);
    }
  }

  /** The entry freewalk is at can be relied on. */
  lemma EntryOf(r: Ram, stale: set<(nat, nat)>, f: nat, i: nat, level: nat)
    requires Inv(r, stale) && f < |r.mem| && r.own[f].Node? && r.own[f].level == level <= 2 && i < ENTRIES
    requires StaleAbove(r, stale, level)
    ensures IsTable(r, f) && (f, i) !in stale && var e := r.mem[f].ptes[i];
            && (!e.v ==> e == NoPte())
            && (e.v && level > 0 ==>
                && !Leafy(e.perm) && e.ppn < |r.mem|
                && r.own[e.ppn] == Node(r.own[f].root, level - 1, r.own[f].prefix * ENTRIES + i, f))
  {
    assert FrameOk(r, stale, f);
    assert (f, i) !in stale;
    assert EntryOk(r, f, r.own[f].root, level, r.own[f].prefix, i);
  }

  lemma MoreStale(r: Ram, stale: set<(nat, nat)>, f: nat, i: nat, level: nat)
    requires Inv(r, stale) && f < |r.mem| && r.own[f].Node? && r.own[f].level == level && level > 0
    requires StaleAbove(r, stale, level)
    ensures Inv(r, stale + {(f, i)}) && StaleAbove(r, stale + {(f, i)}, level - 1)
  {
    hide EntryOk;
    forall g | 0 <= g < |r.mem| ensures FrameOk(r, stale + {(f, i)}, g) {
      assert FrameOk(r, stale, g);
    }
  }

  lemma ChildFreed(r: Ram, r': Ram, f: nat, root: nat, level: nat, c: nat)
    requires Freed(r, r', root, level, c, c + 1, |r.mem|) && f < |r.mem| && r.own[f].Node? && r.own[f].level > level
    ensures Freed(r, r', root, level, c, c + 1, f) && r'.own[f] == r.own[f] && r'.mem[f] == r.mem[f]
    ensures |r'.mem| == |r.mem|
    ensures forall g ::
              && 0 <= g < |r.mem| && r.own[g].Node? && r.own[g].root == root && r.own[g].level == level
              && r.own[g].prefix == c
              ==> r'.own[g].Free?
  {
    var hi := c + 1;
    forall g | 0 <= g < |r.mem| ensures Gone(r, r', root, level, c, hi, f, g) {
      assert Gone(r, r', root, level, c, c + 1, |r.mem|, g);
    }
    assert Gone(r, r', root, level, c, c + 1, |r.mem|, f);
    forall g | 0 <= g < |r.mem| && r.own[g].Node? && r.own[g].root == root && r.own[g].level == level
               && r.own[g].prefix == c
      ensures r'.own[g].Free?
    {
      assert Gone(r, r', root, level, c, c + 1, |r.mem|, g);
    }
  }

  lemma EntryCleared(r0: Ram, r1: Ram, stale: set<(nat, nat)>, f: nat, i: nat, root: nat, level: nat, c: nat)
    requires Inv(r1, stale + {(f, i)}) && f < |r1.mem| && r1.own[f].Node? && IsTable(r1, f) && i < ENTRIES
    requires (f, i) !in stale
    requires r1.mem[f].ptes[i].ppn < |r1.mem| && r1.own[r1.mem[f].ptes[i].ppn].Free?
    requires Freed(r0, r1, root, level, c, c + 1, f)
    ensures Inv(SetEntry(r1, f, i, NoPte()), stale) && Freed(r0, SetEntry(r1, f, i, NoPte()), root, level, c, c + 1, f)
  {
    var stale' := stale + {(f, i)};
    var r2 := SetEntry(r1, f, i, NoPte());
    var hi := c + 1;
    forall g | 0 <= g < |r0.mem| ensures Gone(r0, r2, root, level, c, hi, f, g) {
      assert Gone(r0, r1, root, level, c, c + 1, f, g);
    }
    hide Inv, Freed, Gone;
    SetEntryInv(r1, stale', f, i, NoPte());
    assert stale' + {(f, i)} == stale';
    Fresh(r2, stale', f, i);
    assert stale' - {(f, i)} == stale;
  }

  lemma FreedNone(r: Ram, stale: set<(nat, nat)>, f: nat, level: nat)
    requires Inv(r, stale) && f < |r.mem| && r.own[f].Node? && r.own[f].level == level <= 2 && Bare(r.mem, f, level)
    ensures BareFrom(r.mem, f, level, 0)
    ensures level > 0 ==> var first := r.own[f].prefix * ENTRIES; Freed(r, r, r.own[f].root, level - 1, first, first, f)
  {
    hide FrameOk;
  }

  /** What freewalk does for entry i of the table f: free the table it leads to, clear it. */
  method FreeEntry(k: Kernel, f: nat, i: nat, ghost level: nat, ghost stale: set<(nat, nat)>)
    requires Inv(k.ram, stale) && f < |k.ram.mem| && k.ram.own[f].Node? && k.ram.own[f].level == level <= 2
    requires i < ENTRIES
    requires StaleAbove(k.ram, stale, level) && BareFrom(k.ram.mem, f, level, i)
    modifies k
    ensures Inv(k.ram, stale) && |k.ram.mem| == |old(k.ram).mem| && k.ram.own[f] == old(k.ram).own[f]
    ensures StaleAbove(k.ram, stale, level)
    ensures level == 0 ==> k.ram == old(k.ram)
    ensures k.ram.mem[f] == Table(old(k.ram).mem[f].ptes[i := NoPte()]) && BareFrom(k.ram.mem, f, level, i + 1)
    ensures level > 0 ==>
              var o := old(k.ram).own[f]; var c := o.prefix * ENTRIES + i;
              Freed(old(k.ram), k.ram, o.root, level - 1, c, c + 1, f)
    decreases level, 0
  {
    ghost var r0, o := k.ram, k.ram.own[f];
    hide Inv, Freed, StaleAbove, Bare;
    ghost var c := o.prefix * ENTRIES + i;
    EntryOf(k.ram, stale, f, i, level);
    var e := k.ram.mem[f].ptes[i];
    if e.v && !Leafy(e.perm) {
      ghost var stale' := stale + {(f, i)};
      MoreStale(k.ram, stale, f, i, level);
      Freewalk(k, e.ppn, level - 1, stale');
      ChildFreed(r0, k.ram, f, o.root, level - 1, c);
      EntryCleared(r0, k.ram, stale, f, i, o.root, level - 1, c);
      k.ram := SetEntry(k.ram, f, i, NoPte());
    } else {
      assert r0.mem[f].ptes[i := NoPte()] == r0.mem[f].ptes;
      if level > 0 {
        NothingBelow(r0, stale, f, i);
      }
    }
    if level > 0 {
      StaleKept(r0, k.ram, stale, o.root, level - 1, c, c + 1, f, level);
      BareRest(r0, k.ram, stale, f, i);
    }
  }

  /** freewalk: every table below f, and f, is free afterwards. */
  method Freewalk(k: Kernel, f: nat, ghost level: nat, ghost stale: set<(nat, nat)>)
    requires Inv(k.ram, stale) && f < |k.ram.mem| && k.ram.own[f].Node? && k.ram.own[f].level == level <= 2
    requires StaleAbove(k.ram, stale, level) && Bare(k.ram.mem, f, level)
    requires level < 2 ==> (k.ram.own[f].up, k.ram.own[f].prefix % ENTRIES) in stale
    modifies k
    ensures Inv(k.ram, stale)
    ensures var o := old(k.ram).own[f];
            Freed(old(k.ram), k.ram, o.root, level, o.prefix, o.prefix + 1, |old(k.ram).mem|)
    decreases level, 1
  {
    ghost var r0 := k.ram;
    FreedNone(k.ram, stale, f, level);
    hide Inv, StaleAbove, Bare, Walking;
    var i := 0;
    while i < ENTRIES
      invariant 0 <= i <= ENTRIES && Walking(r0, k.ram, stale, f, level, i)
    {
      ghost var r1 := k.ram;
      WalkingFacts(r0, r1, stale, f, level, i);
      FreeEntry(k, f, i, level, stale);
      WalkingOn(r0, r1, k.ram, stale, f, level, i);
      i := i + 1;
    }
    ghost var r1 := k.ram;
    WalkingFacts(r0, r1, stale, f, level, ENTRIES);
    FreeTable(k, f, stale);
    FreedWhole(r0, r1, k.ram, stale, f);
  }

  /** freewalk has done the first i entries of f. */
  ghost predicate Walking(r0: Ram, r: Ram, stale: set<(nat, nat)>, f: nat, level: nat, i: nat) {
    && Inv(r, stale) && f < |r.mem| == |r0.mem| == |r0.own| && r.own[f] == r0.own[f] && r.own[f].Node?
    && r.own[f].level == level <= 2
    && StaleAbove(r, stale, level) && BareFrom(r.mem, f, level, i) && i <= ENTRIES
    && (forall j :: 0 <= j < i ==> !r.mem[f].ptes[j].v)
    && (level == 0 ==> r == r0)
    && (level > 0 ==> var first := r.own[f].prefix * ENTRIES;
        Freed(r0, r, r.own[f].root, level - 1, first, first + i, f))
  }

  lemma WalkingFacts(r0: Ram, r: Ram, stale: set<(nat, nat)>, f: nat, level: nat, i: nat)
    requires Walking(r0, r, stale, f, level, i)
    ensures Inv(r, stale) && f < |r.mem| == |r.own| && r.own[f].Node? && r.own[f].level == level <= 2
    ensures StaleAbove(r, stale, level)
    ensures BareFrom(r.mem, f, level, i) && IsTable(r, f) && f < |r0.own| && r.own[f] == r0.own[f]
    ensures i == ENTRIES ==> (forall j :: 0 <= j < ENTRIES ==> !r.mem[f].ptes[j].v)
    ensures i == ENTRIES ==>
              var o := r0.own[f];
              if level == 0 then r == r0
              else Freed(r0, r, o.root, level - 1, o.prefix * ENTRIES, o.prefix * ENTRIES + ENTRIES, f)
  {
    hide Freed, Bare;
  }

  lemma WalkingOn(r0: Ram, r: Ram, r': Ram, stale: set<(nat, nat)>, f: nat, level: nat, i: nat)
    requires Walking(r0, r, stale, f, level, i) && i < ENTRIES
    requires Inv(r', stale) && f < |r'.mem| == |r.mem| == |r.own| && r'.own[f] == r.own[f]
    requires StaleAbove(r', stale, level) && (level == 0 ==> r' == r)
    requires r.mem[f].Table? && i < |r.mem[f].ptes| && r'.mem[f] == Table(r.mem[f].ptes[i := NoPte()])
    requires BareFrom(r'.mem, f, level, i + 1)
    requires level > 0 ==>
              var o := r.own[f]; var c := o.prefix * ENTRIES + i; Freed(r, r', o.root, level - 1, c, c + 1, f)
    ensures Walking(r0, r', stale, f, level, i + 1)
  {
    hide Freed, Bare, Inv;
    if level > 0 {
      var o := r.own[f];
      var first := o.prefix * ENTRIES;
      FreedThen(r0, r, r', o.root, level - 1, first, first + i, first + i + 1, f);
    }
  }

  method FreeTable(k: Kernel, f: nat, ghost stale: set<(nat, nat)>)
    requires Inv(k.ram, stale) && f < |k.ram.mem| && k.ram.own[f].Node? && IsTable(k.ram, f)
    requires forall i :: 0 <= i < ENTRIES ==> !k.ram.mem[f].ptes[i].v
    requires k.ram.own[f].level < 2 ==> (k.ram.own[f].up, k.ram.own[f].prefix % ENTRIES) in stale
    modifies k
    ensures Inv(k.ram, stale) && f < |old(k.ram).own| && OffTree(SetRole(old(k.ram), f, Held), k.ram, f)
    ensures k.ram.own[f].Free?
  {
    ghost var own := k.ram.own[f := Held];
    hide Inv;
    RoleDropped(k.ram, stale, f);
    assert stale + {} == stale;
    k.ram := k.ram.(own := own);
    k.Kfree(f, stale);
  }
}
