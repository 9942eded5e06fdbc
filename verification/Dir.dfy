/**
 Directories and link counts: create, link, unlink and the freeing of unlinked inodes, with
 all their failure exits.
 */
module Dir {
  import opened Sets

  datatype Kind = Directory | File | Device

  datatype Name = Name(text: string)

  datatype Dirent = Dirent(inum: nat, name: Name)

  function Dot(): (n: Name) {
    Name(".")
  }

  function DotDot(): (n: Name)
    ensures n != Dot()
  {
    assert |".."| != |"."|;
    Name("..")
  }

  /** An allocated inode; entries are a directory's slots, free where inum is 0. */
  datatype Inode = Inode(kind: Kind, nlink: nat, entries: seq<Dirent>)

  /** Where a linked directory hangs: its parent, the slot there, and its depth. */
  datatype Place = Place(up: nat, slot: nat, depth: nat)

  ghost predicate Linked(ino: map<nat, Inode>, d: nat) {
    d in ino && ino[d].kind.Directory? && ino[d].nlink > 0
  }

  /** Slot k of the linked directory d counts as a link to i. */
  ghost predicate IsRef(ino: map<nat, Inode>, i: nat, d: nat, k: nat) {
    Linked(ino, d) && k < |ino[d].entries| && ino[d].entries[k].inum == i && ino[d].entries[k].name != Dot()
  }

  /** The entries other than "." that name i in linked directories. */
  ghost function Refs(ino: map<nat, Inode>, i: nat): (s: set<(nat, nat)>)
    ensures forall d: nat, k: nat :: (d, k) in s <==> IsRef(ino, i, d, k)
  {
    set d: nat, k: nat | d in ino && k < |ino[d].entries| && IsRef(ino, i, d, k) :: (d, k)
  }

  /** nlink is the number of entries, plus the links that sys_link has counted but not yet
      entered. */
  ghost predicate Counted(ino: map<nat, Inode>, pend: map<nat, nat>, i: nat) {
    i in ino ==> i in pend && ino[i].nlink == |Refs(ino, i)| + pend[i] && (ino[i].kind.Directory? ==> pend[i] == 0)
  }

  ghost predicate Accounted(ino: map<nat, Inode>, pend: map<nat, nat>) {
    forall i :: Counted(ino, pend, i)
  }

  /** A linked directory has its two first entries, and hangs where at says. */
  ghost predicate DirOk(ino: map<nat, Inode>, root: nat, at: map<nat, Place>, d: nat)
    requires Linked(ino, d)
  {
    && d in at && Linked(ino, at[d].up) && at[d].up in at && |ino[d].entries| >= 2
    && ino[d].entries[0] == Dirent(d, Dot()) && ino[d].entries[1] == Dirent(at[d].up, DotDot())
    && (d == root ==> at[d].up == root)
    && (d != root ==> at[d].depth == at[at[d].up].depth + 1 && 2 <= at[d].slot < |ino[at[d].up].entries|
                      && ino[at[d].up].entries[at[d].slot].inum == d)
  }

  /** A used slot after the first two: of a linked directory, and if it names a directory
      then the place where that one hangs. */
  ghost predicate SlotOk(ino: map<nat, Inode>, root: nat, at: map<nat, Place>, d: nat, k: nat)
    requires d in ino && k < |ino[d].entries|
  {
    var e := ino[d].entries[k];
    && Linked(ino, d) && e.name != Dot() && e.name != DotDot() && e.inum in ino
    && (ino[e.inum].kind.Directory? ==>
        Linked(ino, e.inum) && e.inum != root && e.inum in at && at[e.inum].up == d && at[e.inum].slot == k)
  }

  ghost predicate NamesOk(es: seq<Dirent>) {
    forall j, k :: 0 <= j < k < |es| && es[j].inum != 0 && es[k].inum != 0 ==> es[j].name != es[k].name
  }

  /** Directories form a tree under root, and ".." names the parent. */
  ghost predicate Tree(ino: map<nat, Inode>, root: nat, at: map<nat, Place>) {
    && 0 !in ino && Linked(ino, root)
    && (forall d :: Linked(ino, d) ==> DirOk(ino, root, at, d) && NamesOk(ino[d].entries))
    && (forall d, k :: Used(ino, d, k) ==> SlotOk(ino, root, at, d, k))
    && DotsOk(ino)
  }

  /** No used slot has this name. */
  ghost predicate NoEntry(es: seq<Dirent>, name: Name) {
    forall j :: 0 <= j < |es| && es[j].inum != 0 ==> es[j].name != name
  }

  /** Linked or not, a directory begins with "." and "..". */
  ghost predicate DotsOk(ino: map<nat, Inode>) {
    forall d :: d in ino && ino[d].kind.Directory? ==>
        |ino[d].entries| >= 2 && ino[d].entries[0].name == Dot() && ino[d].entries[1].name == DotDot()
  }

  ghost predicate Used(ino: map<nat, Inode>, d: nat, k: nat) {
    d in ino && ino[d].kind.Directory? && 2 <= k < |ino[d].entries| && ino[d].entries[k].inum != 0
  }

  ghost predicate Inv(ino: map<nat, Inode>, root: nat, at: map<nat, Place>, pend: map<nat, nat>) {
    Tree(ino, root, at) && Accounted(ino, pend)
  }

  // ------------------------------------------------------------------- consequences

  /** An inode that no inode number names has no links. */
  lemma Unnamed(ino: map<nat, Inode>, root: nat, at: map<nat, Place>, i: nat)
    requires Tree(ino, root, at) && i !in ino && i != 0
    ensures Refs(ino, i) == {}
  {
    forall d: nat, k: nat ensures !IsRef(ino, i, d, k) {
      assert Linked(ino, d) ==> DirOk(ino, root, at, d);
      assert Used(ino, d, k) ==> SlotOk(ino, root, at, d, k);
    }
  }

  /** A directory has one name, and one ".." for each directory in it. */
  lemma DirRef(ino: map<nat, Inode>, root: nat, at: map<nat, Place>, i: nat, d: nat, k: nat)
    requires Tree(ino, root, at) && Linked(ino, i) && i != root && IsRef(ino, i, d, k)
    ensures (d, k) == (at[i].up, at[i].slot) || (k == 1 && d != root && at[d].up == i)
  {
    assert DirOk(ino, root, at, d) && DirOk(ino, root, at, i);
    if k >= 2 {
      assert Used(ino, d, k);
      assert SlotOk(ino, root, at, d, k);
    }
  }

  lemma RefsSame(ino: map<nat, Inode>, ino': map<nat, Inode>, i: nat)
    requires forall d: nat, k: nat :: IsRef(ino', i, d, k) <==> IsRef(ino, i, d, k)
    ensures Refs(ino', i) == Refs(ino, i)
  {
  }

  lemma RefsAdd(ino: map<nat, Inode>, ino': map<nat, Inode>, i: nat, x: (nat, nat))
    requires !IsRef(ino, i, x.0, x.1)
    requires forall d: nat, k: nat :: IsRef(ino', i, d, k) <==> IsRef(ino, i, d, k) || (d, k) == x
    ensures |Refs(ino', i)| == |Refs(ino, i)| + 1
  {
    assert Refs(ino', i) == Refs(ino, i) + {x};
  }

  // ------------------------------------------------------------------- transitions

  /** Directory d is still linked and has all its used entries. */
  ghost predicate Grows(ino: map<nat, Inode>, ino': map<nat, Inode>, d: nat) {
    && Linked(ino, d) && Linked(ino', d) && |ino'[d].entries| >= |ino[d].entries|
    && forall j :: 0 <= j < |ino[d].entries| && ino[d].entries[j].inum != 0 ==> ino'[d].entries[j] == ino[d].entries[j]
  }

  lemma DirKept(ino: map<nat, Inode>, ino': map<nat, Inode>, root: nat, at: map<nat, Place>, d: nat)
    requires Linked(ino, d) && DirOk(ino, root, at, d) && Grows(ino, ino', d) && Grows(ino, ino', at[d].up) && 0 !in ino
    ensures DirOk(ino', root, at, d)
  {
  }

  /** The inode a slot names is still there, and as linked as it was. */
  ghost predicate Stays(ino: map<nat, Inode>, ino': map<nat, Inode>, i: nat) {
    i in ino && i in ino' && ino'[i].kind == ino[i].kind && (Linked(ino, i) ==> Linked(ino', i))
  }

  lemma SlotKept(ino: map<nat, Inode>, ino': map<nat, Inode>, root: nat, at: map<nat, Place>, d: nat, k: nat)
    requires d in ino && k < |ino[d].entries| && SlotOk(ino, root, at, d, k) && Linked(ino', d) && k < |ino'[d].entries|
    requires ino'[d].entries[k] == ino[d].entries[k] && Stays(ino, ino', ino[d].entries[k].inum)
    ensures SlotOk(ino', root, at, d, k)
  {
  }

  function Put(es: seq<Dirent>, k: nat, e: Dirent): (es': seq<Dirent>)
    requires k <= |es|
  {
    if k < |es| then es[k := e] else es + [e]
  }

  /** Slot k of d is free, and d has no entry of this name. */
  ghost predicate Room(es: seq<Dirent>, k: nat, name: Name) {
    k <= |es| && (k < |es| ==> es[k].inum == 0) && forall j :: 0 <= j < |es| && es[j].inum != 0 ==> es[j].name != name
  }

  ghost function Entered(ino: map<nat, Inode>, d: nat, k: nat, e: Dirent): (ino': map<nat, Inode>)
    requires d in ino && k <= |ino[d].entries|
  {
    ino[d := ino[d].(entries := Put(ino[d].entries, k, e))]
  }

  /** A new name for something that is not a directory. */
  lemma EnteredTree(ino: map<nat, Inode>, root: nat, at: map<nat, Place>, d: nat, k: nat, i: nat, name: Name)
    requires Tree(ino, root, at) && Linked(ino, d) && Room(ino[d].entries, k, name) && i in ino
    requires !ino[i].kind.Directory?
    ensures k >= 2 && name != Dot() && name != DotDot() && Tree(Entered(ino, d, k, Dirent(i, name)), root, at)
  {
    hide Tree, DirOk, NamesOk, SlotOk;
    TreeRoot(ino, root, at);
    FreshName(ino, root, at, d, k, name);
    var ino' := Entered(ino, d, k, Dirent(i, name));
    assert 0 !in ino' && DotsOk(ino') && forall x :: Linked(ino', x) <==> Linked(ino, x);
    hide DotsOk;
    forall c | Linked(ino', c) ensures DirOk(ino', root, at, c) && NamesOk(ino'[c].entries) {
      TreeDir(ino, root, at, c);
      DirKept(ino, ino', root, at, c);
      if c == d {
        PutNames(ino[d].entries, k, Dirent(i, name));
      }
    }
    hide Room;
    forall c, j | Used(ino', c, j) ensures SlotOk(ino', root, at, c, j) {
      EnteredSlot(ino, root, at, d, k, i, name, c, j);
    }
    TreeFrom(ino', root, at);
  }

  lemma EnteredSlot(ino: map<nat, Inode>, root: nat, at: map<nat, Place>, d: nat, k: nat, i: nat, name: Name, c: nat,
                    j: nat)
    requires Tree(ino, root, at) && Linked(ino, d) && Room(ino[d].entries, k, name) && i in ino
    requires !ino[i].kind.Directory? && name != Dot() && name != DotDot()
    requires Used(Entered(ino, d, k, Dirent(i, name)), c, j)
    ensures SlotOk(Entered(ino, d, k, Dirent(i, name)), root, at, c, j)
  {
    hide Tree, SlotOk;
    var ino' := Entered(ino, d, k, Dirent(i, name));
    if c == d && j == k {
      NewSlot(ino', root, at, c, j);
    } else {
      TreeSlot(ino, root, at, c, j);
      SlotKept(ino, ino', root, at, c, j);
    }
  }

  lemma TreeFrom(ino: map<nat, Inode>, root: nat, at: map<nat, Place>)
    requires 0 !in ino && Linked(ino, root)
    requires forall d :: Linked(ino, d) ==> DirOk(ino, root, at, d) && NamesOk(ino[d].entries)
    requires (forall d, k :: Used(ino, d, k) ==> SlotOk(ino, root, at, d, k)) && DotsOk(ino)
    ensures Tree(ino, root, at)
  {
  }

  lemma TreeRoot(ino: map<nat, Inode>, root: nat, at: map<nat, Place>)
    requires Tree(ino, root, at)
    ensures 0 !in ino && Linked(ino, root) && DotsOk(ino)
  {
  }

  lemma TreeDir(ino: map<nat, Inode>, root: nat, at: map<nat, Place>, d: nat)
    requires Tree(ino, root, at) && Linked(ino, d)
    ensures DirOk(ino, root, at, d) && NamesOk(ino[d].entries) && d in at && Linked(ino, at[d].up)
  {
  }

  lemma TreeSlot(ino: map<nat, Inode>, root: nat, at: map<nat, Place>, d: nat, k: nat)
    requires Tree(ino, root, at) && Used(ino, d, k)
    ensures SlotOk(ino, root, at, d, k) && Linked(ino, d) && ino[d].entries[k].inum in ino
  {
  }

  lemma NewSlot(ino: map<nat, Inode>, root: nat, at: map<nat, Place>, d: nat, k: nat)
    requires Used(ino, d, k) && Linked(ino, d)
    requires ino[d].entries[k].name != Dot() && ino[d].entries[k].name != DotDot() && ino[d].entries[k].inum in ino
    requires var i := ino[d].entries[k].inum;
             ino[i].kind.Directory? ==> Linked(ino, i) && i != root && i in at && at[i].up == d && at[i].slot == k
    ensures SlotOk(ino, root, at, d, k)
  {
  }

  lemma PutNames(es: seq<Dirent>, k: nat, e: Dirent)
    requires NamesOk(es) && Room(es, k, e.name)
    ensures NamesOk(Put(es, k, e))
  {
  }

  lemma EnteredRefs(ino: map<nat, Inode>, root: nat, at: map<nat, Place>, d: nat, k: nat, i: nat, name: Name, j: nat)
    requires Linked(ino, d) && Room(ino[d].entries, k, name) && i != 0 && j != 0 && name != Dot()
    ensures |Refs(Entered(ino, d, k, Dirent(i, name)), j)| == |Refs(ino, j)| + if j == i then 1 else 0
  {
    var ino' := Entered(ino, d, k, Dirent(i, name));
    if j == i {
      RefsAdd(ino, ino', j, (d, k));
    } else {
      RefsSame(ino, ino', j);
    }
  }

  lemma RefsDrop(ino: map<nat, Inode>, ino': map<nat, Inode>, i: nat, x: (nat, nat))
    requires IsRef(ino, i, x.0, x.1)
    requires forall d: nat, k: nat :: IsRef(ino', i, d, k) <==> IsRef(ino, i, d, k) && (d, k) != x
    ensures |Refs(ino', i)| == |Refs(ino, i)| - 1
  {
    assert Refs(ino', i) == Refs(ino, i) - {x};
  }

  /** The inode i is not a directory, or not linked, before and after: the tree does not see
      what happens to it, as long as nothing names it if it goes. */
  ghost predicate Apart(ino: map<nat, Inode>, ino': map<nat, Inode>, i: nat) {
    && (forall j :: j in ino && j != i ==> j in ino' && ino'[j] == ino[j])
    && (forall j :: j in ino' && j != i ==> j in ino)
    && (i in ino && ino[i].kind.Directory? ==> !Linked(ino, i) && i !in ino')
    && (i in ino' ==> i != 0 && !ino'[i].kind.Directory? && (i in ino ==> ino'[i].kind == ino[i].kind))
  }

  lemma ApartTree(ino: map<nat, Inode>, ino': map<nat, Inode>, root: nat, at: map<nat, Place>, i: nat)
    requires Tree(ino, root, at) && Apart(ino, ino', i)
    requires (i in ino && i !in ino' ==> forall d: nat, k: nat :: !IsRef(ino, i, d, k))
    ensures Tree(ino', root, at)
  {
    hide DirOk, NamesOk, SlotOk;
    forall c | Linked(ino', c) ensures DirOk(ino', root, at, c) && NamesOk(ino'[c].entries) {
      TreeDir(ino, root, at, c);
      DirKept(ino, ino', root, at, c);
    }
    forall c, k | Used(ino', c, k) ensures SlotOk(ino', root, at, c, k) {
      assert Used(ino, c, k);
      TreeSlot(ino, root, at, c, k);
      NamedSlot(ino, root, at, c, k);
      SlotKept(ino, ino', root, at, c, k);
    }
  }

  lemma NamedSlot(ino: map<nat, Inode>, root: nat, at: map<nat, Place>, d: nat, k: nat)
    requires Tree(ino, root, at) && Used(ino, d, k)
    ensures IsRef(ino, ino[d].entries[k].inum, d, k)
  {
    assert SlotOk(ino, root, at, d, k);
  }

  lemma ApartRefs(ino: map<nat, Inode>, ino': map<nat, Inode>, i: nat, j: nat)
    requires Apart(ino, ino', i)
    ensures Refs(ino', j) == Refs(ino, j)
  {
    RefsSame(ino, ino', j);
  }

  /** mkdir's result: the new directory i in slot k of d. */
  ghost function MadeDir(ino: map<nat, Inode>, d: nat, k: nat, i: nat, name: Name): (ino': map<nat, Inode>)
    requires d in ino && k <= |ino[d].entries|
  {
    ino[i := Inode(Directory, 1, [Dirent(i, Dot()), Dirent(d, DotDot())])]
       [d := Inode(ino[d].kind, ino[d].nlink + 1, Put(ino[d].entries, k, Dirent(i, name)))]
  }

  lemma MadeDirTree(ino: map<nat, Inode>, root: nat, at: map<nat, Place>, d: nat, k: nat, i: nat, name: Name)
    requires Tree(ino, root, at) && Linked(ino, d) && Room(ino[d].entries, k, name) && i !in ino && i != 0
    ensures d in at && k >= 2 && name != Dot() && name != DotDot()
    ensures Tree(MadeDir(ino, d, k, i, name), root, at[i := Place(d, k, at[d].depth + 1)])
  {
    hide Tree, DirOk, NamesOk, SlotOk, Room;
    TreeRoot(ino, root, at);
    FreshName(ino, root, at, d, k, name);
    var ino', at' := MadeDir(ino, d, k, i, name), at[i := Place(d, k, at[d].depth + 1)];
    assert 0 !in ino' && Linked(ino', root) && DotsOk(ino');
    hide MadeDir, DotsOk;
    forall c | Linked(ino', c) ensures DirOk(ino', root, at', c) && NamesOk(ino'[c].entries) {
      MadeDirDir(ino, root, at, d, k, i, name, c);
    }
    forall c, j | Used(ino', c, j) ensures SlotOk(ino', root, at', c, j) {
      MadeDirSlot(ino, root, at, d, k, i, name, c, j);
    }
    TreeFrom(ino', root, at');
  }

  lemma FreshName(ino: map<nat, Inode>, root: nat, at: map<nat, Place>, d: nat, k: nat, name: Name)
    requires Tree(ino, root, at) && Linked(ino, d) && Room(ino[d].entries, k, name)
    ensures d in at && at[d].up in at && k >= 2 && name != Dot() && name != DotDot() && k <= |ino[d].entries|
  {
    TreeDir(ino, root, at, d);
  }

  lemma MadeDirDir(ino: map<nat, Inode>, root: nat, at: map<nat, Place>, d: nat, k: nat, i: nat, name: Name, c: nat)
    requires Tree(ino, root, at) && Linked(ino, d) && Room(ino[d].entries, k, name) && i !in ino && i != 0 && k >= 2
    requires d in at
    requires Linked(MadeDir(ino, d, k, i, name), c)
    ensures DirOk(MadeDir(ino, d, k, i, name), root, at[i := Place(d, k, at[d].depth + 1)], c)
    ensures NamesOk(MadeDir(ino, d, k, i, name)[c].entries)
  {
    var ino', at' := MadeDir(ino, d, k, i, name), at[i := Place(d, k, at[d].depth + 1)];
    assert i != root && 0 !in ino;
    hide DirOk, NamesOk, SlotOk, Tree;
    if c == i {
      NewDir(ino', root, at', d, k, i);
    } else {
      TreeDir(ino, root, at, c);
      DirKept(ino, ino', root, at, c);
      AtMore(ino', root, at, at', c, i);
      if c == d {
        PutNames(ino[d].entries, k, Dirent(i, name));
      }
    }
  }

  lemma MadeDirSlot(ino: map<nat, Inode>, root: nat, at: map<nat, Place>, d: nat, k: nat, i: nat, name: Name, c: nat,
                    j: nat)
    requires Tree(ino, root, at) && Linked(ino, d) && Room(ino[d].entries, k, name) && i !in ino && i != 0 && k >= 2
    requires d in at && name != Dot() && name != DotDot()
    requires Used(MadeDir(ino, d, k, i, name), c, j)
    ensures SlotOk(MadeDir(ino, d, k, i, name), root, at[i := Place(d, k, at[d].depth + 1)], c, j)
  {
    var ino', at' := MadeDir(ino, d, k, i, name), at[i := Place(d, k, at[d].depth + 1)];
    assert i != root;
    hide DirOk, NamesOk, SlotOk, Tree;
    if c == d && j == k {
      NewSlot(ino', root, at', c, j);
    } else {
      TreeSlot(ino, root, at, c, j);
      SlotKept(ino, ino', root, at, c, j);
      SlotMore(ino', root, at, at', c, j, i);
    }
  }

  lemma NewDir(ino: map<nat, Inode>, root: nat, at: map<nat, Place>, d: nat, k: nat, i: nat)
    requires Linked(ino, i) && Linked(ino, d) && d != i && i != root && i in at && d in at && at[i].up == d
    requires at[i].slot == k && at[i].depth == at[d].depth + 1
    requires 2 <= k < |ino[d].entries| && ino[d].entries[k].inum == i
    requires ino[i].entries == [Dirent(i, Dot()), Dirent(d, DotDot())]
    ensures DirOk(ino, root, at, i) && NamesOk(ino[i].entries)
  {
  }

  lemma AtMore(ino: map<nat, Inode>, root: nat, at: map<nat, Place>, at': map<nat, Place>, c: nat, i: nat)
    requires Linked(ino, c) && DirOk(ino, root, at, c) && c != i && at[c].up != i
    requires forall x :: x in at && x != i ==> x in at' && at'[x] == at[x]
    ensures DirOk(ino, root, at', c)
  {
  }

  lemma SlotMore(ino: map<nat, Inode>, root: nat, at: map<nat, Place>, at': map<nat, Place>, c: nat, j: nat, i: nat)
    requires c in ino && j < |ino[c].entries| && SlotOk(ino, root, at, c, j) && ino[c].entries[j].inum != i
    requires forall x :: x in at && x != i ==> x in at' && at'[x] == at[x]
    ensures SlotOk(ino, root, at', c, j)
  {
  }

  lemma MadeDirRefs(ino: map<nat, Inode>, root: nat, at: map<nat, Place>, d: nat, k: nat, i: nat, name: Name, j: nat)
    requires Tree(ino, root, at) && Linked(ino, d) && Room(ino[d].entries, k, name) && i !in ino && i != 0 && j != 0
    requires name != Dot()
    ensures |Refs(MadeDir(ino, d, k, i, name), j)| == |Refs(ino, j)| + if j == i || j == d then 1 else 0
  {
    hide Tree;
    Unnamed(ino, root, at, i);
    var ino' := MadeDir(ino, d, k, i, name);
    if j == i {
      RefsAdd(ino, ino', j, (d, k));
    } else if j == d {
      RefsAdd(ino, ino', j, (i, 1));
    } else {
      RefsSame(ino, ino', j);
    }
  }

  /** unlink's result: slot k of d is cleared and i has one link less; a directory in it also
      takes its ".." away from d. */
  ghost function Unlinked(ino: map<nat, Inode>, d: nat, k: nat, i: nat): (ino': map<nat, Inode>)
    requires d in ino && i in ino && k < |ino[d].entries|
  {
    var n := if ino[i].kind.Directory? && ino[d].nlink > 0 then ino[d].nlink - 1 else ino[d].nlink;
    var ino1 := ino[d := Inode(ino[d].kind, n, ino[d].entries[k := Dirent(0, Name(""))])];
    ino1[i := ino1[i].(nlink := if ino1[i].nlink > 0 then ino1[i].nlink - 1 else 0)]
  }

  ghost predicate Empty(ino: map<nat, Inode>, i: nat) {
    i in ino && forall k :: 2 <= k < |ino[i].entries| ==> ino[i].entries[k].inum == 0
  }

  /** An empty linked directory, other than the root, has exactly one link. */
  lemma OneLink(ino: map<nat, Inode>, root: nat, at: map<nat, Place>, pend: map<nat, nat>, d: nat, k: nat, i: nat)
    requires Inv(ino, root, at, pend) && Used(ino, d, k) && ino[d].entries[k].inum == i && i in ino
    requires ino[i].kind.Directory? && Empty(ino, i)
    ensures Linked(ino, d) && Linked(ino, i) && i != root && i != d && i in at && at[i].up == d && at[i].slot == k
    ensures ino[i].nlink == 1
    ensures forall c :: Linked(ino, c) && c != i ==> c in at && at[c].up != i
  {
    assert SlotOk(ino, root, at, d, k) && DirOk(ino, root, at, i);
    forall c | Linked(ino, c) && c != i ensures c in at && at[c].up != i {
      assert DirOk(ino, root, at, c);
    }
    forall c: nat, j: nat ensures IsRef(ino, i, c, j) <==> (c, j) == (d, k) {
      if IsRef(ino, i, c, j) {
        DirRef(ino, root, at, i, c, j);
      }
    }
    assert Refs(ino, i) == {(d, k)};
    assert Counted(ino, pend, i);
  }

  /** Directory c does not hang in slot k of d, which is cleared, and its parent stays. */
  lemma UnlinkedDir(ino: map<nat, Inode>, root: nat, at: map<nat, Place>, d: nat, k: nat, i: nat, c: nat)
    requires Tree(ino, root, at) && Used(ino, d, k) && ino[d].entries[k].inum == i && i in ino && Linked(ino, c)
    requires c != i
    requires Linked(Unlinked(ino, d, k, i), c) && c in at && at[c].up != i && Linked(Unlinked(ino, d, k, i), at[c].up)
    ensures DirOk(Unlinked(ino, d, k, i), root, at, c) && NamesOk(Unlinked(ino, d, k, i)[c].entries)
  {
    TreeDir(ino, root, at, c);
    hide Tree;
    var ino' := Unlinked(ino, d, k, i);
    assert c == d ==> ino'[c].entries == ino[c].entries[k := Dirent(0, Name(""))];
    assert c != d ==> ino'[c].entries == ino[c].entries;
  }

  lemma UnlinkedSlot(ino: map<nat, Inode>, root: nat, at: map<nat, Place>, d: nat, k: nat, i: nat, c: nat, j: nat)
    requires Tree(ino, root, at) && Used(ino, d, k) && ino[d].entries[k].inum == i && i in ino
    requires Used(Unlinked(ino, d, k, i), c, j)
    requires Linked(ino, d) && (Linked(ino, c) ==> Linked(Unlinked(ino, d, k, i), c)) && i != d
    requires ino[i].kind.Directory? ==> i in at && at[i].up == d && at[i].slot == k
    requires forall x :: Linked(ino, x) && x != i ==> Linked(Unlinked(ino, d, k, i), x)
    ensures SlotOk(Unlinked(ino, d, k, i), root, at, c, j)
  {
    hide DirOk, NamesOk, SlotOk, Tree;
    var ino' := Unlinked(ino, d, k, i);
    UnlinkedAt(ino, d, k, i, c, j);
    TreeSlot(ino, root, at, c, j);
    SlotPlace(ino, root, at, c, j);
    UnlinkedKind(ino, d, k, i, ino[c].entries[j].inum);
    hide Unlinked;
    SlotKept(ino, ino', root, at, c, j);
  }

  lemma UnlinkedAt(ino: map<nat, Inode>, d: nat, k: nat, i: nat, c: nat, j: nat)
    requires d in ino && i in ino && k < |ino[d].entries| && i != d && Used(Unlinked(ino, d, k, i), c, j)
    ensures Used(ino, c, j) && !(c == d && j == k) && j < |Unlinked(ino, d, k, i)[c].entries|
    ensures Unlinked(ino, d, k, i)[c].entries[j] == ino[c].entries[j]
  {
  }

  lemma UnlinkedKind(ino: map<nat, Inode>, d: nat, k: nat, i: nat, x: nat)
    requires d in ino && i in ino && k < |ino[d].entries| && x in ino
    ensures x in Unlinked(ino, d, k, i) && Unlinked(ino, d, k, i)[x].kind == ino[x].kind
  {
  }

  lemma SlotPlace(ino: map<nat, Inode>, root: nat, at: map<nat, Place>, d: nat, k: nat)
    requires d in ino && k < |ino[d].entries| && SlotOk(ino, root, at, d, k)
    ensures var i := ino[d].entries[k].inum;
            i in ino && (ino[i].kind.Directory? ==> i in at && at[i].up == d && at[i].slot == k)
  {
  }

  lemma UnlinkedLinked(ino: map<nat, Inode>, d: nat, k: nat, i: nat)
    requires d in ino && i in ino && 2 <= k < |ino[d].entries| && i != d && 0 !in ino && DotsOk(ino)
    requires ino[i].kind.Directory? ==> Linked(ino, d) && ino[i].nlink == 1 && ino[d].nlink >= 2 && Empty(ino, i)
    ensures 0 !in Unlinked(ino, d, k, i) && DotsOk(Unlinked(ino, d, k, i))
    ensures forall x :: Linked(Unlinked(ino, d, k, i), x) <==> Linked(ino, x) && (x == i ==> !ino[i].kind.Directory?)
    ensures ino[i].kind.Directory? ==> forall j :: !Used(Unlinked(ino, d, k, i), i, j)
  {
  }

  lemma UnlinkedFileTree(ino: map<nat, Inode>, root: nat, at: map<nat, Place>, d: nat, k: nat, i: nat)
    requires Tree(ino, root, at) && Used(ino, d, k) && ino[d].entries[k].inum == i && i in ino
    requires !ino[i].kind.Directory?
    ensures Linked(ino, d) && Tree(Unlinked(ino, d, k, i), root, at)
  {
    hide Tree, DirOk, NamesOk, SlotOk;
    TreeRoot(ino, root, at);
    TreeSlot(ino, root, at, d, k);
    var ino' := Unlinked(ino, d, k, i);
    UnlinkedLinked(ino, d, k, i);
    hide Unlinked, DotsOk;
    forall c | Linked(ino', c) ensures DirOk(ino', root, at, c) && NamesOk(ino'[c].entries) {
      TreeDir(ino, root, at, c);
      UnlinkedDir(ino, root, at, d, k, i, c);
    }
    forall c, j | Used(ino', c, j) ensures SlotOk(ino', root, at, c, j) {
      UnlinkedSlot(ino, root, at, d, k, i, c, j);
    }
    TreeFrom(ino', root, at);
  }

  /** The parent of a directory has its own name, or is the root, and the child's "..". */
  lemma TwoLinks(ino: map<nat, Inode>, root: nat, at: map<nat, Place>, pend: map<nat, nat>, d: nat, i: nat)
    requires Inv(ino, root, at, pend) && Linked(ino, i) && i != root && i in at && at[i].up == d
    ensures Linked(ino, d) && ino[d].nlink >= 2 && IsRef(ino, d, i, 1)
  {
    assert DirOk(ino, root, at, i) && DirOk(ino, root, at, d) && Counted(ino, pend, d);
    var own := if d == root then (d, 1) else (at[d].up, at[d].slot);
    assert d != root ==> Used(ino, at[d].up, at[d].slot);
    assert d != root ==> SlotOk(ino, root, at, at[d].up, at[d].slot);
    assert IsRef(ino, d, own.0, own.1) && IsRef(ino, d, i, 1) && own != (i, 1);
    assert {own, (i, 1)} <= Refs(ino, d) && |{own, (i, 1)}| == 2;
    SubsetSize({own, (i, 1)}, Refs(ino, d));
  }

  lemma UnlinkedDirTree(ino: map<nat, Inode>, root: nat, at: map<nat, Place>, pend: map<nat, nat>, d: nat, k: nat,
                        i: nat)
    requires Inv(ino, root, at, pend) && Used(ino, d, k) && ino[d].entries[k].inum == i && i in ino
    requires ino[i].kind.Directory? && Empty(ino, i)
    ensures Linked(ino, d) && Tree(Unlinked(ino, d, k, i), root, at)
  {
    hide Accounted, Tree, DirOk, NamesOk, SlotOk;
    TreeRoot(ino, root, at);
    OneLink(ino, root, at, pend, d, k, i);
    TwoLinks(ino, root, at, pend, d, i);
    var ino' := Unlinked(ino, d, k, i);
    UnlinkedLinked(ino, d, k, i);
    hide Unlinked, DotsOk;
    forall c | Linked(ino', c) ensures DirOk(ino', root, at, c) && NamesOk(ino'[c].entries) {
      TreeDir(ino, root, at, c);
      UnlinkedDir(ino, root, at, d, k, i, c);
    }
    forall c, j | Used(ino', c, j) ensures SlotOk(ino', root, at, c, j) {
      UnlinkedSlot(ino, root, at, d, k, i, c, j);
    }
    TreeFrom(ino', root, at);
  }

  /** Removing the directory i takes away its name and its "..". */
  lemma GoneRef(ino: map<nat, Inode>, d: nat, k: nat, i: nat, j: nat, c: nat, m: nat)
    requires Linked(ino, d) && Linked(ino, i) && i != d && ino[i].nlink == 1 && ino[d].nlink >= 2
    requires k < |ino[d].entries| && j != 0
    requires |ino[i].entries| >= 2 && ino[i].entries[0].name == Dot() && Empty(ino, i)
    ensures IsRef(Unlinked(ino, d, k, i), j, c, m) <==> IsRef(ino, j, c, m) && (c, m) != (d, k) && (c, m) != (i, 1)
  {
  }

  lemma UnlinkedDirRefs(ino: map<nat, Inode>, root: nat, at: map<nat, Place>, pend: map<nat, nat>, d: nat, k: nat,
                        i: nat, j: nat)
    requires Inv(ino, root, at, pend) && Used(ino, d, k) && ino[d].entries[k].inum == i && i in ino
    requires ino[i].kind.Directory? && Empty(ino, i) && j != 0
    ensures |Refs(Unlinked(ino, d, k, i), j)| == |Refs(ino, j)| - if j == i || j == d then 1 else 0
  {
    hide Tree, Accounted;
    OneLink(ino, root, at, pend, d, k, i);
    TwoLinks(ino, root, at, pend, d, i);
    NamedSlot(ino, root, at, d, k);
    TreeDir(ino, root, at, i);
    var ino' := Unlinked(ino, d, k, i);
    forall c: nat, m: nat
      ensures IsRef(ino', j, c, m) <==> IsRef(ino, j, c, m) && (c, m) != (d, k) && (c, m) != (i, 1)
    {
      GoneRef(ino, d, k, i, j, c, m);
    }
    hide Unlinked, DirOk;
    if j == i {
      RefsDrop(ino, ino', j, (d, k));
    } else if j == d {
      RefsDrop(ino, ino', j, (i, 1));
    } else {
      RefsSame(ino, ino', j);
    }
  }

  lemma UnlinkedRefs(ino: map<nat, Inode>, root: nat, at: map<nat, Place>, d: nat, k: nat, i: nat, j: nat)
    requires Tree(ino, root, at) && Used(ino, d, k) && ino[d].entries[k].inum == i && i in ino
    requires !ino[i].kind.Directory? && j != 0
    ensures |Refs(Unlinked(ino, d, k, i), j)| == |Refs(ino, j)| - if j == i then 1 else 0
  {
    hide Tree;
    TreeSlot(ino, root, at, d, k);
    NamedSlot(ino, root, at, d, k);
    var ino' := Unlinked(ino, d, k, i);
    if j == i {
      RefsDrop(ino, ino', j, (d, k));
    } else {
      RefsSame(ino, ino', j);
    }
  }

  lemma EnteredAt(ino: map<nat, Inode>, d: nat, k: nat, e: Dirent, j: nat)
    requires d in ino && k <= |ino[d].entries|
    ensures j in Entered(ino, d, k, e) <==> j in ino
    ensures j in ino ==> Entered(ino, d, k, e)[j].nlink == ino[j].nlink && Entered(ino, d, k, e)[j].kind == ino[j].kind
  {
  }

  /** What create leaves when a file or device has been made in a linked directory. */
  lemma CreatedFile(ino: map<nat, Inode>, root: nat, at: map<nat, Place>, pend: map<nat, nat>, d: nat, k: nat, i: nat,
                    kind: Kind, name: Name)
    requires Inv(ino, root, at, pend) && Linked(ino, d) && Room(ino[d].entries, k, name) && i !in ino && i != 0
    requires !kind.Directory?
    ensures Inv(Entered(ino[i := Inode(kind, 1, [])], d, k, Dirent(i, name)), root, at, pend[i := 0])
  {
    hide Tree, DotsOk;
    TreeRoot(ino, root, at);
    var ino1 := ino[i := Inode(kind, 1, [])];
    assert Apart(ino, ino1, i);
    ApartTree(ino, ino1, root, at, i);
    EnteredTree(ino1, root, at, d, k, i, name);
    Unnamed(ino, root, at, i);
    var ino', pend' := Entered(ino1, d, k, Dirent(i, name)), pend[i := 0];
    hide Entered, Room, Apart, IsRef;
    forall j | j in ino' ensures Counted(ino', pend', j) {
      assert Counted(ino, pend, j);
      EnteredAt(ino1, d, k, Dirent(i, name), j);
      EnteredRefs(ino1, root, at, d, k, i, name, j);
      ApartRefs(ino, ino1, i, j);
    }
  }

  lemma CreatedDir(ino: map<nat, Inode>, root: nat, at: map<nat, Place>, pend: map<nat, nat>, d: nat, k: nat, i: nat,
                   name: Name)
    requires Inv(ino, root, at, pend) && Linked(ino, d) && Room(ino[d].entries, k, name) && i !in ino && i != 0
    ensures d in at && Inv(MadeDir(ino, d, k, i, name), root, at[i := Place(d, k, at[d].depth + 1)], pend[i := 0])
  {
    hide Tree, DotsOk;
    TreeRoot(ino, root, at);
    MadeDirTree(ino, root, at, d, k, i, name);
    var ino', pend' := MadeDir(ino, d, k, i, name), pend[i := 0];
    forall j | j in ino' ensures Counted(ino', pend', j) {
      assert Counted(ino, pend, j);
      MadeDirRefs(ino, root, at, d, k, i, name, j);
      if j == i {
        Unnamed(ino, root, at, i);
      }
    }
  }

  function Recounted(ino: map<nat, Inode>, i: nat, n: nat): (ino': map<nat, Inode>)
    requires i in ino
  {
    ino[i := ino[i].(nlink := n)]
  }

  /** sys_link's first and last steps on the inode's count. */
  lemma Counting(ino: map<nat, Inode>, root: nat, at: map<nat, Place>, pend: map<nat, nat>, i: nat, n: nat, p: nat)
    requires Inv(ino, root, at, pend) && i in ino && !ino[i].kind.Directory? && i in pend
    requires n + pend[i] == ino[i].nlink + p
    ensures Inv(Recounted(ino, i, n), root, at, pend[i := p])
  {
    hide Tree, DotsOk;
    TreeRoot(ino, root, at);
    var ino', pend' := Recounted(ino, i, n), pend[i := p];
    assert Apart(ino, ino', i);
    ApartTree(ino, ino', root, at, i);
    forall j | j in ino' ensures Counted(ino', pend', j) {
      assert Counted(ino, pend, j);
      ApartRefs(ino, ino', i, j);
    }
  }

  lemma LinkedIn(ino: map<nat, Inode>, root: nat, at: map<nat, Place>, pend: map<nat, nat>, d: nat, k: nat, i: nat,
                 name: Name)
    requires Inv(ino, root, at, pend) && Linked(ino, d) && Room(ino[d].entries, k, name) && i in ino
    requires !ino[i].kind.Directory? && i in pend && pend[i] > 0
    ensures Inv(Entered(ino, d, k, Dirent(i, name)), root, at, pend[i := pend[i] - 1])
  {
    hide Tree, DotsOk;
    TreeRoot(ino, root, at);
    EnteredTree(ino, root, at, d, k, i, name);
    var ino', pend' := Entered(ino, d, k, Dirent(i, name)), pend[i := pend[i] - 1];
    hide Entered, Room, IsRef;
    forall j | j in ino' ensures Counted(ino', pend', j) {
      assert Counted(ino, pend, j);
      EnteredAt(ino, d, k, Dirent(i, name), j);
      EnteredRefs(ino, root, at, d, k, i, name, j);
    }
  }

  lemma UnlinkedInv(ino: map<nat, Inode>, root: nat, at: map<nat, Place>, pend: map<nat, nat>, d: nat, k: nat, i: nat)
    requires Inv(ino, root, at, pend) && Used(ino, d, k) && ino[d].entries[k].inum == i && i in ino
    requires (ino[i].kind.Directory? ==> Empty(ino, i))
    ensures Linked(ino, d) && ino[i].nlink >= 1 && Inv(Unlinked(ino, d, k, i), root, at, pend)
  {
    hide Tree, DotsOk;
    TreeRoot(ino, root, at);
    NamedSlot(ino, root, at, d, k);
    assert Counted(ino, pend, i) && (d, k) in Refs(ino, i);
    hide Refs;
    if ino[i].kind.Directory? {
      UnlinkedDirTree(ino, root, at, pend, d, k, i);
      OneLink(ino, root, at, pend, d, k, i);
      TwoLinks(ino, root, at, pend, d, i);
    } else {
      UnlinkedFileTree(ino, root, at, d, k, i);
    }
    var ino' := Unlinked(ino, d, k, i);
    forall j | j in ino' ensures Counted(ino', pend, j) {
      assert Counted(ino, pend, j);
      if ino[i].kind.Directory? {
        UnlinkedDirRefs(ino, root, at, pend, d, k, i, j);
      } else {
        UnlinkedRefs(ino, root, at, d, k, i, j);
      }
    }
  }

  /** iput's freeing of an inode without links. */
  lemma Dropped(ino: map<nat, Inode>, root: nat, at: map<nat, Place>, pend: map<nat, nat>, i: nat)
    requires Inv(ino, root, at, pend) && i in ino && ino[i].nlink == 0
    ensures Inv(ino - {i}, root, at, pend)
  {
    hide Tree, DotsOk;
    TreeRoot(ino, root, at);
    assert Counted(ino, pend, i) && Refs(ino, i) == {};
    var ino' := ino - {i};
    assert Apart(ino, ino', i);
    forall d: nat, k: nat ensures !IsRef(ino, i, d, k) {
      assert (d, k) !in Refs(ino, i);
    }
    ApartTree(ino, ino', root, at, i);
    forall j | j in ino' ensures Counted(ino', pend, j) {
      assert Counted(ino, pend, j);
      ApartRefs(ino, ino', i, j);
    }
  }

  // ------------------------------------------------- creating in a removed directory

  /** What create leaves on success. */
  ghost function Created(ino: map<nat, Inode>, d: nat, k: nat, i: nat, kind: Kind, name: Name): (ino': map<nat, Inode>)
    requires d in ino && k <= |ino[d].entries| && i != d
  {
    if kind.Directory? then MadeDir(ino, d, k, i, name)
    else Entered(ino[i := Inode(kind, 1, [])], d, k, Dirent(i, name))
  }

  lemma CreatedInv(ino: map<nat, Inode>, root: nat, at: map<nat, Place>, pend: map<nat, nat>, d: nat, k: nat, i: nat,
                   kind: Kind, name: Name)
    requires Inv(ino, root, at, pend) && Linked(ino, d) && Room(ino[d].entries, k, name) && i !in ino && i != 0
    ensures d in at
    ensures var at' := if kind.Directory? then at[i := Place(d, k, at[d].depth + 1)] else at;
            Inv(Created(ino, d, k, i, kind, name), root, at', pend[i := 0])
  {
    hide Inv;
    DirAt(ino, root, at, pend, d);
    if kind.Directory? {
      CreatedDir(ino, root, at, pend, d, k, i, name);
    } else {
      CreatedFile(ino, root, at, pend, d, k, i, kind, name);
    }
  }

  lemma DirAt(ino: map<nat, Inode>, root: nat, at: map<nat, Place>, pend: map<nat, nat>, d: nat)
    requires Inv(ino, root, at, pend) && Linked(ino, d)
    ensures d in at
  {
    TreeDir(ino, root, at, d);
  }

  /** With no link in progress: the counts are exact, and the directories form a tree. */
  ghost predicate Balanced(ino: map<nat, Inode>) {
    forall i :: i in ino ==> ino[i].nlink == |Refs(ino, i)|
  }

  ghost predicate Good(ino: map<nat, Inode>, root: nat) {
    Balanced(ino) && exists at :: Tree(ino, root, at)
  }

  /** A successful create keeps the accounting if and only if the parent is still linked. */
  lemma CreatedBalanced(ino: map<nat, Inode>, root: nat, d: nat, k: nat, i: nat, kind: Kind, name: Name)
    requires Good(ino, root) && d in ino && ino[d].kind.Directory? && Room(ino[d].entries, k, name) && i !in ino
    requires i != 0
    ensures Good(Created(ino, d, k, i, kind, name), root) <==> Linked(ino, d)
  {
    hide Tree, Balanced, Created, Inv;
    var at: map<nat, Place> :| Tree(ino, root, at);
    if Linked(ino, d) {
      var pend: map<nat, nat> := map j | j in ino :: 0;
      Quiet(ino, root, at, pend);
      CreatedInv(ino, root, at, pend, d, k, i, kind, name);
      var at' := if kind.Directory? then at[i := Place(d, k, at[d].depth + 1)] else at;
      GoodFrom(Created(ino, d, k, i, kind, name), root, at', pend[i := 0]);
    } else {
      CreatedBad(ino, root, at, d, k, i, kind, name);
    }
  }

  lemma CreatedBad(ino: map<nat, Inode>, root: nat, at: map<nat, Place>, d: nat, k: nat, i: nat, kind: Kind, name: Name)
    requires Tree(ino, root, at) && Balanced(ino) && d in ino && ino[d].kind.Directory? && !Linked(ino, d)
    requires Room(ino[d].entries, k, name) && i !in ino && i != 0
    ensures !Good(Created(ino, d, k, i, kind, name), root)
  {
    hide Tree, Balanced;
    if kind.Directory? {
      OutsideTree(ino, root, at, d, k, i, name);
    } else {
      Uncounted(ino, root, at, d, k, i, kind, name);
    }
  }

  lemma Quiet(ino: map<nat, Inode>, root: nat, at: map<nat, Place>, pend: map<nat, nat>)
    requires Tree(ino, root, at) && Balanced(ino) && pend == map j | j in ino :: 0
    ensures Inv(ino, root, at, pend)
  {
    hide Tree;
    forall j | j in ino ensures Counted(ino, pend, j) {
    }
  }

  lemma GoodFrom(ino: map<nat, Inode>, root: nat, at: map<nat, Place>, pend: map<nat, nat>)
    requires Inv(ino, root, at, pend) && forall j :: j in pend ==> pend[j] == 0
    ensures Good(ino, root)
  {
    hide Tree;
    forall j | j in ino ensures ino[j].nlink == |Refs(ino, j)| {
      assert Counted(ino, pend, j);
    }
  }

  /** With links in progress: the counts are exact, and the directories form a tree. */
  ghost predicate Sound(ino: map<nat, Inode>, root: nat, pend: map<nat, nat>) {
    exists at :: Inv(ino, root, at, pend)
  }

  /** Entering a new link to a file, counted beforehand, keeps the accounting if and only if
      the directory is still linked. */
  lemma LinkedBalanced(ino: map<nat, Inode>, root: nat, at: map<nat, Place>, pend: map<nat, nat>, d: nat, k: nat,
                       i: nat, name: Name)
    requires Inv(ino, root, at, pend) && d in ino && ino[d].kind.Directory? && Room(ino[d].entries, k, name)
    requires i in ino && !ino[i].kind.Directory? && i in pend && pend[i] > 0
    ensures Sound(Entered(ino, d, k, Dirent(i, name)), root, pend[i := pend[i] - 1]) <==> Linked(ino, d)
  {
    hide Tree;
    var ino', pend' := Entered(ino, d, k, Dirent(i, name)), pend[i := pend[i] - 1];
    if Linked(ino, d) {
      LinkedIn(ino, root, at, pend, d, k, i, name);
      assert Inv(ino', root, at, pend');
    } else {
      RefsSame(ino, ino', i);
      assert Counted(ino, pend, i) && !Counted(ino', pend', i);
    }
  }

  /** A file made in a removed directory has a link count of one and no link. */
  lemma Uncounted(ino: map<nat, Inode>, root: nat, at: map<nat, Place>, d: nat, k: nat, i: nat, kind: Kind, name: Name)
    requires Tree(ino, root, at) && d in ino && !Linked(ino, d) && Room(ino[d].entries, k, name) && i !in ino && i != 0
    requires !kind.Directory?
    ensures !Balanced(Entered(ino[i := Inode(kind, 1, [])], d, k, Dirent(i, name)))
  {
    hide Tree;
    Unnamed(ino, root, at, i);
    var ino' := Entered(ino[i := Inode(kind, 1, [])], d, k, Dirent(i, name));
    forall c: nat, j: nat ensures !IsRef(ino', i, c, j) {
      assert (c, j) !in Refs(ino, i);
    }
    assert Refs(ino', i) == {};
  }

  /** A directory made in a removed directory makes that one count as linked again, though no
      directory names it. */
  lemma OutsideTree(ino: map<nat, Inode>, root: nat, at: map<nat, Place>, d: nat, k: nat, i: nat, name: Name)
    requires Tree(ino, root, at) && Balanced(ino) && d in ino && ino[d].kind.Directory? && !Linked(ino, d)
    requires Room(ino[d].entries, k, name) && i !in ino && i != 0
    ensures forall at' :: !Tree(MadeDir(ino, d, k, i, name), root, at')
  {
    hide Tree, Balanced, DirOk;
    var ino' := MadeDir(ino, d, k, i, name);
    forall at' ensures !Tree(ino', root, at') {
      HangsNowhere(ino, root, at, at', d, k, i, name);
      if Tree(ino', root, at') {
        TreeDir(ino', root, at', d);
      }
    }
  }

  lemma HangsNowhere(ino: map<nat, Inode>, root: nat, at: map<nat, Place>, at': map<nat, Place>, d: nat, k: nat,
                     i: nat, name: Name)
    requires Tree(ino, root, at) && Balanced(ino) && d in ino && ino[d].kind.Directory? && !Linked(ino, d)
    requires Room(ino[d].entries, k, name) && i !in ino && i != 0
    ensures Linked(MadeDir(ino, d, k, i, name), d) && !DirOk(MadeDir(ino, d, k, i, name), root, at', d)
  {
    hide Tree, Balanced;
    TreeRoot(ino, root, at);
    MadeAt(ino, d, k, i, name, d);
    assert d != root;
    var u := if d in at' then at'[d].up else 0;
    var m := if d in at' then at'[d].slot else 0;
    NotHung(ino, root, at, d, k, i, name, u, m);
    hide MadeDir;
  }

  lemma MadeAt(ino: map<nat, Inode>, d: nat, k: nat, i: nat, name: Name, u: nat)
    requires d in ino && k <= |ino[d].entries| && i !in ino
    ensures var ino' := MadeDir(ino, d, k, i, name);
            && (u in ino' <==> u in ino || u == i)
            && (u == i ==> |ino'[u].entries| == 2)
            && (u == d ==> ino'[u] == Inode(ino[d].kind, ino[d].nlink + 1, Put(ino[d].entries, k, Dirent(i, name))))
            && (u != i && u != d && u in ino ==> ino'[u] == ino[u])
  {
  }

  ghost predicate Hung(ino: map<nat, Inode>, d: nat, u: nat, m: nat) {
    m >= 2 && Linked(ino, u) && m < |ino[u].entries| && ino[u].entries[m].inum == d
  }

  lemma NotHung(ino: map<nat, Inode>, root: nat, at: map<nat, Place>, d: nat, k: nat, i: nat, name: Name, u: nat,
                m: nat)
    requires Tree(ino, root, at) && Balanced(ino) && d in ino && ino[d].kind.Directory? && !Linked(ino, d)
    requires Room(ino[d].entries, k, name) && i !in ino && i != 0
    ensures !Hung(MadeDir(ino, d, k, i, name), d, u, m)
  {
    hide Tree, Balanced, DotsOk;
    TreeRoot(ino, root, at);
    NoRef(ino, d, u, m);
    MadeAt(ino, d, k, i, name, u);
    hide MadeDir, Refs;
    if Used(ino, u, m) {
      TreeSlot(ino, root, at, u, m);
      NamedSlot(ino, root, at, u, m);
    }
  }

  lemma NoRef(ino: map<nat, Inode>, d: nat, u: nat, m: nat)
    requires Balanced(ino) && d in ino && ino[d].nlink == 0
    ensures !IsRef(ino, d, u, m)
  {
    assert Refs(ino, d) == {};
    assert (u, m) !in Refs(ino, d);
  }

  /** An entry of a linked directory names an inode that exists. */
  lemma EntryNames(ino: map<nat, Inode>, root: nat, at: map<nat, Place>, pend: map<nat, nat>, d: nat, k: nat)
    requires Inv(ino, root, at, pend) && d in ino && ino[d].kind.Directory? && k < |ino[d].entries|
    requires ino[d].entries[k].inum != 0
    ensures Linked(ino, d) || k >= 2 ==> ino[d].entries[k].inum in ino
    ensures k >= 2 ==> Used(ino, d, k)
  {
    if k >= 2 {
      assert Used(ino, d, k);
      TreeSlot(ino, root, at, d, k);
    } else if Linked(ino, d) {
      TreeDir(ino, root, at, d);
    }
  }

  // --------------------------------------------------------------- the first states

  function RootEntries(names: seq<Name>, spare: nat): (es: seq<Dirent>)
    ensures |es| == 2 + |names| + spare
    ensures es[0] == Dirent(1, Dot()) && es[1] == Dirent(1, DotDot())
    ensures forall k :: 2 <= k < 2 + |names| ==> es[k] == Dirent(k, names[k - 2])
    ensures forall k :: 2 + |names| <= k < |es| ==> es[k].inum == 0
  {
    [Dirent(1, Dot()), Dirent(1, DotDot())] + seq(|names|, k requires 0 <= k < |names| => Dirent(2 + k, names[k]))
    + seq(spare, _ => Dirent(0, Name("")))
  }

  function FirstInode(names: seq<Name>, spare: nat, i: nat): (x: Inode) {
    if i == 1 then Inode(Directory, 1, RootEntries(names, spare)) else Inode(File, 1, [])
  }

  /** The inodes of the image that mkfs makes: the root, with free slots up to its size, and
      the files. */
  function Built(names: seq<Name>, spare: nat): (ino: map<nat, Inode>) {
    map i: nat | 1 <= i < 2 + |names| :: FirstInode(names, spare, i)
  }

  ghost predicate NewNames(names: seq<Name>) {
    && (forall j :: 0 <= j < |names| ==> names[j] != Dot() && names[j] != DotDot())
    && (forall j, k :: 0 <= k < j < |names| ==> names[k] != names[j])
  }

  /** The image that mkfs makes satisfies the invariant if and only if the names of the files
      are different, and none is "." or "..". */
  lemma BuiltIff(names: seq<Name>, spare: nat)
    ensures Inv(Built(names, spare), 1, map[1 := Place(1, 0, 0)], map i | i in Built(names, spare) :: 0)
            <==> NewNames(names)
  {
    hide Tree, Accounted, NewNames, Built;
    if NewNames(names) {
      BuiltInv(names, spare);
    } else {
      BuiltBad(names, spare);
    }
  }

  lemma BuiltBad(names: seq<Name>, spare: nat)
    requires !NewNames(names)
    ensures !Tree(Built(names, spare), 1, map[1 := Place(1, 0, 0)])
  {
    hide RootEntries;
    var ino := Built(names, spare);
    var es := ino[1].entries;
    if j :| 0 <= j < |names| && (names[j] == Dot() || names[j] == DotDot()) {
      assert Used(ino, 1, 2 + j) && es[2 + j].name == names[j];
    } else {
      var j, k :| 0 <= k < j < |names| && names[k] == names[j];
      assert es[2 + k].name == es[2 + j].name;
    }
  }

  /** The image that mkfs makes of files with different names satisfies the invariant. */
  lemma BuiltInv(names: seq<Name>, spare: nat)
    requires NewNames(names)
    ensures Inv(Built(names, spare), 1, map[1 := Place(1, 0, 0)], map i | i in Built(names, spare) :: 0)
  {
    hide Tree, Counted, Built;
    var ino := Built(names, spare);
    var pend: map<nat, nat> := map i | i in ino :: 0;
    BuiltTree(names, spare);
    forall i ensures Counted(ino, pend, i) {
      BuiltCounts(names, spare, pend, i);
    }
  }

  lemma BuiltTree(names: seq<Name>, spare: nat)
    requires NewNames(names)
    ensures Tree(Built(names, spare), 1, map[1 := Place(1, 0, 0)])
  {
    hide RootEntries;
    assert forall d :: Linked(Built(names, spare), d) ==> d == 1;
  }

  lemma BuiltCounts(names: seq<Name>, spare: nat, pend: map<nat, nat>, i: nat)
    requires NewNames(names) && pend == map i | i in Built(names, spare) :: 0
    ensures Counted(Built(names, spare), pend, i)
  {
    hide RootEntries;
    var ino := Built(names, spare);
    if i in ino {
      var x: (nat, nat) := (1, i);
      forall d: nat, k: nat ensures IsRef(ino, i, d, k) <==> (d, k) == x {}
      assert Refs(ino, i) == {x};
    }
  }

  /** A state with a removed directory, in which create and link can be called. */
  lemma RemovedExists()
    ensures exists ino: map<nat, Inode> ::
              Good(ino, 1) && Removed(ino, 2) && Room(ino[2].entries, 2, Name("f")) && 3 !in ino
  {
    hide Good;
    var ino := WithRemoved();
    RemovedGood(ino);
    FromName();
    assert Good(ino, 1) && Removed(ino, 2) && Room(ino[2].entries, 2, Name("f")) && 3 !in ino;
  }

  function WithRemoved(): (ino: map<nat, Inode>) {
    map[1 := Inode(Directory, 1, [Dirent(1, Dot()), Dirent(1, DotDot())]),
        2 := Inode(Directory, 0, [Dirent(2, Dot()), Dirent(1, DotDot())])]
  }

  lemma RemovedGood(ino: map<nat, Inode>)
    requires ino == WithRemoved()
    ensures Good(ino, 1)
  {
    assert Tree(ino, 1, map[1 := Place(1, 0, 0)]);
    hide Tree;
    assert Refs(ino, 1) == {(1, 1)};
    assert Refs(ino, 2) == {};
  }

  lemma FromName()
    ensures Name("f") != Dot() && Name("f") != DotDot()
  {
    assert "f"[0] != "."[0] && "f"[0] != ".."[0];
  }

  /** A directory that some process still has open or as its current one. */
  ghost predicate Removed(ino: map<nat, Inode>, d: nat) {
    d in ino && ino[d].kind.Directory? && ino[d].nlink == 0
  }

  // ----------------------------------------------------------------- the operations

  class Dirs {
    const root: nat
    const ninodes: nat
    var ino: map<nat, Inode>
    ghost var at: map<nat, Place>
    ghost var pend: map<nat, nat>

    /** As mkfs leaves it. */
    constructor (names: seq<Name>, spare: nat, ninodes: nat)
      ensures (Valid() <==> NewNames(names)) && root == 1 && ino == Built(names, spare) && this.ninodes == ninodes
    {
      root, this.ninodes := 1, ninodes;
      ino := Built(names, spare);
      at := map[1 := Place(1, 0, 0)];
      pend := map i | i in Built(names, spare) :: 0;
      new;
      BuiltIff(names, spare);
    }

    ghost predicate Valid()
      reads this
    {
      Inv(ino, root, at, pend)
    }

    ghost predicate IsDir(d: nat)
      reads this
    {
      d in ino && ino[d].kind.Directory?
    }

    /** dirlookup: the first used slot with this name, or -1. */
    method DirLookup(d: nat, name: Name) returns (k: int)
      requires IsDir(d)
      ensures k == -1 || (0 <= k < |ino[d].entries| && ino[d].entries[k].inum != 0 && ino[d].entries[k].name == name)
      ensures forall j :: 0 <= j < (if k == -1 then |ino[d].entries| else k) ==>
                ino[d].entries[j].inum == 0 || ino[d].entries[j].name != name
    {
      k := 0;
      while k < |ino[d].entries|
        invariant 0 <= k <= |ino[d].entries|
        invariant forall j :: 0 <= j < k ==> ino[d].entries[j].inum == 0 || ino[d].entries[j].name != name
      {
        if ino[d].entries[k].inum != 0 && ino[d].entries[k].name == name {
          return;
        }
        k := k + 1;
      }
      k := -1;
    }

    /** dirlink: enter a new name in the first free slot; full says whether writei fails. */
    method DirLink(d: nat, name: Name, inum: nat, full: bool) returns (ok: bool, ghost k: nat)
      requires IsDir(d)
      modifies this`ino
      ensures !ok ==> ino == old(ino)
      ensures ok ==>
                && d in old(ino) && Room(old(ino)[d].entries, k, name)
                && ino == Entered(old(ino), d, k, Dirent(inum, name))
                && forall j :: 0 <= j < k ==> old(ino)[d].entries[j].inum != 0
      ensures ok <==> !full && NoEntry(old(ino)[d].entries, name)
    {
      k := 0;
      var found := DirLookup(d, name);
      if found >= 0 {
        return false, 0;
      }
      var off := 0;
      while off < |ino[d].entries| && ino[d].entries[off].inum != 0
        invariant 0 <= off <= |ino[d].entries| && forall j :: 0 <= j < off ==> ino[d].entries[j].inum != 0
      {
        off := off + 1;
      }
      if full {
        return false, 0;
      }
      k := off;
      ino := ino[d := ino[d].(entries := Put(ino[d].entries, off, Dirent(inum, name)))];
      ok := true;
    }

    /** ialloc: the first free inode, or 0. */
    method Ialloc(kind: Kind) returns (i: nat)
      modifies this`ino
      ensures i == 0 ==> ino == old(ino) && forall j :: 1 <= j < ninodes ==> j in ino
      ensures i != 0 ==> i < ninodes && i !in old(ino) && ino == old(ino)[i := Inode(kind, 0, [])]
    {
      i := 1;
      while i < ninodes
        invariant 1 <= i && ino == old(ino) && forall j :: 1 <= j < i && j < ninodes ==> j in ino
        decreases ninodes - i
      {
        if i !in ino {
          ino := ino[i := Inode(kind, 0, [])];
          return;
        }
        i := i + 1;
      }
      i := 0;
    }

    /** create, in the directory dp: the inode, or 0. The invariant is kept if dp is linked;
        see CreatedBalanced for when it is not. */
    method Create(dp: nat, name: Name, kind: Kind, full: (bool, bool, bool)) returns (r: nat)
      requires Valid() && IsDir(dp)
      modifies this
      ensures r == 0 ==> ino == old(ino) && Valid()
      ensures NoEntry(old(ino)[dp].entries, name) ==>
                (r == 0 <==> || (kind.Directory? && (full.0 || full.1)) || full.2
                             || forall j :: 1 <= j < ninodes ==> j in old(ino))
      ensures !NoEntry(old(ino)[dp].entries, name) ==> r == 0 || r in old(ino)
      ensures !NoEntry(old(ino)[dp].entries, name) && kind.File? && r == 0 ==>
                exists k: nat :: EntryFor(ino, dp, k, name) && !IsFile(ino, ino[dp].entries[k].inum)
      ensures r != 0 && r in old(ino) ==> ino == old(ino) && Valid() && kind.File? && !ino[r].kind.Directory?
      ensures r != 0 ==> exists k: nat :: NamedAt(ino, dp, k, Dirent(r, name))
      ensures r != 0 && r !in old(ino) ==>
                r < ninodes && dp in old(ino) && r != dp && (Linked(old(ino), dp) ==> Valid())
      ensures r != 0 && r !in old(ino) ==>
                exists k :: Room(old(ino)[dp].entries, k, name) && ino == Created(old(ino), dp, k, r, kind, name)
      ensures r != 0 && r !in old(ino) ==>
                && r in ino && ino[r].kind == kind && ino[r].nlink == 1
                && ino[r].entries == if kind.Directory? then [Dirent(r, Dot()), Dirent(dp, DotDot())] else []
    {
      hide Inv;
      var k := DirLookup(dp, name);
      if k >= 0 {
        var ip := ino[dp].entries[k].inum;
        EntryNames(ino, root, at, pend, dp, k);
        if ip in ino && kind.File? && (ino[ip].kind.File? || ino[ip].kind.Device?) {
          assert NamedAt(ino, dp, k, Dirent(ip, name));
          return ip;
        }
        assert EntryFor(ino, dp, k, name);
        return 0;
      }
      ghost var ino0 := ino;
      var i := Ialloc(kind);
      if i == 0 {
        return 0;
      }
      var ok;
      ghost var w;
      ok, w := Fill(dp, name, i, kind, full, ino0);
      if !ok {
        return 0;
      }
      CreatedNames(ino0, dp, w, i, kind, name);
      if Linked(ino0, dp) {
        CreatedInv(ino0, root, at, pend, dp, w, i, kind, name);
        if kind.Directory? {
          at := at[i := Place(dp, w, at[dp].depth + 1)];
        }
        pend := pend[i := 0];
      }
      assert NamedAt(ino, dp, w, Dirent(i, name));
      return i;
    }

    /** create's last part: the new inode's first entries, its name, and the way out. */
    method Fill(dp: nat, name: Name, i: nat, kind: Kind, full: (bool, bool, bool),
                ghost ino0: map<nat, Inode>) returns (ok: bool, ghost w: nat)
      requires dp in ino0 && ino0[dp].kind.Directory? && i !in ino0 && i != 0 && ino == ino0[i := Inode(kind, 0, [])]
      modifies this`ino
      ensures !ok ==> ino == ino0
      ensures ok <==> (kind.Directory? ==> !full.0 && !full.1) && !full.2 && NoEntry(ino0[dp].entries, name)
      ensures ok ==> Room(ino0[dp].entries, w, name) && ino == Created(ino0, dp, w, i, kind, name)
    {
      w := 0;
      ino := ino[i := ino[i].(nlink := 1)];
      ok := true;
      if kind.Directory? {
        ok := Dots(i, dp, full.0, full.1);
      }
      ghost var es := if kind.Directory? then [Dirent(i, Dot()), Dirent(dp, DotDot())] else [];
      if ok {
        assert ino == ino0[i := Inode(kind, 1, es)];
        ok, w := DirLink(dp, name, i, full.2);
      }
      if !ok {
        ino := ino[i := ino[i].(nlink := 0)];
        ino := ino - {i};
        assert ino == ino0;
        return false, 0;
      }
      if kind.Directory? {
        ino := ino[dp := ino[dp].(nlink := ino[dp].nlink + 1)];
      }
      assert ino == Created(ino0, dp, w, i, kind, name);
    }

    /** "." and ".." of a new directory. */
    method Dots(i: nat, dp: nat, full0: bool, full1: bool) returns (ok: bool)
      requires i in ino && ino[i] == Inode(Directory, 1, []) && i != 0
      modifies this`ino
      ensures i in ino && ino == old(ino)[i := ino[i]] && (ok <==> !full0 && !full1)
      ensures ok ==> ino[i] == Inode(Directory, 1, [Dirent(i, Dot()), Dirent(dp, DotDot())])
    {
      ghost var w;
      ok, w := DirLink(i, Dot(), i, full0);
      if ok {
        assert ino[i] == Inode(Directory, 1, [Dirent(i, Dot())]);
        ok, w := DirLink(i, DotDot(), dp, full1);
      }
    }

    /** sys_link up to the point where it lets go of the inode. */
    method LinkBegin(ip: nat) returns (ok: bool)
      requires Valid() && ip in ino
      modifies this
      ensures Valid() && (ok <==> !old(ino)[ip].kind.Directory?)
      ensures !ok ==> ino == old(ino) && pend == old(pend)
      ensures ok ==>
                ip in old(pend) && ino == Recounted(old(ino), ip, old(ino)[ip].nlink + 1)
                  && pend == old(pend)[ip := old(pend)[ip] + 1]
    {
      hide Inv, Recounted, Counted;
      if ino[ip].kind.Directory? {
        return false;
      }
      PendingOf(ino, root, at, pend, ip);
      Counting(ino, root, at, pend, ip, ino[ip].nlink + 1, pend[ip] + 1);
      ino := Recounted(ino, ip, ino[ip].nlink + 1);
      pend := pend[ip := pend[ip] + 1];
      ok := true;
    }

    /** The rest of sys_link, in the directory dp, with its way out. A new entry keeps the
        invariant exactly if dp is still linked. */
    method LinkEnd(dp: nat, name: Name, ip: nat, full: bool) returns (ok: bool)
      requires Valid() && IsDir(dp) && ip in ino && !ino[ip].kind.Directory? && ip in pend && pend[ip] > 0
      modifies this
      ensures pend == old(pend)[ip := old(pend)[ip] - 1] && (!ok || Linked(old(ino), dp) ==> Valid())
      ensures ok ==> (Sound(ino, root, pend) <==> Linked(old(ino), dp))
      ensures ok ==> exists k: nat :: NamedAt(ino, dp, k, Dirent(ip, name))
      ensures ok <==> !full && NoEntry(old(ino)[dp].entries, name)
      ensures !ok ==> old(ino)[ip].nlink > 0 && ino == Recounted(old(ino), ip, old(ino)[ip].nlink - 1)
      ensures ok ==>
                dp in old(ino) && exists k ::
                  Room(old(ino)[dp].entries, k, name) && ino == Entered(old(ino), dp, k, Dirent(ip, name))
    {
      hide Inv, Counted, Entered, Room, Recounted;
      PendingOf(ino, root, at, pend, ip);
      ghost var ino0, k := ino, 0;
      ok, k := DirLink(dp, name, ip, full);
      if !ok {
        Counting(ino, root, at, pend, ip, ino[ip].nlink - 1, pend[ip] - 1);
        ino := Recounted(ino, ip, ino[ip].nlink - 1);
      } else {
        assert Room(ino0[dp].entries, k, name) && ino == Entered(ino0, dp, k, Dirent(ip, name));
        EnteredNames(ino0, dp, k, Dirent(ip, name));
        LinkedBalanced(ino0, root, at, pend, dp, k, ip, name);
        if Linked(ino0, dp) {
          LinkedIn(ino0, root, at, pend, dp, k, ip, name);
        }
      }
      pend := pend[ip := pend[ip] - 1];
    }

    /** isdirempty. */
    method IsDirEmpty(d: nat) returns (b: bool)
      requires IsDir(d)
      ensures b <==> Empty(ino, d)
    {
      var off := 2;
      while off < |ino[d].entries|
        invariant 2 <= off && forall k :: 2 <= k < off && k < |ino[d].entries| ==> ino[d].entries[k].inum == 0
      {
        if ino[d].entries[off].inum != 0 {
          return false;
        }
        off := off + 1;
      }
      return true;
    }

    /** unlink; its panic is excluded, because an entry is a link. */
    method Unlink(dp: nat, name: Name) returns (ok: bool)
      requires Valid() && IsDir(dp)
      modifies this`ino
      ensures Valid() && (!ok ==> ino == old(ino))
      ensures !ok && name != Dot() && name != DotDot() && !NoEntry(ino[dp].entries, name) ==>
                exists k: nat :: EntryFor(ino, dp, k, name) && !IsFile(ino, ino[dp].entries[k].inum)
                  && !Empty(ino, ino[dp].entries[k].inum)
      ensures ok ==> Linked(old(ino), dp) && exists k :: WasUnlinked(old(ino), ino, dp, k, name)
      ensures ok ==> dp in ino && NoEntry(ino[dp].entries, name)
    {
      if name == Dot() || name == DotDot() {
        return false;
      }
      hide Inv, Tree, Accounted;
      DotsAt(ino, root, at, pend, dp);
      var k := DirLookup(dp, name);
      if k < 0 {
        return false;
      }
      ghost var ino0 := ino;
      var ip := ino[dp].entries[k].inum;
      EntryNames(ino, root, at, pend, dp, k);
      if ino[ip].kind.Directory? {
        var empty := IsDirEmpty(ip);
        if !empty {
          assert EntryFor(ino, dp, k, name);
          return false;
        }
      }
      UnlinkedInv(ino, root, at, pend, dp, k, ip);
      NameGone(ino, root, at, pend, dp, k);
      OtherInode(ino, root, at, pend, dp, k);
      ino := ino[dp := ino[dp].(entries := ino[dp].entries[k := Dirent(0, Name(""))])];
      if ino[ip].kind.Directory? {
        ino := ino[dp := ino[dp].(nlink := ino[dp].nlink - 1)];
      }
      ino := ino[ip := ino[ip].(nlink := ino[ip].nlink - 1)];
      assert WasUnlinked(ino0, ino, dp, k, name);
      ok := true;
    }

    /** iput, of the last reference to an inode without links. */
    method Iput(i: nat)
      requires Valid() && i in ino && ino[i].nlink == 0
      modifies this`ino
      ensures Valid() && ino == old(ino) - {i}
    {
      hide Inv;
      Dropped(ino, root, at, pend, i);
      ino := ino - {i};
    }
  }

  /** Slot k of d has this entry. */
  ghost predicate NamedAt(ino: map<nat, Inode>, d: nat, k: nat, e: Dirent) {
    d in ino && k < |ino[d].entries| && ino[d].entries[k] == e
  }

  lemma EnteredNames(ino: map<nat, Inode>, d: nat, k: nat, e: Dirent)
    requires d in ino && k <= |ino[d].entries|
    ensures NamedAt(Entered(ino, d, k, e), d, k, e)
  {
  }

  lemma CreatedNames(ino: map<nat, Inode>, d: nat, k: nat, i: nat, kind: Kind, name: Name)
    requires d in ino && k <= |ino[d].entries| && i != d
    ensures NamedAt(Created(ino, d, k, i, kind, name), d, k, Dirent(i, name))
  {
  }

  ghost predicate EntryFor(ino: map<nat, Inode>, d: nat, k: nat, name: Name) {
    d in ino && k < |ino[d].entries| && ino[d].entries[k].inum != 0 && ino[d].entries[k].name == name
  }

  ghost predicate IsFile(ino: map<nat, Inode>, i: nat) {
    i in ino && !ino[i].kind.Directory?
  }

  ghost predicate WasUnlinked(ino: map<nat, Inode>, ino': map<nat, Inode>, d: nat, k: nat, name: Name) {
    && d in ino && 2 <= k < |ino[d].entries| && ino[d].entries[k].name == name && ino[d].entries[k].inum in ino
    && (ino[ino[d].entries[k].inum].kind.Directory? ==> Empty(ino, ino[d].entries[k].inum))
    && ino' == Unlinked(ino, d, k, ino[d].entries[k].inum)
  }

  lemma PendingOf(ino: map<nat, Inode>, root: nat, at: map<nat, Place>, pend: map<nat, nat>, i: nat)
    requires Inv(ino, root, at, pend) && i in ino
    ensures i in pend && pend[i] <= ino[i].nlink
  {
    hide Tree;
    assert Counted(ino, pend, i);
  }

  lemma NameGone(ino: map<nat, Inode>, root: nat, at: map<nat, Place>, pend: map<nat, nat>, d: nat, k: nat)
    requires Inv(ino, root, at, pend) && Used(ino, d, k)
    ensures NoEntry(ino[d].entries[k := Dirent(0, Name(""))], ino[d].entries[k].name)
  {
    TreeSlot(ino, root, at, d, k);
    TreeDir(ino, root, at, d);
  }

  lemma DotsAt(ino: map<nat, Inode>, root: nat, at: map<nat, Place>, pend: map<nat, nat>, d: nat)
    requires Inv(ino, root, at, pend) && d in ino && ino[d].kind.Directory?
    ensures |ino[d].entries| >= 2 && ino[d].entries[0].name == Dot() && ino[d].entries[1].name == DotDot()
  {
    TreeRoot(ino, root, at);
  }

  lemma OtherInode(ino: map<nat, Inode>, root: nat, at: map<nat, Place>, pend: map<nat, nat>, d: nat, k: nat)
    requires Inv(ino, root, at, pend) && Used(ino, d, k)
    ensures ino[d].entries[k].inum != d
  {
    TreeSlot(ino, root, at, d, k);
    TreeDir(ino, root, at, d);
  }
}
