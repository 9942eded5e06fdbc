/**
 The link count of an inode is a 16-bit signed field. What the directory code computes with
 it, when that is the number of links, and what the tests on it do when it is not.
 */
module LinkCount {

  import opened Dir

  const MAXLINK := 0x7fff
  const WRAP := 0x1_0000

  /** The value of a 16-bit signed field that n was stored to. */
  function Short(n: int): (r: int)
    ensures -0x8000 <= r <= MAXLINK
  {
    (n + 0x8000) % WRAP - 0x8000
  }

  /** What create, link, unlink and their ways out do to a count. */
  datatype Change = Store(n: nat) | Up | Down

  ghost function Exact(cs: seq<Change>): (n: int) {
    if cs == [] then 0
    else match cs[|cs| - 1]
      case Store(n) => n
      case Up => Exact(cs[..|cs| - 1]) + 1
      case Down => Exact(cs[..|cs| - 1]) - 1
  }

  ghost function Field(cs: seq<Change>): (n: int) {
    if cs == [] then 0
    else match cs[|cs| - 1]
      case Store(n) => Short(n)
      case Up => Short(Field(cs[..|cs| - 1]) + 1)
      case Down => Short(Field(cs[..|cs| - 1]) - 1)
  }

  /** After any changes the field has the exact count, wrapped once; so it is right again
      whenever the count is back in range. */
  lemma {:induction false} FieldWraps(cs: seq<Change>)
    ensures Field(cs) == Short(Exact(cs))
  {
    if cs != [] {
      var n := Exact(cs[..|cs| - 1]);
      FieldWraps(cs[..|cs| - 1]);
      Steps(n);
    }
  }

  lemma Steps(n: int)
    ensures Short(Short(n) + 1) == Short(n + 1) && Short(Short(n) - 1) == Short(n - 1)
  {
    var r := (n + 0x8000) % 0x1_0000;
    assert (n + 1 + 0x8000) % 0x1_0000 == (r + 1) % 0x1_0000;
    assert (n - 1 + 0x8000) % 0x1_0000 == (r - 1) % 0x1_0000;
  }

  lemma ShortIs(n: nat)
    ensures Short(n) == n <==> n <= MAXLINK
    ensures Short(n) == if n % WRAP <= MAXLINK then n % WRAP else n % WRAP - WRAP
  {
    var q, r := n / 0x1_0000, n % 0x1_0000;
    assert n == q * 0x1_0000 + r;
  }

  /** Every field has the exact count. */
  ghost predicate Fit(ino: map<nat, Inode>) {
    forall i :: i in ino ==> Short(ino[i].nlink) == ino[i].nlink
  }

  /** The fields are exact if and only if no inode has more than MAXLINK entries and links in
      progress. */
  lemma FitIff(ino: map<nat, Inode>, root: nat, at: map<nat, Place>, pend: map<nat, nat>)
    requires Inv(ino, root, at, pend)
    ensures Fit(ino) <==> forall i :: i in ino ==> i in pend && |Refs(ino, i)| + pend[i] <= MAXLINK
  {
    hide Short, Tree;
    forall i | i in ino
      ensures i in pend && (Short(ino[i].nlink) == ino[i].nlink <==> |Refs(ino, i)| + pend[i] <= MAXLINK)
    {
      assert Counted(ino, pend, i);
      ShortIs(ino[i].nlink);
    }
  }

  /** link keeps the fields exact if and only if the file has fewer than MAXLINK links. */
  lemma LinkFits(ino: map<nat, Inode>, i: nat)
    requires Fit(ino) && i in ino
    ensures Fit(Recounted(ino, i, ino[i].nlink + 1)) <==> ino[i].nlink < MAXLINK
  {
    hide Short;
    var n, ino' := ino[i].nlink, Recounted(ino, i, ino[i].nlink + 1);
    ShortIs(n + 1);
    assert i in ino' && ino'[i].nlink == n + 1;
  }

  /** create keeps them exact if and only if it makes a file, or the parent has fewer than
      MAXLINK links. */
  lemma CreateFits(ino: map<nat, Inode>, d: nat, k: nat, i: nat, kind: Kind, name: Name)
    requires Fit(ino) && d in ino && k <= |ino[d].entries| && i !in ino
    ensures Fit(Created(ino, d, k, i, kind, name)) <==> !kind.Directory? || ino[d].nlink < MAXLINK
  {
    hide Short;
    var ino' := Created(ino, d, k, i, kind, name);
    ShortIs(1);
    ShortIs(ino[d].nlink + 1);
    assert d in ino' && i in ino';
  }

  /** unlink keeps them exact. */
  lemma UnlinkFits(ino: map<nat, Inode>, d: nat, k: nat, i: nat)
    requires Fit(ino) && d in ino && i in ino && k < |ino[d].entries|
    ensures Fit(Unlinked(ino, d, k, i))
  {
    hide Short;
    forall j | j in ino ensures ino[j].nlink <= MAXLINK {
      ShortIs(ino[j].nlink);
    }
    var ino' := Unlinked(ino, d, k, i);
    forall j | j in ino' ensures Short(ino'[j].nlink) == ino'[j].nlink {
      ShortIs(ino'[j].nlink);
    }
  }

  /** An entry is a link, but unlink's test of the field finds none, and panics, if and only
      if the count, wrapped, is 0 or negative. Up to MAXLINK links it does not panic. */
  lemma UnlinkPanicsIff(ino: map<nat, Inode>, root: nat, at: map<nat, Place>, pend: map<nat, nat>, d: nat, k: nat)
    requires Inv(ino, root, at, pend) && Used(ino, d, k)
    ensures ino[d].entries[k].inum in ino
    ensures var n := ino[ino[d].entries[k].inum].nlink;
            n >= 1 && (Short(n) < 1 <==> n % WRAP == 0 || n % WRAP > MAXLINK) && (n <= MAXLINK ==> Short(n) == n)
  {
    hide Short, Tree;
    TreeSlot(ino, root, at, d, k);
    NamedSlot(ino, root, at, d, k);
    var i := ino[d].entries[k].inum;
    assert Counted(ino, pend, i) && (d, k) in Refs(ino, i);
    ShortIs(ino[i].nlink);
  }

  /** iput frees an inode that still has links if and only if their number is a multiple of
      2^16. */
  lemma FreesLinkedIff(n: nat)
    ensures Short(n) == 0 && n > 0 <==> n > 0 && n % WRAP == 0
  {
    hide Short;
    ShortIs(n);
  }

  /** A file with MAXLINK links: one more, and its count is negative, so that unlink panics. */
  lemma OneTooMany(ino: map<nat, Inode>, i: nat)
    requires Fit(ino) && i in ino && ino[i].nlink == MAXLINK
    ensures Short(Recounted(ino, i, ino[i].nlink + 1)[i].nlink) == -0x8000
  {
    hide Short;
    ShortIs(MAXLINK + 1);
  }
}
