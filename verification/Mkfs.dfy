/**
 mkfs: lays out an empty image, copies files into it, marks the used blocks, and so
 establishes the invariant that the kernel's block code keeps.
 */
module Mkfs {
  import opened Blocks
  import opened Bitmap
  import opened FsBlocks

  const FSSIZE := 2000
  const NINODES := 200
  const NLOG := 30
  const NINODEBLOCKS := NINODES / IPB + 1
  const NBITMAP := FSSIZE / BPB + 1
  const NMETA := 2 + NLOG + NINODEBLOCKS + NBITMAP
  const ROOTINO := 1
  const T_DIR := 1
  const T_FILE := 2
  const DIRSIZ := 14
  const DOT: byte := 46

  function Layout(): (sb: Super)
    ensures sb.Valid()
  {
    Super(FSSIZE, 2 + NLOG, 2 + NLOG + NINODEBLOCKS, NMETA)
  }

  function NoAddrs(): (a: seq<nat>) {
    seq(NDIRECT + 1, _ => 0)
  }

  /** Data blocks of a file of n bytes. */
  function Ceil(n: nat): (m: nat) {
    (n + BSIZE - 1) / BSIZE
  }

  lemma CeilIs(off: nat, n: nat)
    requires 0 < n && off % BSIZE + n <= BSIZE
    ensures Ceil(off + n) == off / BSIZE + 1 && Ceil(off) == off / BSIZE + if off % BSIZE == 0 then 0 else 1
  {
  }

  /** Blocks of a file with m data blocks, its indirect block included. */
  function Cost(m: nat): (c: nat) {
    if NDIRECT < m then m + 1 else m
  }

  /** Blocks of all the files. */
  function Total(files: seq<seq<byte>>): (c: nat) {
    if files == [] then 0 else Total(files[..|files| - 1]) + Cost(Ceil(|files[|files| - 1]|))
  }

  lemma {:induction false} TotalChange(files: seq<seq<byte>>, i: nat, f: seq<byte>)
    requires i < |files|
    ensures Total(files[i := f]) == Total(files) - Cost(Ceil(|files[i]|)) + Cost(Ceil(|f|))
  {
    var n := |files| - 1;
    var files' := files[i := f];
    if i < n {
      TotalChange(files[..n], i, f);
      assert files'[..n] == files[..n][i := f];
    } else {
      assert files'[..n] == files[..n];
    }
  }

  // ------------------------------------------------------- the image being built

  /** The blocks in use are datastart, ..., fb - 1; the rest are zero. */
  ghost predicate Laid(sb: Super, inodes: seq<Inode>, blk: seq<Block>, owner: map<nat, Slot>, fb: nat) {
    && Shape(sb, inodes, blk) && Owned(sb, inodes, blk, owner)
    && sb.datastart <= fb <= sb.size
    && (forall a :: a in owner <==> sb.datastart <= a < fb)
    && (forall b :: fb <= b < sb.size ==> blk[b] == Zero())
  }

  /** Just the first m data blocks are there, and the indirect block if `table`. */
  ghost predicate Tight(ino: Inode, blk: seq<Block>, m: nat, table: bool)
    requires |ino.addrs| == NDIRECT + 1
  {
    && (ino.addrs[NDIRECT] != 0 <==> table)
    && forall bn: nat :: bn < MAXFILE ==> (Addr(ino, blk, SlotOf(bn)) != 0 <==> bn < m)
  }

  /** The bytes of the inode's blocks are data, then zeros. */
  ghost predicate Holds(ino: Inode, blk: seq<Block>, data: seq<byte>)
    requires |ino.addrs| == NDIRECT + 1
  {
    forall p: nat :: p < MAXFILE * BSIZE ==> ByteAt(ino, blk, p) == Padded(data, p)
  }

  function Padded(data: seq<byte>, p: nat): (b: byte) {
    if p < |data| then data[p] else 0
  }

  ghost predicate Tidy(ino: Inode, blk: seq<Block>, data: seq<byte>) {
    && |ino.addrs| == NDIRECT + 1 && |data| <= MAXFILE * BSIZE
    && Tight(ino, blk, Ceil(|data|), NDIRECT < Ceil(|data|))
    && Holds(ino, blk, data)
  }

  ghost predicate FilesOk(inodes: seq<Inode>, blk: seq<Block>, files: seq<seq<byte>>) {
    |files| == |inodes| && forall i :: 0 <= i < |inodes| ==> Tidy(inodes[i], blk, files[i])
  }

  /** Same slots, same bytes. */
  ghost predicate Same(ino: Inode, blk: seq<Block>, ino': Inode, blk': seq<Block>) {
    && |ino.addrs| == NDIRECT + 1 && |ino'.addrs| == NDIRECT + 1
    && (forall k :: 0 <= k < NSLOTS ==> Addr(ino', blk', k) == Addr(ino, blk, k))
    && BytesKept(ino, blk, ino', blk')
  }

  /** The inodes other than i are untouched. */
  ghost predicate OthersSame(inodes: seq<Inode>, blk: seq<Block>, inodes': seq<Inode>, blk': seq<Block>, i: nat) {
    |inodes'| == |inodes| && forall j :: 0 <= j < |inodes| && j != i ==>
        inodes'[j] == inodes[j] && Same(inodes[j], blk, inodes'[j], blk')
  }

  lemma OthersThen(inodes: seq<Inode>, blk: seq<Block>, inodes1: seq<Inode>, blk1: seq<Block>, inodes2: seq<Inode>,
                   blk2: seq<Block>, i: nat)
    requires OthersSame(inodes, blk, inodes1, blk1, i) && OthersSame(inodes1, blk1, inodes2, blk2, i)
    ensures OthersSame(inodes, blk, inodes2, blk2, i)
  {
    hide Addr, ByteAt;
    forall j | 0 <= j < |inodes| && j != i ensures inodes2[j] == inodes[j] && Same(inodes[j], blk, inodes2[j], blk2) {
      assert Same(inodes[j], blk, inodes1[j], blk1) && Same(inodes1[j], blk1, inodes2[j], blk2);
    }
  }

  lemma SameOk(ino: Inode, blk: seq<Block>, ino': Inode, blk': seq<Block>, data: seq<byte>)
    requires Same(ino, blk, ino', blk') && Tidy(ino, blk, data)
    ensures Tidy(ino', blk', data)
  {
    hide ByteAt, Padded, Ceil, Entry;
    assert Addr(ino', blk', NDIRECT) == Addr(ino, blk, NDIRECT);
    hide Addr;
  }

  lemma OthersOk(inodes: seq<Inode>, blk: seq<Block>, inodes': seq<Inode>, blk': seq<Block>, files: seq<seq<byte>>,
                 i: nat, f: seq<byte>)
    requires FilesOk(inodes, blk, files) && OthersSame(inodes, blk, inodes', blk', i) && i < |inodes|
    requires Tidy(inodes'[i], blk', f)
    ensures FilesOk(inodes', blk', files[i := f])
  {
    hide Tidy, Same;
    forall j | 0 <= j < |inodes| ensures Tidy(inodes'[j], blk', files[i := f][j]) {
      if j != i {
        SameOk(inodes[j], blk, inodes'[j], blk', files[j]);
      }
    }
  }

  // --------------------------------------------------------- taking one block

  /** Slot s gets block fb, the next free one. */
  ghost predicate Took(sb: Super, inodes: seq<Inode>, blk: seq<Block>, owner: map<nat, Slot>, fb: nat,
                       inodes': seq<Inode>, blk': seq<Block>, s: Slot)
  {
    && Laid(sb, inodes, blk, owner, fb) && fb < sb.size && Shape(sb, inodes', blk')
    && SlotSet(sb, inodes, blk, inodes', blk', s, fb) && Addr(inodes[s.inum], blk, s.k) == 0
    && DataSame(owner, blk, blk')
    && (forall b :: fb <= b < sb.size ==> blk'[b] == blk[b])
  }

  lemma TookLaid(sb: Super, inodes: seq<Inode>, blk: seq<Block>, owner: map<nat, Slot>, fb: nat,
                 inodes': seq<Inode>, blk': seq<Block>, s: Slot)
    requires Took(sb, inodes, blk, owner, fb, inodes', blk', s)
    ensures Laid(sb, inodes', blk', owner[fb := s], fb + 1)
  {
    hide Addr, Owned, Zero, DataSame, SlotSet;
    OwnMore(sb, inodes, blk, owner, inodes', blk', s, fb);
  }

  lemma TookBytes(sb: Super, inodes: seq<Inode>, blk: seq<Block>, owner: map<nat, Slot>, fb: nat,
                  inodes': seq<Inode>, blk': seq<Block>, s: Slot, j: nat)
    requires Took(sb, inodes, blk, owner, fb, inodes', blk', s) && j < |inodes|
    ensures BytesKept(inodes[j], blk, inodes'[j], blk')
  {
    hide Addr, Owned, Zero, DataSame, ByteAt;
    forall k | 0 <= k < NSLOTS ensures Grows(Addr(inodes[j], blk, k), Addr(inodes'[j], blk', k), blk') {
      assert Slot(j, k) == s ==> j == s.inum && k == s.k;
    }
    GrowthKeepsBytes(sb, inodes, blk, owner, inodes', blk', j);
  }

  lemma TookOthers(sb: Super, inodes: seq<Inode>, blk: seq<Block>, owner: map<nat, Slot>, fb: nat,
                   inodes': seq<Inode>, blk': seq<Block>, s: Slot)
    requires Took(sb, inodes, blk, owner, fb, inodes', blk', s)
    requires forall j :: 0 <= j < |inodes| && j != s.inum ==> inodes'[j] == inodes[j]
    ensures OthersSame(inodes, blk, inodes', blk', s.inum)
  {
    hide Addr, Owned, Zero, DataSame, BytesKept;
    forall j | 0 <= j < |inodes| && j != s.inum ensures Same(inodes[j], blk, inodes'[j], blk') {
      TookBytes(sb, inodes, blk, owner, fb, inodes', blk', s, j);
      assert forall k :: Slot(j, k) != s;
    }
  }

  /** The next data block of an inode, or its indirect block. */
  lemma TookTight(sb: Super, inodes: seq<Inode>, blk: seq<Block>, owner: map<nat, Slot>, fb: nat,
                  inodes': seq<Inode>, blk': seq<Block>, s: Slot, m: nat, table: bool)
    requires Took(sb, inodes, blk, owner, fb, inodes', blk', s) && s.inum < |inodes| && 0 < sb.datastart
    requires Tight(inodes[s.inum], blk, m, table) && m < MAXFILE
    ensures s.k == SlotOf(m) ==> Tight(inodes'[s.inum], blk', m + 1, table)
    ensures s.k == NDIRECT ==> Tight(inodes'[s.inum], blk', m, true)
  {
    hide Owned, Zero, DataSame, Entry;
    var i := s.inum;
    assert Addr(inodes'[i], blk', NDIRECT) == if Slot(i, NDIRECT) == s then fb else Addr(inodes[i], blk, NDIRECT);
    hide Addr;
    forall bn: nat | bn < MAXFILE
      ensures Addr(inodes'[i], blk', SlotOf(bn)) == if SlotOf(bn) == s.k then fb else Addr(inodes[i], blk, SlotOf(bn))
    {
      assert Slot(i, SlotOf(bn)) == s <==> SlotOf(bn) == s.k;
    }
  }

  lemma TakeDirect(sb: Super, inodes: seq<Inode>, blk: seq<Block>, owner: map<nat, Slot>, fb: nat, i: nat, k: nat)
    requires Laid(sb, inodes, blk, owner, fb) && fb < sb.size && i < |inodes| && k <= NDIRECT && inodes[i].addrs[k] == 0
    ensures Took(sb, inodes, blk, owner, fb, SetAddr(inodes, i, k, fb), blk, Slot(i, k))
  {
    hide Owned, Zero, Entry;
    DirectSet(sb, inodes, blk, i, k, fb);
  }

  lemma TakeEntry(sb: Super, inodes: seq<Inode>, blk: seq<Block>, owner: map<nat, Slot>, fb: nat, i: nat, j: nat)
    requires Laid(sb, inodes, blk, owner, fb) && fb < sb.size && i < |inodes| && j < NINDIRECT
    requires inodes[i].addrs[NDIRECT] != 0 && Addr(inodes[i], blk, NDIRECT + 1 + j) == 0
    ensures var d := inodes[i].addrs[NDIRECT];
            sb.InData(d) && Took(sb, inodes, blk, owner, fb, inodes, blk[d := SetWord(blk[d], j, fb)],
                                 Slot(i, NDIRECT + 1 + j))
  {
    hide Word, SetWord, Zero;
    var d := inodes[i].addrs[NDIRECT];
    EntrySet(sb, inodes, blk, owner, i, j, fb);
    assert Named(sb, Addr(inodes[i], blk, NDIRECT), owner, Slot(i, NDIRECT));
  }

  // ------------------------------------------------------------ storing bytes

  /** The bytes after storing piece at the end of a file's data. */
  lemma StoredBytes(sb: Super, inodes: seq<Inode>, blk: seq<Block>, owner: map<nat, Slot>, i: nat, data: seq<byte>,
                    piece: seq<byte>, p: nat)
    requires Shape(sb, inodes, blk) && Owned(sb, inodes, blk, owner) && i < |inodes|
    requires Holds(inodes[i], blk, data) && |data| % BSIZE + |piece| <= BSIZE && |data| < MAXFILE * BSIZE
    requires Addr(inodes[i], blk, SlotOf(|data| / BSIZE)) != 0 && p < MAXFILE * BSIZE
    ensures var a := Addr(inodes[i], blk, SlotOf(|data| / BSIZE));
            && sb.InData(a)
            && ByteAt(inodes[i], blk[a := Block(Splice(blk[a].data, |data| % BSIZE, piece))], p) ==
                Padded(data + piece, p)
  {
    hide Owned, Addr;
    var bn, at := |data| / BSIZE, |data| % BSIZE;
    var a := Addr(inodes[i], blk, SlotOf(bn));
    assert 0 < a < sb.size by { assert Owned(sb, inodes, blk, owner); AddrIn(sb, inodes, blk, owner, i, SlotOf(bn)); }
    var x := Block(Splice(blk[a].data, at, piece));
    StoreBytes(sb, inodes, blk, owner, i, bn, x, i, p);
    assert ByteAt(inodes[i], blk, p) == Padded(data, p);
    assert p / BSIZE == bn ==> ByteAt(inodes[i], blk, p) == blk[a].data[p % BSIZE];
    assert p == p / BSIZE * BSIZE + p % BSIZE && |data| == bn * BSIZE + at;
  }

  lemma AddrIn(sb: Super, inodes: seq<Inode>, blk: seq<Block>, owner: map<nat, Slot>, i: nat, k: nat)
    requires Shape(sb, inodes, blk) && Owned(sb, inodes, blk, owner) && i < |inodes| && k < NSLOTS
    ensures Named(sb, Addr(inodes[i], blk, k), owner, Slot(i, k))
  {
  }

  /** Storing into data block a, the block in slot s, of the image. */
  lemma StoredLaid(sb: Super, inodes: seq<Inode>, blk: seq<Block>, owner: map<nat, Slot>, fb: nat, i: nat, bn: nat,
                   x: Block)
    requires Laid(sb, inodes, blk, owner, fb) && i < |inodes| && bn < MAXFILE && Addr(inodes[i], blk, SlotOf(bn)) != 0
    ensures var a := Addr(inodes[i], blk, SlotOf(bn));
            && sb.InData(a) && Laid(sb, inodes, blk[a := x], owner, fb)
            && (forall j, k :: 0 <= j < |inodes| && 0 <= k < NSLOTS ==>
                Addr(inodes[j], blk[a := x], k) == Addr(inodes[j], blk, k))
            && OthersSame(inodes, blk, inodes, blk[a := x], i)
  {
    hide Owned, Addr, Zero, ByteAt;
    var a := Addr(inodes[i], blk, SlotOf(bn));
    AddrIn(sb, inodes, blk, owner, i, SlotOf(bn));
    AddrSame(sb, inodes, blk, owner, a, x);
    forall j | 0 <= j < |inodes| && j != i ensures Same(inodes[j], blk, inodes[j], blk[a := x]) {
      forall p | 0 <= p < MAXFILE * BSIZE ensures ByteAt(inodes[j], blk[a := x], p) == ByteAt(inodes[j], blk, p) {
        StoreBytes(sb, inodes, blk, owner, i, bn, x, j, p);
      }
    }
  }

  lemma Appended(sb: Super, inodes: seq<Inode>, blk: seq<Block>, owner: map<nat, Slot>, fb: nat, i: nat,
                 data: seq<byte>, piece: seq<byte>)
    requires Laid(sb, inodes, blk, owner, fb) && i < |inodes| && 0 < |piece|
    requires |data| % BSIZE + |piece| <= BSIZE && |data| + |piece| <= MAXFILE * BSIZE && Holds(inodes[i], blk, data)
    requires Tight(inodes[i], blk, |data| / BSIZE + 1, NDIRECT < |data| / BSIZE + 1)
    ensures var a := Addr(inodes[i], blk, SlotOf(|data| / BSIZE));
            && sb.InData(a)
            && var blk' := blk[a := Block(Splice(blk[a].data, |data| % BSIZE, piece))];
            && Laid(sb, inodes, blk', owner, fb) && OthersSame(inodes, blk, inodes, blk', i)
            && Tidy(inodes[i], blk', data + piece)
  {
    hide Owned, Zero, ByteAt, Padded, Splice, Entry, Laid, OthersSame;
    LaidOwned(sb, inodes, blk, owner, fb);
    var bn, at := |data| / BSIZE, |data| % BSIZE;
    var a := Addr(inodes[i], blk, SlotOf(bn));
    AddrIn(sb, inodes, blk, owner, i, SlotOf(bn));
    var x := Block(Splice(blk[a].data, at, piece));
    StoredLaid(sb, inodes, blk, owner, fb, i, bn, x);
    assert Ceil(|data + piece|) == bn + 1;
    forall p: nat | p < MAXFILE * BSIZE ensures ByteAt(inodes[i], blk[a := x], p) == Padded(data + piece, p) {
      StoredBytes(sb, inodes, blk, owner, i, data, piece, p);
    }
  }

  lemma LaidOwned(sb: Super, inodes: seq<Inode>, blk: seq<Block>, owner: map<nat, Slot>, fb: nat)
    requires Laid(sb, inodes, blk, owner, fb)
    ensures Shape(sb, inodes, blk) && Owned(sb, inodes, blk, owner) && fb <= sb.size
  {
  }

  // ---------------------------------------------------------------- the program

  function Nothing(): (f: seq<seq<byte>>) {
    seq(NINODES, _ => [])
  }

  lemma EmptyImage(inodes: seq<Inode>, blk: seq<Block>)
    requires inodes == seq(NINODES, _ => Inode(0, 0, 0, NoAddrs())) && blk == seq(FSSIZE, _ => Zero())
    ensures Laid(Layout(), inodes, blk, map[], NMETA) && FilesOk(inodes, blk, Nothing())
  {
    hide Zero, Word;
    forall i | 0 <= i < NINODES ensures Tidy(inodes[i], blk, []) {}
  }

  lemma {:induction false} NothingCosts(files: seq<seq<byte>>)
    requires forall i :: 0 <= i < |files| ==> files[i] == []
    ensures Total(files) == 0
  {
    if files != [] {
      NothingCosts(files[..|files| - 1]);
    }
  }

  /** An inode with nothing in it may be given a type. */
  lemma NewInode(sb: Super, inodes: seq<Inode>, blk: seq<Block>, owner: map<nat, Slot>, fb: nat, files: seq<seq<byte>>,
                 i: nat, typ: nat)
    requires Laid(sb, inodes, blk, owner, fb) && FilesOk(inodes, blk, files) && i < |inodes| && files[i] == []
    ensures var inodes' := inodes[i := Inode(typ, 1, 0, NoAddrs())];
            Laid(sb, inodes', blk, owner, fb) && FilesOk(inodes', blk, files)
  {
    hide Zero, Word, Owned, Tidy;
    var inodes' := inodes[i := Inode(typ, 1, 0, NoAddrs())];
    forall j, k | 0 <= j < |inodes| && 0 <= k < NSLOTS ensures Addr(inodes'[j], blk, k) == Addr(inodes[j], blk, k) {
      if j == i {
        NothingThere(inodes, blk, files, i, k);
      }
    }
    OwnedStill(sb, inodes, blk, owner, inodes');
    forall j | 0 <= j < |inodes| ensures Tidy(inodes'[j], blk, files[j]) {
      AddrsDecide(inodes, blk, files, inodes', j);
    }
    assert FilesOk(inodes', blk, files);
  }

  lemma NothingThere(inodes: seq<Inode>, blk: seq<Block>, files: seq<seq<byte>>, i: nat, k: nat)
    requires FilesOk(inodes, blk, files) && i < |inodes| && files[i] == [] && k < NSLOTS
    ensures |inodes[i].addrs| == NDIRECT + 1 && Addr(inodes[i], blk, k) == 0
  {
    hide ByteAt, Holds, Word;
    assert Tidy(inodes[i], blk, files[i]);
    if k < NDIRECT {
      assert SlotOf(k) == k;
    }
  }

  lemma AddrsDecide(inodes: seq<Inode>, blk: seq<Block>, files: seq<seq<byte>>, inodes': seq<Inode>, j: nat)
    requires FilesOk(inodes, blk, files) && |inodes'| == |inodes| && j < |inodes| && |inodes'[j].addrs| == NDIRECT + 1
    requires |inodes[j].addrs| == NDIRECT + 1
    requires forall k :: 0 <= k < NSLOTS ==> Addr(inodes'[j], blk, k) == Addr(inodes[j], blk, k)
    ensures Tidy(inodes'[j], blk, files[j])
  {
    hide Addr, Tidy;
    SameOk(inodes[j], blk, inodes'[j], blk, files[j]);
  }

  lemma OwnedStill(sb: Super, inodes: seq<Inode>, blk: seq<Block>, owner: map<nat, Slot>, inodes': seq<Inode>)
    requires Shape(sb, inodes, blk) && Shape(sb, inodes', blk) && |inodes'| == |inodes| && Owned(sb, inodes, blk, owner)
    requires forall j, k :: 0 <= j < |inodes| && 0 <= k < NSLOTS ==> Addr(inodes'[j], blk, k) == Addr(inodes[j], blk, k)
    ensures Owned(sb, inodes', blk, owner)
  {
    hide Addr;
    forall a | a in owner ensures Names(sb, inodes', blk, a, owner[a]) {
      assert Names(sb, inodes, blk, a, owner[a]);
    }
  }

  lemma SameSelf(inodes: seq<Inode>, blk: seq<Block>, i: nat)
    requires forall j :: 0 <= j < |inodes| ==> |inodes[j].addrs| == NDIRECT + 1
    requires i < |inodes|
    ensures OthersSame(inodes, blk, inodes, blk, i) && BytesKept(inodes[i], blk, inodes[i], blk)
  {
  }

  lemma KeptThen(ino: Inode, blk: seq<Block>, ino1: Inode, blk1: seq<Block>, ino2: Inode, blk2: seq<Block>)
    requires |ino.addrs| == NDIRECT + 1 && |ino1.addrs| == NDIRECT + 1 && |ino2.addrs| == NDIRECT + 1
    requires BytesKept(ino, blk, ino1, blk1) && BytesKept(ino1, blk1, ino2, blk2)
    ensures BytesKept(ino, blk, ino2, blk2)
  {
    hide ByteAt;
  }

  lemma FileHas(inodes: seq<Inode>, blk: seq<Block>, files: seq<seq<byte>>, i: nat)
    requires FilesOk(inodes, blk, files) && i < |inodes|
    ensures |files| == |inodes| && Tidy(inodes[i], blk, files[i])
  {
  }

  lemma KeptHolds(ino: Inode, blk: seq<Block>, ino': Inode, blk': seq<Block>, data: seq<byte>)
    requires |ino.addrs| == NDIRECT + 1 && |ino'.addrs| == NDIRECT + 1
    requires Holds(ino, blk, data) && BytesKept(ino, blk, ino', blk')
    ensures Holds(ino', blk', data)
  {
    hide ByteAt, Padded;
  }

  /** Only the addresses of inode i may have changed. */
  ghost predicate OnlyAddrs(inodes: seq<Inode>, inodes': seq<Inode>, i: nat)
    requires i < |inodes|
  {
    |inodes'| == |inodes| && inodes' == inodes[i := inodes[i].(addrs := inodes'[i].addrs)]
  }

  lemma CostMono(a: nat, b: nat)
    requires a <= b
    ensures Cost(Ceil(a)) <= Cost(Ceil(b))
  {
    assert Ceil(a) <= Ceil(b);
  }

  lemma NewSize(sb: Super, inodes: seq<Inode>, blk: seq<Block>, owner: map<nat, Slot>, fb: nat, files: seq<seq<byte>>,
                i: nat, n: nat)
    requires Laid(sb, inodes, blk, owner, fb) && FilesOk(inodes, blk, files) && i < |inodes| && n <= MAXFILE * BSIZE
    ensures var inodes' := inodes[i := inodes[i].(size := n)];
            Laid(sb, inodes', blk, owner, fb) && FilesOk(inodes', blk, files)
  {
    hide Zero, Word, Owned, Tidy;
    var inodes' := inodes[i := inodes[i].(size := n)];
    OwnedStill(sb, inodes, blk, owner, inodes');
    forall j | 0 <= j < |inodes| ensures Tidy(inodes'[j], blk, files[j]) {
      AddrsDecide(inodes, blk, files, inodes', j);
    }
    assert FilesOk(inodes', blk, files);
  }

  lemma NoBits()
    ensures forall b: nat :: b < BPB ==> !BlockBit(Zero(), b)
  {
    forall b: nat | b < BPB ensures !BlockBit(Zero(), b) {
      ZeroBit(b % 8);
    }
  }

  lemma {:induction false} ZeroBit(k: nat)
    ensures !Bit(0, k)
  {
    if k > 0 {
      ZeroBit(k - 1);
    }
  }

  lemma MarksWritten(inodes: seq<Inode>, blk: seq<Block>, owner: map<nat, Slot>, fb: nat, files: seq<seq<byte>>,
                     buf: Block)
    requires Laid(Layout(), inodes, blk, owner, fb) && FilesOk(inodes, blk, files)
    requires forall b: nat :: b < BPB ==> (BlockBit(buf, b) <==> b < fb)
    ensures var blk' := blk[Layout().bmapstart := buf];
            Laid(Layout(), inodes, blk', owner, fb) && FilesOk(inodes, blk', files)
              && FsInv(Layout(), inodes, blk', owner, {})
  {
    hide Zero, Owned, Tidy, BlockBit, Addr;
    var sb := Layout();
    var blk' := blk[sb.bmapstart := buf];
    MetadataUnowned(sb, inodes, blk, owner, sb.bmapstart);
    AddrSame(sb, inodes, blk, owner, sb.bmapstart, buf);
    forall j | 0 <= j < |inodes| ensures Tidy(inodes[j], blk', files[j]) {
      MetadataSame(sb, inodes, blk, owner, sb.bmapstart, buf, j);
      SameOk(inodes[j], blk, inodes[j], blk', files[j]);
    }
    forall b | 0 <= b < sb.size ensures Marked(sb, blk', b) <==> b < sb.datastart || b in owner {
      assert b / BPB == 0 && b % BPB == b;
    }
  }

  lemma MetadataSame(sb: Super, inodes: seq<Inode>, blk: seq<Block>, owner: map<nat, Slot>, b: nat, x: Block, j: nat)
    requires Shape(sb, inodes, blk) && Owned(sb, inodes, blk, owner) && b < sb.datastart && j < |inodes|
    ensures Same(inodes[j], blk, inodes[j], blk[b := x])
  {
    hide Owned, Addr;
    MetadataUnowned(sb, inodes, blk, owner, b);
    AddrSame(sb, inodes, blk, owner, b, x);
    forall p | 0 <= p < MAXFILE * BSIZE ensures ByteAt(inodes[j], blk[b := x], p) == ByteAt(inodes[j], blk, p) {
      AddrIn(sb, inodes, blk, owner, j, SlotOf(p / BSIZE));
    }
  }

  /** No inode changed its type or link count. */
  ghost predicate KindsKept(inodes: seq<Inode>, inodes': seq<Inode>) {
    |inodes'| == |inodes| && forall i :: 0 <= i < |inodes| ==>
        inodes'[i].typ == inodes[i].typ && inodes'[i].nlink == inodes[i].nlink
  }

  // ------------------------------------------------------------------ the result

  /** A directory entry: 16 bits of inode number and DIRSIZ bytes of name. */
  function Dirent(inum: nat, name: seq<byte>): (r: seq<byte>)
    ensures |r| == 16
    ensures inum < 0x1_0000 ==> var low: nat, high: nat := r[0], r[1]; low + 0x100 * high == inum
    ensures forall k :: 0 <= k < DIRSIZ ==> r[2 + k] == Padded(name, k)
  {
    [inum % 0x100, inum / 0x100 % 0x100] + seq(DIRSIZ, k requires 0 <= k => Padded(name, k))
  }

  /** The entries of the root. */
  function Dirs(names: seq<seq<byte>>): (r: seq<byte>)
    ensures |r| == 16 * (|names| + 2)
  {
    if names == [] then Dirent(ROOTINO, [DOT]) + Dirent(ROOTINO, [DOT, DOT])
    else Dirs(names[..|names| - 1]) + Dirent(|names| + 1, names[|names| - 1])
  }

  /** What the inodes hold once the first i files are in. */
  ghost function Stage(names: seq<seq<byte>>, contents: seq<seq<byte>>, i: nat): (r: seq<seq<byte>>)
    requires i <= |names| == |contents| <= NINODES - 2
    ensures |r| == NINODES
  {
    seq(NINODES, k requires 0 <= k < NINODES =>
      if k == ROOTINO then Dirs(names[..i]) else if 2 <= k < 2 + i then contents[k - 2] else [])
  }

  /** The inodes suffice, each file has a size that an inode can have, and the blocks suffice. */
  ghost predicate CanHold(names: seq<seq<byte>>, contents: seq<seq<byte>>) {
    && |names| == |contents| <= NINODES - 2
    && InRoom(Layout(), Stage(names, contents, |names|))
  }

  ghost predicate InRoom(sb: Super, goal: seq<seq<byte>>) {
    sb.datastart + Total(goal) <= sb.size && forall k :: 0 <= k < |goal| ==> |goal[k]| <= MAXFILE * BSIZE
  }

  ghost predicate Under(f: seq<seq<byte>>, g: seq<seq<byte>>) {
    |f| == |g| && forall k :: 0 <= k < |f| ==> |f[k]| <= |g[k]|
  }

  lemma {:induction false} TotalMono(f: seq<seq<byte>>, g: seq<seq<byte>>)
    requires Under(f, g)
    ensures Total(f) <= Total(g)
  {
    hide Cost, Ceil;
    if f != [] {
      var n := |f| - 1;
      TotalMono(f[..n], g[..n]);
      CostMono(|f[n]|, |g[n]|);
    }
  }

  lemma Room(sb: Super, files: seq<seq<byte>>, i: nat, p: seq<byte>, goal: seq<seq<byte>>, fb: nat)
    requires InRoom(sb, goal) && i < |files| && Under(files[i := files[i] + p], goal)
    requires fb == sb.datastart + Total(files)
    ensures |files[i]| + |p| <= MAXFILE * BSIZE && fb + Cost(Ceil(|files[i]| + |p|)) - Cost(Ceil(|files[i]|)) <= sb.size
  {
    hide Cost, Ceil, Total;
    var f := files[i := files[i] + p];
    TotalChange(files, i, files[i] + p);
    TotalMono(f, goal);
    assert |f[i]| <= |goal[i]|;
  }

  lemma UnderPart(files: seq<seq<byte>>, i: nat, f: seq<byte>, n: nat, goal: seq<seq<byte>>)
    requires i < |files| && n <= |f| && Under(files[i := f], goal)
    ensures Under(files[i := f[..n]], goal)
  {
    var g := files[i := f];
    forall k | 0 <= k < |files| ensures |files[i := f[..n]][k]| <= |goal[k]| {
      assert |g[k]| <= |goal[k]|;
    }
  }

  /** Inode 0 and those from i on are free. */
  ghost predicate RestFree(inodes: seq<Inode>, i: nat) {
    forall k :: 0 <= k < |inodes| && (k == 0 || i <= k) ==> inodes[k].typ == 0
  }

  lemma StillFree(inodes: seq<Inode>, inodes': seq<Inode>, i: nat, n: nat)
    requires RestFree(inodes, n) && i < |inodes| && OnlyAddrs(inodes, inodes', i)
    ensures RestFree(inodes', n)
  {
  }

  ghost predicate Kinds(inodes: seq<Inode>, i: nat) {
    && 2 + i <= |inodes| && inodes[ROOTINO].typ == T_DIR && inodes[ROOTINO].nlink == 1
    && forall k :: 2 <= k < 2 + i ==> inodes[k].typ == T_FILE && inodes[k].nlink == 1
  }

  lemma Staged(names: seq<seq<byte>>, contents: seq<seq<byte>>, i: nat)
    requires i < |names| == |contents| <= NINODES - 2
    ensures var f := Stage(names, contents, i);
            var f1 := f[ROOTINO := f[ROOTINO] + Dirent(2 + i, names[i])];
            var g := Stage(names, contents, |names|);
            && f[2 + i] == [] && Under(f1, g)
            && f1[2 + i := contents[i]] == Stage(names, contents, i + 1) && Under(f1[2 + i := contents[i]], g)
  {
    hide Dirent;
    assert names[..i + 1][..i] == names[..i];
    assert names[..|names|] == names;
  }

  lemma First(names: seq<seq<byte>>, contents: seq<seq<byte>>)
    requires |names| == |contents| <= NINODES - 2
    ensures var f1 := Nothing()[ROOTINO := Dirent(ROOTINO, [DOT])];
            var f2 := f1[ROOTINO := f1[ROOTINO] + Dirent(ROOTINO, [DOT, DOT])];
            var g := Stage(names, contents, |names|);
            Under(f1, g) && Under(f2, g) && f2 == Stage(names, contents, 0)
  {
    hide Dirent;
    assert names[..|names|] == names;
  }

  ghost predicate FileBuilt(ino: Inode, blk: seq<Block>, content: seq<byte>) {
    && ino.typ == T_FILE && ino.nlink == 1 && |ino.addrs| == NDIRECT + 1 && ino.size <= MAXFILE * BSIZE
    && File(ino, blk) == content && NoHole(ino, blk)
  }

  /** The root reads as its entries and then zeros, and has a hole just if the entries
      fill their last block. */
  ghost predicate RootBuilt(ino: Inode, blk: seq<Block>, names: seq<seq<byte>>) {
    && ino.typ == T_DIR && ino.nlink == 1 && |ino.addrs| == NDIRECT + 1 && ino.size <= MAXFILE * BSIZE
    && ino.size == (|Dirs(names)| / BSIZE + 1) * BSIZE
    && File(ino, blk) == Dirs(names) + seq(ino.size - |Dirs(names)|, _ => 0)
    && (NoHole(ino, blk) <==> (|names| + 2) % 64 != 0)
  }

  lemma HeldFile(ino: Inode, blk: seq<Block>, data: seq<byte>)
    requires Tidy(ino, blk, data) && ino.size == |data|
    ensures File(ino, blk) == data && NoHole(ino, blk)
  {
    hide Addr, ByteAt;
    forall bn | 0 <= bn < MAXFILE && bn * BSIZE < ino.size ensures Addr(ino, blk, SlotOf(bn)) != 0 {
      assert bn < Ceil(|data|);
    }
  }

  /** A size a block past the data. */
  lemma RoundedFile(ino: Inode, blk: seq<Block>, data: seq<byte>)
    requires Tidy(ino, blk, data) && |data| < MAXFILE * BSIZE && ino.size == (|data| / BSIZE + 1) * BSIZE
    ensures ino.size <= MAXFILE * BSIZE && File(ino, blk) == data + seq(ino.size - |data|, _ => 0)
    ensures NoHole(ino, blk) <==> |data| % BSIZE != 0
  {
    hide Addr, ByteAt;
    assert File(ino, blk) == data + seq(ino.size - |data|, _ => 0);
    var last := |data| / BSIZE;
    assert Addr(ino, blk, SlotOf(last)) != 0 <==> last < Ceil(|data|);
    if |data| % BSIZE != 0 {
      forall bn | 0 <= bn < MAXFILE && bn * BSIZE < ino.size ensures Addr(ino, blk, SlotOf(bn)) != 0 {
        assert bn < Ceil(|data|);
      }
    } else {
      assert last * BSIZE < ino.size;
    }
  }

  lemma RootStage(names: seq<seq<byte>>, contents: seq<seq<byte>>)
    requires |names| == |contents| <= NINODES - 2
    ensures Stage(names, contents, |names|)[ROOTINO] == Dirs(names) && |Dirs(names)| < MAXFILE * BSIZE
  {
    hide Dirs;
    assert names[..|names|] == names;
  }

  lemma Finished(inodes: seq<Inode>, blk: seq<Block>, files: seq<seq<byte>>, names: seq<seq<byte>>,
                 contents: seq<seq<byte>>)
    requires |names| == |contents| <= NINODES - 2 && |inodes| == NINODES && FilesOk(inodes, blk, files)
    requires files == Stage(names, contents, |names|) && Kinds(inodes, |names|)
    requires forall i :: 0 <= i < NINODES && i != ROOTINO ==> inodes[i].size == |files[i]|
    requires inodes[ROOTINO].size == (|files[ROOTINO]| / BSIZE + 1) * BSIZE
    ensures RootBuilt(inodes[ROOTINO], blk, names)
    ensures forall i :: 0 <= i < |names| ==> FileBuilt(inodes[2 + i], blk, contents[i])
  {
    hide Dirs, File, NoHole, Tight, Holds;
    RootStage(names, contents);
    assert Tidy(inodes[ROOTINO], blk, files[ROOTINO]);
    RoundedFile(inodes[ROOTINO], blk, Dirs(names));
    forall i | 0 <= i < |names| ensures FileBuilt(inodes[2 + i], blk, contents[i]) {
      assert Tidy(inodes[2 + i], blk, files[2 + i]);
      HeldFile(inodes[2 + i], blk, contents[i]);
    }
  }

  class Image {
    const sb: Super
    var inodes: seq<Inode>
    var blk: seq<Block>
    var freeinode: nat
    var freeblock: nat
    /** The slot that names each used block. */
    ghost var owner: map<nat, Slot>
    /** What was appended to each inode. */
    ghost var files: seq<seq<byte>>

    ghost predicate Valid()
      reads this
    {
      && sb == Layout() && |inodes| == |files| == NINODES && 1 <= freeinode <= NINODES && RestFree(inodes, freeinode)
      && Laid(sb, inodes, blk, owner, freeblock)
      && FilesOk(inodes, blk, files)
      && freeblock == sb.datastart + Total(files)
      && (forall i :: freeinode <= i < NINODES ==> files[i] == [])
    }

    /** The inode sizes on disk say what was appended. */
    ghost predicate Sized()
      reads this
      requires |files| == |inodes|
    {
      forall i :: 0 <= i < |inodes| ==> inodes[i].size == |files[i]|
    }

    constructor ()
      ensures Valid() && Sized() && freeinode == 1 && files == Nothing()
    {
      sb := Layout();
      inodes := seq(NINODES, _ => Inode(0, 0, 0, NoAddrs()));
      blk := seq(FSSIZE, _ => Zero());
      freeinode := 1;
      freeblock := NMETA;
      owner := map[];
      files := Nothing();
      new;
      EmptyImage(inodes, blk);
      NothingCosts(files);
    }

    /** ialloc: the next inode, with one link and no data. */
    method Ialloc(typ: nat) returns (inum: nat)
      requires Valid() && Sized() && freeinode < NINODES
      modifies this
      ensures Valid() && Sized() && inum == old(freeinode) && freeinode == inum + 1 && files == old(files)
      ensures inodes == old(inodes)[inum := Inode(typ, 1, 0, NoAddrs())] && blk == old(blk)
    {
      hide Laid, FilesOk, NoAddrs;
      inum := freeinode;
      freeinode := inum + 1;
      NewInode(sb, inodes, blk, owner, freeblock, files, inum, typ);
      inodes := inodes[inum := Inode(typ, 1, 0, NoAddrs())];
    }

    /** addrs[k] of the inode names the next free block. */
    method TakeAddr(inum: nat, k: nat, ghost m: nat, ghost table: bool)
      requires Laid(sb, inodes, blk, owner, freeblock) && freeblock < sb.size && inum < |inodes| && k <= NDIRECT
      requires inodes[inum].addrs[k] == 0 && m < MAXFILE && Tight(inodes[inum], blk, m, table)
      requires k == NDIRECT || k == SlotOf(m)
      modifies `inodes, `owner, `freeblock
      ensures Laid(sb, inodes, blk, owner, freeblock) && freeblock == old(freeblock) + 1
      ensures inodes == SetAddr(old(inodes), inum, k, old(freeblock))
      ensures OthersSame(old(inodes), blk, inodes, blk, inum)
      ensures BytesKept(old(inodes)[inum], blk, inodes[inum], blk)
      ensures if k == NDIRECT then Tight(inodes[inum], blk, m, true) else Tight(inodes[inum], blk, m + 1, table)
    {
      hide Laid, OthersSame, BytesKept, Tight, Took, Owned;
      LaidOwned(sb, inodes, blk, owner, freeblock);
      TakeDirect(sb, inodes, blk, owner, freeblock, inum, k);
      ghost var inodes' := SetAddr(inodes, inum, k, freeblock);
      TookLaid(sb, inodes, blk, owner, freeblock, inodes', blk, Slot(inum, k));
      TookOthers(sb, inodes, blk, owner, freeblock, inodes', blk, Slot(inum, k));
      TookBytes(sb, inodes, blk, owner, freeblock, inodes', blk, Slot(inum, k), inum);
      TookTight(sb, inodes, blk, owner, freeblock, inodes', blk, Slot(inum, k), m, table);
      owner := owner[freeblock := Slot(inum, k)];
      inodes := inodes[inum := inodes[inum].(addrs := inodes[inum].addrs[k := freeblock])];
      freeblock := freeblock + 1;
    }

    /** The entry for block number fbn in the indirect block names the next free block. */
    method TakeWord(inum: nat, fbn: nat)
      requires Laid(sb, inodes, blk, owner, freeblock) && freeblock < sb.size && inum < |inodes|
      requires NDIRECT <= fbn < MAXFILE
      requires Tight(inodes[inum], blk, fbn, true)
      modifies `blk, `owner, `freeblock
      ensures Laid(sb, inodes, blk, owner, freeblock) && freeblock == old(freeblock) + 1
      ensures OthersSame(inodes, old(blk), inodes, blk, inum)
      ensures BytesKept(inodes[inum], old(blk), inodes[inum], blk)
      ensures Tight(inodes[inum], blk, fbn + 1, true)
    {
      hide Laid, OthersSame, BytesKept, Took, Word, SetWord, Owned, Entry;
      LaidOwned(sb, inodes, blk, owner, freeblock);
      var d, j := inodes[inum].addrs[NDIRECT], fbn - NDIRECT;
      assert SlotOf(fbn) == NDIRECT + 1 + j;
      TakeEntry(sb, inodes, blk, owner, freeblock, inum, j);
      ghost var blk' := blk[d := SetWord(blk[d], j, freeblock)];
      ghost var s := Slot(inum, NDIRECT + 1 + j);
      TookLaid(sb, inodes, blk, owner, freeblock, inodes, blk', s);
      TookOthers(sb, inodes, blk, owner, freeblock, inodes, blk', s);
      TookBytes(sb, inodes, blk, owner, freeblock, inodes, blk', s, inum);
      TookTight(sb, inodes, blk, owner, freeblock, inodes, blk', s, fbn, true);
      owner := owner[freeblock := s];
      blk := blk[d := SetWord(blk[d], j, freeblock)];
      freeblock := freeblock + 1;
    }

    /** The block for block number fbn of the inode: taken from the free ones if it is
        not there yet, together with the indirect block if that is needed first. */
    method BlockFor(inum: nat, fbn: nat, ghost m: nat) returns (x: nat)
      requires Laid(sb, inodes, blk, owner, freeblock) && inum < |inodes| && fbn < MAXFILE && m <= fbn + 1 <= m + 1
      requires Tight(inodes[inum], blk, m, NDIRECT < m)
      requires freeblock + Cost(fbn + 1) - Cost(m) <= sb.size
      modifies `inodes, `blk, `owner, `freeblock
      ensures Laid(sb, inodes, blk, owner, freeblock) && freeblock == old(freeblock) + Cost(fbn + 1) - Cost(m)
      ensures OnlyAddrs(old(inodes), inodes, inum) && OthersSame(old(inodes), old(blk), inodes, blk, inum)
      ensures BytesKept(old(inodes)[inum], old(blk), inodes[inum], blk)
      ensures Tight(inodes[inum], blk, fbn + 1, NDIRECT < fbn + 1)
      ensures x == Addr(inodes[inum], blk, SlotOf(fbn))
    {
      hide Laid, OthersSame, BytesKept, Owned, Word;
      LaidOwned(sb, inodes, blk, owner, freeblock);
      SameSelf(inodes, blk, inum);
      assert Addr(inodes[inum], blk, SlotOf(fbn)) != 0 <==> fbn < m;
      if fbn < NDIRECT {
        if inodes[inum].addrs[fbn] == 0 {
          TakeAddr(inum, fbn, fbn, false);
        }
        x := inodes[inum].addrs[fbn];
      } else {
        if inodes[inum].addrs[NDIRECT] == 0 {
          TakeAddr(inum, NDIRECT, fbn, false);
        }
        LaidOwned(sb, inodes, blk, owner, freeblock);
        AddrIn(sb, inodes, blk, owner, inum, NDIRECT);
        var table := inodes[inum].addrs[NDIRECT];
        if Word(blk[table], fbn - NDIRECT) == 0 {
          ghost var inodes1, blk1 := inodes, blk;
          TakeWord(inum, fbn);
          OthersThen(old(inodes), old(blk), inodes1, blk1, inodes, blk, inum);
          KeptThen(old(inodes)[inum], old(blk), inodes1[inum], blk1, inodes[inum], blk);
        }
        x := Word(blk[table], fbn - NDIRECT);
      }
    }

    /** One round of iappend's loop: piece goes to the end of what the inode holds,
        which lies in one block. */
    method AppendPiece(inum: nat, off: nat, piece: seq<byte>)
      requires Valid() && inum < freeinode && off == |files[inum]| && 0 < |piece|
      requires off % BSIZE + |piece| <= BSIZE && off + |piece| <= MAXFILE * BSIZE
      requires freeblock + Cost(Ceil(off + |piece|)) - Cost(Ceil(off)) <= sb.size
      modifies `inodes, `blk, `owner, `freeblock, `files
      ensures Valid() && files == old(files)[inum := old(files)[inum] + piece]
      ensures freeblock == old(freeblock) + Cost(Ceil(off + |piece|)) - Cost(Ceil(off))
      ensures OnlyAddrs(old(inodes), inodes, inum)
    {
      hide Laid, OthersSame, BytesKept, Tight, Holds, Splice, Cost, Total, FilesOk, Addr, Layout, Owned, Ceil, RestFree;
      FileHas(inodes, blk, files, inum);
      ghost var data := files[inum];
      var fbn := off / BSIZE;
      CeilIs(off, |piece|);
      var x := BlockFor(inum, fbn, Ceil(off));
      LaidOwned(sb, inodes, blk, owner, freeblock);
      KeptHolds(old(inodes)[inum], old(blk), inodes[inum], blk, data);
      ghost var inodes1, blk1 := inodes, blk;
      Appended(sb, inodes, blk, owner, freeblock, inum, data, piece);
      blk := blk[x := Block(Splice(blk[x].data, off % BSIZE, piece))];
      OthersThen(old(inodes), old(blk), inodes1, blk1, inodes, blk, inum);
      OthersOk(old(inodes), old(blk), inodes, blk, files, inum, data + piece);
      TotalChange(files, inum, data + piece);
      files := files[inum := data + piece];
      StillFree(old(inodes), inodes, inum, freeinode);
    }

    /** iappend: p goes to the end of the inode's data. */
    method Iappend(inum: nat, p: seq<byte>)
      requires Valid() && Sized() && inum < freeinode && |files[inum]| + |p| <= MAXFILE * BSIZE
      requires freeblock + Cost(Ceil(|files[inum]| + |p|)) - Cost(Ceil(|files[inum]|)) <= sb.size
      modifies `inodes, `blk, `owner, `freeblock, `files
      ensures Valid() && Sized() && files == old(files)[inum := old(files)[inum] + p]
      ensures KindsKept(old(inodes), inodes)
    {
      hide Laid, FilesOk, Total, Layout, Cost, Ceil;
      FileHas(inodes, blk, files, inum);
      var off := inodes[inum].size;
      ghost var data := files[inum];
      ghost var start := off;
      var done := 0;
      assert data + p[..0] == data;
      while done < |p|
        invariant 0 <= done <= |p| && off == start + done && Valid()
        invariant files == old(files)[inum := data + p[..done]]
        invariant freeblock == old(freeblock) + Cost(Ceil(off)) - Cost(Ceil(start))
        invariant OnlyAddrs(old(inodes), inodes, inum)
      {
        var fbn := off / BSIZE;
        var end := (fbn + 1) * BSIZE - off;
        var n1 := if |p| - done < end then |p| - done else end;
        CostMono(off + n1, start + |p|);
        AppendPiece(inum, off, p[done..done + n1]);
        assert data + p[..done] + p[done..done + n1] == data + p[..done + n1];
        off := off + n1;
        done := done + n1;
      }
      assert p[..done] == p;
      NewSize(sb, inodes, blk, owner, freeblock, files, inum, off);
      inodes := inodes[inum := inodes[inum].(size := off)];
    }

    /** The last step on the root directory: its size is rounded up past its entries. */
    method FixRoot()
      requires Valid() && Sized() && ROOTINO < freeinode && |files[ROOTINO]| < MAXFILE * BSIZE
      modifies `inodes
      ensures Valid() && KindsKept(old(inodes), inodes)
      ensures inodes == old(inodes)[ROOTINO := old(inodes)[ROOTINO].(size := (|files[ROOTINO]| / BSIZE + 1) * BSIZE)]
    {
      hide Laid, FilesOk, Total, Layout;
      FileHas(inodes, blk, files, ROOTINO);
      var off := inodes[ROOTINO].size;
      off := (off / BSIZE + 1) * BSIZE;
      NewSize(sb, inodes, blk, owner, freeblock, files, ROOTINO, off);
      inodes := inodes[ROOTINO := inodes[ROOTINO].(size := off)];
    }

    /** balloc: one bitmap block, in which just the blocks below `used` are marked. */
    method Balloc(used: nat)
      requires Valid() && used == freeblock
      modifies `blk
      ensures Valid() && FsInv(sb, inodes, blk, owner, {})
    {
      hide Laid, FilesOk, Total, SetBit, BlockBit;
      LaidOwned(sb, inodes, blk, owner, freeblock);
      assert used < BPB;
      var buf := Zero();
      NoBits();
      var i := 0;
      while i < used
        invariant 0 <= i <= used && forall b: nat :: b < BPB ==> (BlockBit(buf, b) <==> b < i)
      {
        forall b: nat | b < BPB ensures BlockBit(SetBit(buf, i), b) <==> b < i + 1 {
          SetBitReads(buf, i, b);
        }
        buf := SetBit(buf, i);
        i := i + 1;
      }
      MarksWritten(inodes, blk, owner, freeblock, files, buf);
      blk := blk[sb.bmapstart := buf];
    }

    /** The loop that copies one file in, a buffer at a time. */
    method CopyIn(inum: nat, f: seq<byte>, ghost goal: seq<seq<byte>>)
      requires Valid() && Sized() && inum < freeinode && files[inum] == [] && InRoom(sb, goal)
      requires |goal| == NINODES && Under(files[inum := f], goal)
      modifies `inodes, `blk, `owner, `freeblock, `files
      ensures Valid() && Sized() && files == old(files)[inum := f] && KindsKept(old(inodes), inodes)
    {
      hide Laid, FilesOk, Total, Layout, Cost, Ceil, InRoom;
      var at := 0;
      assert files == files[inum := f[..0]];
      while at < |f|
        invariant 0 <= at <= |f| && Valid() && Sized()
        invariant files == old(files)[inum := f[..at]] && KindsKept(old(inodes), inodes)
      {
        var cc := if |f| - at < BSIZE then |f| - at else BSIZE;
        assert f[..at] + f[at..at + cc] == f[..at + cc];
        assert files[inum := f[..at + cc]] == old(files)[inum := f[..at + cc]];
        UnderPart(old(files), inum, f, at + cc, goal);
        Room(sb, files, inum, f[at..at + cc], goal, freeblock);
        Iappend(inum, f[at..at + cc]);
        at := at + cc;
      }
      assert f[..at] == f;
    }

    /** One file: an inode, an entry in the root, the bytes. */
    method AddFile(names: seq<seq<byte>>, contents: seq<seq<byte>>, i: nat)
      requires i < |names| == |contents| && CanHold(names, contents)
      requires Valid() && Sized() && freeinode == 2 + i && files == Stage(names, contents, i) && Kinds(inodes, i)
      modifies this
      ensures Valid() && Sized() && freeinode == 3 + i && files == Stage(names, contents, i + 1) && Kinds(inodes, i + 1)
    {
      hide Laid, FilesOk, Total, Layout, Cost, Ceil, InRoom, Stage, Dirent;
      ghost var goal := Stage(names, contents, |names|);
      Staged(names, contents, i);
      var inum := Ialloc(T_FILE);
      var de := Dirent(inum, names[i]);
      Room(sb, files, ROOTINO, de, goal, freeblock);
      Iappend(ROOTINO, de);
      CopyIn(inum, contents[i], goal);
    }

    /** main: the root directory with its own two entries, then the files; then the
        root's size is fixed and the bitmap written. */
    method Build(names: seq<seq<byte>>, contents: seq<seq<byte>>)
      requires Valid() && Sized() && freeinode == 1 && files == Nothing()
      requires |names| == |contents| && CanHold(names, contents)
      modifies this
      ensures FsInv(sb, inodes, blk, owner, {}) && freeblock == NMETA + Total(Stage(names, contents, |names|))
      ensures |inodes| == NINODES && RootBuilt(inodes[ROOTINO], blk, names) && RestFree(inodes, 2 + |names|)
      ensures forall i :: 0 <= i < |names| ==> FileBuilt(inodes[2 + i], blk, contents[i])
    {
      hide Laid, FilesOk, Total, Cost, Ceil, InRoom, Stage, Dirent, File, NoHole, FsInv;
      ghost var goal := Stage(names, contents, |names|);
      First(names, contents);
      var rootino := Ialloc(T_DIR);
      var de := Dirent(rootino, [DOT]);
      assert files[rootino] + de == de;
      Room(sb, files, rootino, de, goal, freeblock);
      Iappend(rootino, de);
      de := Dirent(rootino, [DOT, DOT]);
      Room(sb, files, rootino, de, goal, freeblock);
      Iappend(rootino, de);
      var i := 0;
      while i < |names|
        invariant 0 <= i <= |names| && Valid() && Sized() && freeinode == 2 + i
        invariant files == Stage(names, contents, i) && Kinds(inodes, i)
      {
        AddFile(names, contents, i);
        i := i + 1;
      }
      RootStage(names, contents);
      FixRoot();
      Balloc(freeblock);
      Finished(inodes, blk, files, names, contents);
    }
  }
}
