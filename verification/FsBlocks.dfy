/**
 Which block belongs to whom: the bitmap marks exactly the metadata blocks and the
 blocks named by an inode, and no block is named twice.
 */
module FsBlocks {
  import opened Blocks
  import opened Bitmap

  const NDIRECT := 12
  const NINDIRECT := WORDS
  const MAXFILE := NDIRECT + NINDIRECT
  /** Places in one inode that can name a block: addrs[0..12], addrs[NDIRECT] for the
      indirect block, then the entries of the indirect block. */
  const NSLOTS := NDIRECT + 1 + NINDIRECT

  /** Inodes per block. */
  const IPB := 16

  datatype Super = Super(size: nat, inodestart: nat, bmapstart: nat, datastart: nat)
  {
    ghost predicate Valid() {
      0 < inodestart <= bmapstart && 0 < size && bmapstart + (size - 1) / BPB < datastart <= size < 0x1_0000_0000
    }

    predicate InData(b: nat) {
      datastart <= b < size
    }
  }

  datatype Inode = Inode(typ: nat, nlink: int, size: nat, addrs: seq<nat>)

  datatype Slot = Slot(inum: nat, k: nat)

  /** The bitmap bit of block b. */
  predicate Marked(sb: Super, blk: seq<Block>, b: nat)
    requires sb.bmapstart + b / BPB < |blk|
  {
    BlockBit(blk[sb.bmapstart + b / BPB], b % BPB)
  }

  /** Entry j of the indirect block at address a; no block, no entries. */
  function Entry(blk: seq<Block>, a: nat, j: nat): (r: nat)
    requires j < NINDIRECT
  {
    if 0 < a < |blk| then Word(blk[a], j) else 0
  }

  /** The block number in slot k of an inode, 0 if none. */
  function Addr(ino: Inode, blk: seq<Block>, k: nat): (r: nat)
    requires |ino.addrs| == NDIRECT + 1 && k < NSLOTS
  {
    if k <= NDIRECT then ino.addrs[k] else Entry(blk, ino.addrs[NDIRECT], k - NDIRECT - 1)
  }

  ghost predicate Shape(sb: Super, inodes: seq<Inode>, blk: seq<Block>) {
    && sb.Valid() && |blk| == sb.size
    && forall i :: 0 <= i < |inodes| ==> |inodes[i].addrs| == NDIRECT + 1 && inodes[i].size <= MAXFILE * BSIZE
  }

  /** owner is the inverse of Addr. */
  ghost predicate Owned(sb: Super, inodes: seq<Inode>, blk: seq<Block>, owner: map<nat, Slot>)
    requires Shape(sb, inodes, blk)
  {
    && (forall i, k :: 0 <= i < |inodes| && 0 <= k < NSLOTS ==> Named(sb, Addr(inodes[i], blk, k), owner, Slot(i, k)))
    && (forall a :: a in owner ==> Names(sb, inodes, blk, a, owner[a]))
  }

  ghost predicate Named(sb: Super, a: nat, owner: map<nat, Slot>, s: Slot) {
    a != 0 ==> sb.InData(a) && a in owner && owner[a] == s
  }

  ghost predicate Names(sb: Super, inodes: seq<Inode>, blk: seq<Block>, a: nat, s: Slot)
    requires Shape(sb, inodes, blk)
  {
    sb.InData(a) && s.inum < |inodes| && s.k < NSLOTS && Addr(inodes[s.inum], blk, s.k) == a
  }

  /** The marked blocks are the metadata, the owned blocks, and those in `pending`,
      allocated but in no inode. */
  ghost predicate BitsExact(sb: Super, blk: seq<Block>, owner: map<nat, Slot>, pending: set<nat>)
    requires sb.Valid() && |blk| == sb.size
  {
    && (forall b :: 0 <= b < sb.size ==> (Marked(sb, blk, b) <==> b < sb.datastart || b in owner || b in pending))
    && (forall b :: b in pending ==> sb.InData(b) && b !in owner)
  }

  ghost predicate FsInv(sb: Super, inodes: seq<Inode>, blk: seq<Block>, owner: map<nat, Slot>, pending: set<nat>) {
    && Shape(sb, inodes, blk)
    && Owned(sb, inodes, blk, owner)
    && BitsExact(sb, blk, owner, pending)
  }

  lemma InvShape(sb: Super, inodes: seq<Inode>, blk: seq<Block>, owner: map<nat, Slot>, pending: set<nat>)
    requires FsInv(sb, inodes, blk, owner, pending)
    ensures Shape(sb, inodes, blk) && Owned(sb, inodes, blk, owner)
  {
  }

  // -------------------------------------------------------------- bitmap steps

  /** Every bitmap block lies in the metadata. */
  lemma BitmapPlace(sb: Super, b: nat)
    requires sb.Valid() && b < sb.size
    ensures sb.bmapstart + b / BPB < sb.datastart
  {
    assert b / BPB <= (sb.size - 1) / BPB;
  }

  lemma SetMark(sb: Super, blk: seq<Block>, b: nat, c: nat)
    requires sb.Valid() && |blk| == sb.size && b < sb.size && c < sb.size
    ensures var bb := sb.bmapstart + b / BPB;
            bb < sb.size && sb.bmapstart + c / BPB < sb.size
            && (Marked(sb, blk[bb := SetBit(blk[bb], b % BPB)], c) <==> c == b || Marked(sb, blk, c))
  {
    BitmapPlace(sb, b);
    BitmapPlace(sb, c);
    SetBitReads(blk[sb.bmapstart + b / BPB], b % BPB, c % BPB);
    hide SetBit, BlockBit;
    assert b / BPB == c / BPB && b % BPB == c % BPB ==> b == c;
  }

  lemma ClearMark(sb: Super, blk: seq<Block>, b: nat, c: nat)
    requires sb.Valid() && |blk| == sb.size && b < sb.size && c < sb.size
    ensures var bb := sb.bmapstart + b / BPB;
            bb < sb.size && sb.bmapstart + c / BPB < sb.size
            && (Marked(sb, blk[bb := ClearBit(blk[bb], b % BPB)], c) <==> c != b && Marked(sb, blk, c))
  {
    BitmapPlace(sb, b);
    BitmapPlace(sb, c);
    ClearBitReads(blk[sb.bmapstart + b / BPB], b % BPB, c % BPB);
    hide ClearBit, BlockBit;
    assert b / BPB == c / BPB && b % BPB == c % BPB ==> b == c;
  }

  /** Changing a metadata block or a block that is no inode's indirect block leaves
      every slot as it is. */
  lemma AddrSame(sb: Super, inodes: seq<Inode>, blk: seq<Block>, owner: map<nat, Slot>, c: nat, x: Block)
    requires Shape(sb, inodes, blk) && Owned(sb, inodes, blk, owner) && c < sb.size
    requires c in owner ==> owner[c].k != NDIRECT
    ensures Owned(sb, inodes, blk[c := x], owner)
    ensures forall i, k :: 0 <= i < |inodes| && 0 <= k < NSLOTS ==>
              Addr(inodes[i], blk[c := x], k) == Addr(inodes[i], blk, k)
  {
    hide Word;
    var blk' := blk[c := x];
    forall i, k | 0 <= i < |inodes| && 0 <= k < NSLOTS ensures Addr(inodes[i], blk', k) == Addr(inodes[i], blk, k) {
      assert Named(sb, Addr(inodes[i], blk, NDIRECT), owner, Slot(i, NDIRECT));
    }
    forall a | a in owner ensures Names(sb, inodes, blk', a, owner[a]) {
      assert Names(sb, inodes, blk, a, owner[a]);
    }
  }

  lemma MetadataUnowned(sb: Super, inodes: seq<Inode>, blk: seq<Block>, owner: map<nat, Slot>, b: nat)
    requires Shape(sb, inodes, blk) && Owned(sb, inodes, blk, owner) && b < sb.datastart
    ensures b !in owner
  {
    hide Addr;
    assert b in owner ==> Names(sb, inodes, blk, b, owner[b]);
  }

  /** balloc: mark a free block and zero it. */
  lemma Allocate(sb: Super, inodes: seq<Inode>, blk: seq<Block>, owner: map<nat, Slot>, pending: set<nat>, b: nat)
    requires FsInv(sb, inodes, blk, owner, pending) && b < sb.size && sb.bmapstart + b / BPB < sb.size
    requires !Marked(sb, blk, b)
    ensures var bb := sb.bmapstart + b / BPB;
            sb.InData(b) && FsInv(sb, inodes, blk[bb := SetBit(blk[bb], b % BPB)][b := Zero()], owner, pending + {b})
  {
    hide SetBit, Word, Marked, Addr, Zero, Owned;
    var bb := sb.bmapstart + b / BPB;
    BitmapPlace(sb, b);
    var blk1 := blk[bb := SetBit(blk[bb], b % BPB)];
    assert Marked(sb, blk, b) <==> b < sb.datastart || b in owner || b in pending;
    MetadataUnowned(sb, inodes, blk, owner, bb);
    AddrSame(sb, inodes, blk, owner, bb, SetBit(blk[bb], b % BPB));
    AddrSame(sb, inodes, blk1, owner, b, Zero());
    AllocateBits(sb, blk, owner, pending, b);
  }

  lemma AllocateMark(sb: Super, blk: seq<Block>, b: nat, c: nat)
    requires sb.Valid() && |blk| == sb.size && sb.InData(b) && c < sb.size
    ensures var bb := sb.bmapstart + b / BPB;
            bb < sb.size && sb.bmapstart + c / BPB < sb.size
            && (Marked(sb, blk[bb := SetBit(blk[bb], b % BPB)][b := Zero()], c) <==> c == b || Marked(sb, blk, c))
  {
    SetMark(sb, blk, b, c);
    BitmapPlace(sb, c);
    hide SetBit, BlockBit;
  }

  lemma AllocateBits(sb: Super, blk: seq<Block>, owner: map<nat, Slot>, pending: set<nat>, b: nat)
    requires sb.Valid() && |blk| == sb.size && BitsExact(sb, blk, owner, pending) && sb.InData(b)
    requires b !in owner && b !in pending && sb.bmapstart + b / BPB < sb.size
    ensures var bb := sb.bmapstart + b / BPB;
            BitsExact(sb, blk[bb := SetBit(blk[bb], b % BPB)][b := Zero()], owner, pending + {b})
  {
    hide SetBit, Marked, Zero;
    var bb := sb.bmapstart + b / BPB;
    var blk2 := blk[bb := SetBit(blk[bb], b % BPB)][b := Zero()];
    forall c | 0 <= c < sb.size ensures Marked(sb, blk2, c) <==> c < sb.datastart || c in owner || c in pending + {b} {
      AllocateMark(sb, blk, b, c);
      assert Marked(sb, blk, c) <==> c < sb.datastart || c in owner || c in pending;
    }
  }

  /** bfree of a block that no inode names any more. */
  lemma Free(sb: Super, inodes: seq<Inode>, blk: seq<Block>, owner: map<nat, Slot>, pending: set<nat>, b: nat)
    requires FsInv(sb, inodes, blk, owner, pending) && b in pending
    ensures var bb := sb.bmapstart + b / BPB;
            bb < sb.size && Marked(sb, blk, b)
              && FsInv(sb, inodes, blk[bb := ClearBit(blk[bb], b % BPB)], owner, pending - {b})
  {
    hide ClearBit, Word, Marked, Addr, Owned;
    var bb := sb.bmapstart + b / BPB;
    BitmapPlace(sb, b);
    assert Marked(sb, blk, b) <==> b < sb.datastart || b in owner || b in pending;
    MetadataUnowned(sb, inodes, blk, owner, bb);
    AddrSame(sb, inodes, blk, owner, bb, ClearBit(blk[bb], b % BPB));
    FreeBits(sb, blk, owner, pending, b);
  }

  lemma FreeBits(sb: Super, blk: seq<Block>, owner: map<nat, Slot>, pending: set<nat>, b: nat)
    requires sb.Valid() && |blk| == sb.size && BitsExact(sb, blk, owner, pending) && b in pending
    requires sb.bmapstart + b / BPB < sb.size
    ensures var bb := sb.bmapstart + b / BPB;
            BitsExact(sb, blk[bb := ClearBit(blk[bb], b % BPB)], owner, pending - {b})
  {
    hide ClearBit, Marked;
    var bb := sb.bmapstart + b / BPB;
    var blk1 := blk[bb := ClearBit(blk[bb], b % BPB)];
    forall c | 0 <= c < sb.size ensures Marked(sb, blk1, c) <==> c < sb.datastart || c in owner || c in pending - {b} {
      ClearMark(sb, blk, b, c);
      assert Marked(sb, blk, c) <==> c < sb.datastart || c in owner || c in pending;
    }
  }

  // ------------------------------------------- putting a block into an inode

  ghost function SetAddr(inodes: seq<Inode>, i: nat, k: nat, a: nat): (r: seq<Inode>)
    requires i < |inodes| && k < |inodes[i].addrs|
  {
    inodes[i := inodes[i].(addrs := inodes[i].addrs[k := a])]
  }

  /** inodes' and blk' name a at slot s and are otherwise as before. */
  ghost predicate SlotSet(sb: Super, inodes: seq<Inode>, blk: seq<Block>, inodes': seq<Inode>, blk': seq<Block>,
                          s: Slot, a: nat)
    requires Shape(sb, inodes, blk) && Shape(sb, inodes', blk')
  {
    && |inodes'| == |inodes| && s.inum < |inodes| && s.k < NSLOTS
    && forall i, k :: 0 <= i < |inodes| && 0 <= k < NSLOTS ==>
         Addr(inodes'[i], blk', k) == if Slot(i, k) == s then a else Addr(inodes[i], blk, k)
  }

  lemma OwnMore(sb: Super, inodes: seq<Inode>, blk: seq<Block>, owner: map<nat, Slot>,
                inodes': seq<Inode>, blk': seq<Block>, s: Slot, a: nat)
    requires Shape(sb, inodes, blk) && Shape(sb, inodes', blk') && Owned(sb, inodes, blk, owner)
    requires SlotSet(sb, inodes, blk, inodes', blk', s, a)
    requires Addr(inodes[s.inum], blk, s.k) == 0 && sb.InData(a) && a !in owner
    ensures Owned(sb, inodes', blk', owner[a := s])
  {
    hide Addr;
    var owner' := owner[a := s];
    forall i, k | 0 <= i < |inodes'| && 0 <= k < NSLOTS
      ensures Named(sb, Addr(inodes'[i], blk', k), owner', Slot(i, k))
    {
      assert Named(sb, Addr(inodes[i], blk, k), owner, Slot(i, k));
    }
    forall c | c in owner' ensures Names(sb, inodes', blk', c, owner'[c]) {
      if c != a {
        StillNames(sb, inodes, blk, inodes', blk', s, a, c, owner[c]);
      }
    }
  }

  lemma StillNames(sb: Super, inodes: seq<Inode>, blk: seq<Block>, inodes': seq<Inode>, blk': seq<Block>, s: Slot,
                   a: nat, c: nat, t: Slot)
    requires Shape(sb, inodes, blk) && Shape(sb, inodes', blk') && SlotSet(sb, inodes, blk, inodes', blk', s, a)
    requires Addr(inodes[s.inum], blk, s.k) == 0 && Names(sb, inodes, blk, c, t)
    ensures Names(sb, inodes', blk', c, t)
  {
    hide Addr;
    assert Slot(t.inum, t.k) == t;
  }

  lemma DirectSet(sb: Super, inodes: seq<Inode>, blk: seq<Block>, i: nat, k: nat, a: nat)
    requires Shape(sb, inodes, blk) && i < |inodes| && k <= NDIRECT && a < sb.size
    requires k == NDIRECT ==> inodes[i].addrs[k] == 0 && blk[a] == Zero()
    ensures Shape(sb, SetAddr(inodes, i, k, a), blk)
    ensures SlotSet(sb, inodes, blk, SetAddr(inodes, i, k, a), blk, Slot(i, k), a)
  {
    var inodes' := SetAddr(inodes, i, k, a);
    forall i', k' | 0 <= i' < |inodes| && 0 <= k' < NSLOTS
      ensures Addr(inodes'[i'], blk, k') == if Slot(i', k') == Slot(i, k) then a else Addr(inodes[i'], blk, k')
    {
      if k' > NDIRECT && k == NDIRECT && i' == i {
        ZeroWords(k' - NDIRECT - 1);
      }
      hide Word;
    }
  }

  /** A pending block becomes direct block k of inode i, or, zeroed, its indirect block. */
  lemma Attach(sb: Super, inodes: seq<Inode>, blk: seq<Block>, owner: map<nat, Slot>, pending: set<nat>, i: nat,
               k: nat, a: nat)
    requires FsInv(sb, inodes, blk, owner, pending) && i < |inodes| && k <= NDIRECT && a in pending
    requires inodes[i].addrs[k] == 0 && (k == NDIRECT ==> blk[a] == Zero())
    ensures FsInv(sb, SetAddr(inodes, i, k, a), blk, owner[a := Slot(i, k)], pending - {a})
    ensures SlotSet(sb, inodes, blk, SetAddr(inodes, i, k, a), blk, Slot(i, k), a)
  {
    hide Word, Marked;
    DirectSet(sb, inodes, blk, i, k, a);
    OwnMore(sb, inodes, blk, owner, SetAddr(inodes, i, k, a), blk, Slot(i, k), a);
  }

  lemma EntrySet(sb: Super, inodes: seq<Inode>, blk: seq<Block>, owner: map<nat, Slot>, i: nat, j: nat, a: nat)
    requires Shape(sb, inodes, blk) && Owned(sb, inodes, blk, owner) && i < |inodes| && j < NINDIRECT && a < sb.size
    requires inodes[i].addrs[NDIRECT] != 0
    ensures var d := inodes[i].addrs[NDIRECT];
            && sb.InData(d) && d in owner
            && SlotSet(sb, inodes, blk, inodes, blk[d := SetWord(blk[d], j, a)], Slot(i, NDIRECT + 1 + j), a)
  {
    hide Word, SetWord;
    var d := inodes[i].addrs[NDIRECT];
    assert Named(sb, Addr(inodes[i], blk, NDIRECT), owner, Slot(i, NDIRECT));
    var blk' := blk[d := SetWord(blk[d], j, a)];
    forall i', k' | 0 <= i' < |inodes| && 0 <= k' < NSLOTS
      ensures Addr(inodes[i'], blk', k') == if Slot(i', k') == Slot(i, NDIRECT + 1 + j) then a
                                            else Addr(inodes[i'], blk, k')
    {
      assert Named(sb, Addr(inodes[i'], blk, NDIRECT), owner, Slot(i', NDIRECT));
      if k' > NDIRECT {
        SetWordReads(blk[d], j, a, k' - NDIRECT - 1);
      }
    }
  }

  /** A pending block becomes entry j of inode i's indirect block d. */
  lemma AttachEntry(sb: Super, inodes: seq<Inode>, blk: seq<Block>, owner: map<nat, Slot>, pending: set<nat>, i: nat,
                    j: nat, a: nat)
    requires FsInv(sb, inodes, blk, owner, pending) && i < |inodes| && j < NINDIRECT && a in pending
    requires inodes[i].addrs[NDIRECT] != 0 && Addr(inodes[i], blk, NDIRECT + 1 + j) == 0
    ensures var d := inodes[i].addrs[NDIRECT];
            && sb.InData(d)
            && FsInv(sb, inodes, blk[d := SetWord(blk[d], j, a)], owner[a := Slot(i, NDIRECT + 1 + j)], pending - {a})
            && SlotSet(sb, inodes, blk, inodes, blk[d := SetWord(blk[d], j, a)], Slot(i, NDIRECT + 1 + j), a)
  {
    hide Word, SetWord, Marked, Addr;
    var d := inodes[i].addrs[NDIRECT];
    EntrySet(sb, inodes, blk, owner, i, j, a);
    var blk' := blk[d := SetWord(blk[d], j, a)];
    OwnMore(sb, inodes, blk, owner, inodes, blk', Slot(i, NDIRECT + 1 + j), a);
    BitsSame(sb, blk, owner, pending, d, SetWord(blk[d], j, a));
  }

  /** Writing a block outside the metadata leaves the bitmap alone. */
  lemma BitsSame(sb: Super, blk: seq<Block>, owner: map<nat, Slot>, pending: set<nat>, c: nat, x: Block)
    requires sb.Valid() && |blk| == sb.size && BitsExact(sb, blk, owner, pending) && sb.InData(c)
    ensures BitsExact(sb, blk[c := x], owner, pending)
  {
    var blk' := blk[c := x];
    forall b | 0 <= b < sb.size ensures Marked(sb, blk', b) <==> b < sb.datastart || b in owner || b in pending {
      BitmapPlace(sb, b);
      assert Marked(sb, blk', b) == Marked(sb, blk, b) by { hide BlockBit; }
      hide Marked;
      assert Marked(sb, blk, b) <==> b < sb.datastart || b in owner || b in pending;
    }
  }

  // ------------------------------------------ taking blocks out of an inode

  /** Slot s is one of slots lo, ..., hi - 1 of inode i. */
  ghost predicate InRange(s: Slot, i: nat, lo: nat, hi: nat) {
    s.inum == i && lo <= s.k < hi
  }

  ghost function OwnerWithout(owner: map<nat, Slot>, i: nat, lo: nat, hi: nat): (r: map<nat, Slot>) {
    map a | a in owner && !InRange(owner[a], i, lo, hi) :: owner[a]
  }

  /** The blocks in slots lo, ..., hi - 1 of inode i. */
  ghost function BlocksIn(owner: map<nat, Slot>, i: nat, lo: nat, hi: nat): (r: set<nat>) {
    set a | a in owner && InRange(owner[a], i, lo, hi)
  }

  /** inodes' names no block in slots lo, ..., hi - 1 of inode i and is otherwise as before. */
  ghost predicate SlotsCleared(sb: Super, inodes: seq<Inode>, blk: seq<Block>, inodes': seq<Inode>, i: nat, lo: nat,
                               hi: nat)
    requires Shape(sb, inodes, blk) && Shape(sb, inodes', blk)
  {
    && |inodes'| == |inodes|
    && forall i', k :: 0 <= i' < |inodes| && 0 <= k < NSLOTS ==>
         Addr(inodes'[i'], blk, k) == if InRange(Slot(i', k), i, lo, hi) then 0 else Addr(inodes[i'], blk, k)
  }

  /** The blocks leave the inode and become pending. */
  lemma Detach(sb: Super, inodes: seq<Inode>, blk: seq<Block>, owner: map<nat, Slot>, pending: set<nat>,
               inodes': seq<Inode>, i: nat, lo: nat, hi: nat)
    requires FsInv(sb, inodes, blk, owner, pending) && Shape(sb, inodes', blk)
    requires SlotsCleared(sb, inodes, blk, inodes', i, lo, hi)
    ensures FsInv(sb, inodes', blk, OwnerWithout(owner, i, lo, hi), pending + BlocksIn(owner, i, lo, hi))
  {
    hide Addr, Marked;
    var owner' := OwnerWithout(owner, i, lo, hi);
    forall i', k | 0 <= i' < |inodes'| && 0 <= k < NSLOTS
      ensures Named(sb, Addr(inodes'[i'], blk, k), owner', Slot(i', k))
    {
      assert Named(sb, Addr(inodes[i'], blk, k), owner, Slot(i', k));
    }
    forall a | a in owner ensures Names(sb, inodes, blk, a, owner[a]) {}
    forall c | 0 <= c < sb.size
      ensures Marked(sb, blk, c) <==> c < sb.datastart || c in owner' || c in pending + BlocksIn(owner, i, lo, hi)
    {
      assert Marked(sb, blk, c) <==> c < sb.datastart || c in owner || c in pending;
    }
  }

  /** Clearing addrs[k] clears slot k, and with the indirect block all its entries. */
  lemma AddrCleared(sb: Super, inodes: seq<Inode>, blk: seq<Block>, i: nat, k: nat)
    requires Shape(sb, inodes, blk) && i < |inodes| && k <= NDIRECT
    ensures Shape(sb, SetAddr(inodes, i, k, 0), blk)
    ensures SlotsCleared(sb, inodes, blk, SetAddr(inodes, i, k, 0), i, k, if k < NDIRECT then k + 1 else NSLOTS)
  {
    hide Word;
  }

  /** The blocks of one inode. */
  lemma BlocksInOne(sb: Super, inodes: seq<Inode>, blk: seq<Block>, owner: map<nat, Slot>, i: nat, k: nat)
    requires Shape(sb, inodes, blk) && Owned(sb, inodes, blk, owner) && i < |inodes| && k < NSLOTS
    ensures var a := Addr(inodes[i], blk, k); BlocksIn(owner, i, k, k + 1) == if a == 0 then {} else {a}
  {
    hide Addr;
    var a, hi := Addr(inodes[i], blk, k), k + 1;
    assert Named(sb, a, owner, Slot(i, k));
    forall c | c in BlocksIn(owner, i, k, hi) ensures c == a {
      assert Names(sb, inodes, blk, c, owner[c]);
    }
  }

  // ------------------------------------------------------------ file contents

  function SlotOf(bn: nat): (k: nat) {
    if bn < NDIRECT then bn else bn + 1
  }

  /** Byte p of a file; a hole reads as zero. */
  function ByteAt(ino: Inode, blk: seq<Block>, p: nat): (r: byte)
    requires |ino.addrs| == NDIRECT + 1 && p < MAXFILE * BSIZE
  {
    var a := Addr(ino, blk, SlotOf(p / BSIZE));
    if 0 < a < |blk| then blk[a].data[p % BSIZE] else 0
  }

  function File(ino: Inode, blk: seq<Block>): (r: seq<byte>)
    requires |ino.addrs| == NDIRECT + 1 && ino.size <= MAXFILE * BSIZE
    ensures |r| == ino.size
  {
    seq(ino.size, p requires 0 <= p < ino.size => ByteAt(ino, blk, p))
  }

  /** Every block up to the size is there. */
  ghost predicate NoHole(ino: Inode, blk: seq<Block>)
    requires |ino.addrs| == NDIRECT + 1 && ino.size <= MAXFILE * BSIZE
  {
    forall bn :: 0 <= bn < MAXFILE && bn * BSIZE < ino.size ==> Addr(ino, blk, SlotOf(bn)) != 0
  }

  /** blk' holds the same data in every owned data block. */
  ghost predicate DataSame(owner: map<nat, Slot>, blk: seq<Block>, blk': seq<Block>) {
    |blk'| == |blk| && forall a :: a in owner ==> BlockSame(a, owner[a], blk, blk')
  }

  ghost predicate BlockSame(a: nat, s: Slot, blk: seq<Block>, blk': seq<Block>) {
    s.k != NDIRECT && a < |blk| && a < |blk'| ==> blk'[a] == blk[a]
  }

  /** Every byte position of the inode, within its size or not, reads as before. */
  ghost predicate BytesKept(ino: Inode, blk: seq<Block>, ino': Inode, blk': seq<Block>)
    requires |ino.addrs| == NDIRECT + 1 && |ino'.addrs| == NDIRECT + 1
  {
    forall p :: 0 <= p < MAXFILE * BSIZE ==> ByteAt(ino', blk', p) == ByteAt(ino, blk, p)
  }

  /** Every block the inode had, it still has, in the same place. */
  ghost predicate SlotsKept(ino: Inode, blk: seq<Block>, ino': Inode, blk': seq<Block>)
    requires |ino.addrs| == NDIRECT + 1 && |ino'.addrs| == NDIRECT + 1
  {
    forall k :: 0 <= k < NSLOTS ==> Addr(ino, blk, k) != 0 ==> Addr(ino', blk', k) == Addr(ino, blk, k)
  }

  ghost predicate Grows(a: nat, a': nat, blk': seq<Block>) {
    a' == a || (a == 0 && a' < |blk'| && blk'[a'] == Zero())
  }

  /** A change that keeps every named block's data, and may only add zeroed blocks to
      inode j, changes none of its bytes. */
  lemma GrowthKeepsBytes(sb: Super, inodes: seq<Inode>, blk: seq<Block>, owner: map<nat, Slot>, inodes': seq<Inode>,
                         blk': seq<Block>, j: nat)
    requires Shape(sb, inodes, blk) && Shape(sb, inodes', blk') && Owned(sb, inodes, blk, owner)
    requires j < |inodes| && j < |inodes'| && DataSame(owner, blk, blk')
    requires forall k :: 0 <= k < NSLOTS ==> Grows(Addr(inodes[j], blk, k), Addr(inodes'[j], blk', k), blk')
    ensures BytesKept(inodes[j], blk, inodes'[j], blk') && SlotsKept(inodes[j], blk, inodes'[j], blk')
  {
    hide Addr;
    forall p | 0 <= p < MAXFILE * BSIZE ensures ByteAt(inodes'[j], blk', p) == ByteAt(inodes[j], blk, p) {
      var k := SlotOf(p / BSIZE);
      assert Grows(Addr(inodes[j], blk, k), Addr(inodes'[j], blk', k), blk');
      assert Named(sb, Addr(inodes[j], blk, k), owner, Slot(j, k));
      assert Addr(inodes[j], blk, k) != 0 ==> BlockSame(Addr(inodes[j], blk, k), Slot(j, k), blk, blk');
    }
    forall k | 0 <= k < NSLOTS && Addr(inodes[j], blk, k) != 0
      ensures Addr(inodes'[j], blk', k) == Addr(inodes[j], blk, k)
    {
      assert Grows(Addr(inodes[j], blk, k), Addr(inodes'[j], blk', k), blk');
    }
  }

  /** Storing into data block bn of inode i changes the bytes of that block of that
      inode and no others. */
  lemma StoreBytes(sb: Super, inodes: seq<Inode>, blk: seq<Block>, owner: map<nat, Slot>, i: nat, bn: nat, x: Block,
                   j: nat, p: nat)
    requires Shape(sb, inodes, blk) && Owned(sb, inodes, blk, owner) && i < |inodes| && bn < MAXFILE
    requires Addr(inodes[i], blk, SlotOf(bn)) != 0 && j < |inodes| && p < MAXFILE * BSIZE
    ensures var a := Addr(inodes[i], blk, SlotOf(bn));
            && sb.InData(a)
            && ByteAt(inodes[j], blk[a := x], p) == if j == i && p / BSIZE == bn then x.data[p % BSIZE]
                                                    else ByteAt(inodes[j], blk, p)
  {
    var a := Addr(inodes[i], blk, SlotOf(bn));
    assert Named(sb, a, owner, Slot(i, SlotOf(bn)));
    AddrSame(sb, inodes, blk, owner, a, x);
    hide Addr;
    var k := SlotOf(p / BSIZE);
    assert Addr(inodes[j], blk[a := x], k) == Addr(inodes[j], blk, k);
    assert Named(sb, Addr(inodes[j], blk, k), owner, Slot(j, k));
  }
}
