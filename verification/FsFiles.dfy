/**
 Blocks and files of fs.c over the block map that the cache and log present.
 */
module FsFiles {
  import opened Blocks
  import opened Bitmap
  import opened FsBlocks

  /** No block is free. */
  ghost predicate Full(sb: Super, blk: seq<Block>)
    requires sb.Valid() && |blk| == sb.size
  {
    MarkedBelow(sb, blk, sb.size)
  }

  ghost predicate MarkedBelow(sb: Super, blk: seq<Block>, b: nat)
    requires sb.Valid() && |blk| == sb.size && b <= sb.size
  {
    forall c :: 0 <= c < b ==> sb.bmapstart + c / BPB < sb.size && Marked(sb, blk, c)
  }

  /** Block b holds part of the free bitmap. */
  ghost predicate IsBitmap(sb: Super, b: nat) {
    sb.size > 0 && sb.bmapstart <= b <= sb.bmapstart + (sb.size - 1) / BPB
  }

  lemma BitmapIs(sb: Super, b: nat)
    requires sb.Valid() && b < sb.size
    ensures IsBitmap(sb, sb.bmapstart + b / BPB)
  {
    assert b / BPB <= (sb.size - 1) / BPB;
  }

  lemma NoneBelow(sb: Super, blk: seq<Block>)
    requires sb.Valid() && |blk| == sb.size
    ensures MarkedBelow(sb, blk, 0)
  {
  }

  lemma OneMoreMarked(sb: Super, blk: seq<Block>, b: nat)
    requires sb.Valid() && |blk| == sb.size && b < sb.size && MarkedBelow(sb, blk, b)
    requires sb.bmapstart + b / BPB < sb.size && Marked(sb, blk, b)
    ensures MarkedBelow(sb, blk, b + 1)
  {
    hide Marked;
  }

  /** Bit bi of bitmap block q is the mark of block q * BPB + bi. */
  lemma BitPlace(sb: Super, blk: seq<Block>, q: nat, bi: nat)
    requires sb.Valid() && |blk| == sb.size && bi < BPB && q * BPB + bi < sb.size
    ensures sb.bmapstart + q < sb.size && q * BPB / BPB == q && sb.bmapstart + (q * BPB + bi) / BPB < sb.size
    ensures Marked(sb, blk, q * BPB + bi) == BlockBit(blk[sb.bmapstart + q], bi)
  {
    BitmapPlace(sb, q * BPB + bi);
    hide BlockBit;
    assert (q * BPB + bi) / BPB == q && (q * BPB + bi) % BPB == bi;
  }

  /** From the old state to the new one, inode i may have gained blocks; nothing else
      about any inode, and no byte of any file, has changed. */
  ghost predicate Extended(sb: Super, inodes: seq<Inode>, blk: seq<Block>, inodes': seq<Inode>, blk': seq<Block>,
                           i: nat) {
    && Shape(sb, inodes, blk) && Shape(sb, inodes', blk') && |inodes'| == |inodes| && i < |inodes|
    && inodes' == inodes[i := inodes[i].(addrs := inodes'[i].addrs)]
    && forall j :: 0 <= j < |inodes| ==> Kept(inodes[j], blk, inodes'[j], blk')
  }

  ghost predicate Kept(ino: Inode, blk: seq<Block>, ino': Inode, blk': seq<Block>)
    requires |ino.addrs| == NDIRECT + 1 && |ino'.addrs| == NDIRECT + 1
  {
    BytesKept(ino, blk, ino', blk') && SlotsKept(ino, blk, ino', blk')
  }

  lemma ExtendedSelf(sb: Super, inodes: seq<Inode>, blk: seq<Block>, i: nat)
    requires Shape(sb, inodes, blk) && i < |inodes|
    ensures Extended(sb, inodes, blk, inodes, blk, i)
  {
    hide Addr, ByteAt;
  }

  lemma ExtendedTrans(sb: Super, n1: seq<Inode>, b1: seq<Block>, n2: seq<Inode>, b2: seq<Block>, n3: seq<Inode>,
                      b3: seq<Block>, i: nat)
    requires Extended(sb, n1, b1, n2, b2, i) && Extended(sb, n2, b2, n3, b3, i)
    ensures Extended(sb, n1, b1, n3, b3, i)
  {
    hide Addr, ByteAt;
    forall j | 0 <= j < |n1| ensures Kept(n1[j], b1, n3[j], b3) {
      assert Kept(n1[j], b1, n2[j], b2) && Kept(n2[j], b2, n3[j], b3);
    }
  }

  /** Allocating a block changes no slot and no data. */
  lemma BallocKeepsSlots(sb: Super, inodes: seq<Inode>, blk: seq<Block>, owner: map<nat, Slot>, blk': seq<Block>,
                         r: nat)
    requires Shape(sb, inodes, blk) && Owned(sb, inodes, blk, owner) && r !in owner && |blk'| == |blk|
    requires forall c: nat :: sb.InData(c) && c != r ==> blk'[c] == blk[c]
    ensures DataSame(owner, blk, blk')
    ensures forall i, k :: 0 <= i < |inodes| && 0 <= k < NSLOTS ==> Addr(inodes[i], blk', k) == Addr(inodes[i], blk, k)
  {
    hide Word;
    forall i, k | 0 <= i < |inodes| && 0 <= k < NSLOTS ensures Addr(inodes[i], blk', k) == Addr(inodes[i], blk, k) {
      assert Named(sb, Addr(inodes[i], blk, NDIRECT), owner, Slot(i, NDIRECT));
    }
    forall a | a in owner ensures BlockSame(a, owner[a], blk, blk') {
      assert Names(sb, inodes, blk, a, owner[a]);
    }
  }

  /** Giving a zeroed block to slot s of inode i extends the files. */
  lemma AttachExtends(sb: Super, inodes: seq<Inode>, blk: seq<Block>, owner: map<nat, Slot>, blk1: seq<Block>,
                      inodes': seq<Inode>, blk': seq<Block>, s: Slot, r: nat)
    requires Shape(sb, inodes, blk) && Shape(sb, inodes, blk1) && Shape(sb, inodes', blk')
    requires Owned(sb, inodes, blk, owner)
    requires forall i, k :: 0 <= i < |inodes| && 0 <= k < NSLOTS ==> Addr(inodes[i], blk1, k) == Addr(inodes[i], blk, k)
    requires SlotSet(sb, inodes, blk1, inodes', blk', s, r) && Addr(inodes[s.inum], blk, s.k) == 0
    requires DataSame(owner, blk, blk') && r < |blk'| && blk'[r] == Zero()
    requires inodes' == inodes[s.inum := inodes[s.inum].(addrs := inodes'[s.inum].addrs)]
    ensures Extended(sb, inodes, blk, inodes', blk', s.inum)
  {
    hide Addr, ByteAt, Zero;
    forall j | 0 <= j < |inodes| ensures Kept(inodes[j], blk, inodes'[j], blk') {
      forall k | 0 <= k < NSLOTS ensures Grows(Addr(inodes[j], blk, k), Addr(inodes'[j], blk', k), blk') {
        assert Addr(inodes[j], blk1, k) == Addr(inodes[j], blk, k);
      }
      GrowthKeepsBytes(sb, inodes, blk, owner, inodes', blk', j);
    }
  }

  /** No block outside the metadata has changed. */
  ghost predicate DataKept(sb: Super, blk0: seq<Block>, blk: seq<Block>) {
    |blk| == |blk0| && forall c: nat :: sb.InData(c) && c < |blk0| ==> blk[c] == blk0[c]
  }

  lemma DataKeptTrans(sb: Super, b1: seq<Block>, b2: seq<Block>, b3: seq<Block>)
    requires DataKept(sb, b1, b2) && DataKept(sb, b2, b3)
    ensures DataKept(sb, b1, b3)
  {
  }

  /** Only the addresses matter to ownership. */
  lemma SameAddrs(sb: Super, inodes: seq<Inode>, inodes': seq<Inode>, blk: seq<Block>, owner: map<nat, Slot>,
                  pending: set<nat>, i: nat)
    requires FsInv(sb, inodes, blk, owner, pending) && i < |inodes| && |inodes'| == |inodes|
    requires inodes' == inodes[i := inodes'[i]] && inodes'[i].addrs == inodes[i].addrs
    requires inodes'[i].size <= MAXFILE * BSIZE
    ensures FsInv(sb, inodes', blk, owner, pending)
  {
    hide Word, Marked;
    forall j, k | 0 <= j < |inodes| && 0 <= k < NSLOTS ensures Addr(inodes'[j], blk, k) == Addr(inodes[j], blk, k) {}
    hide Addr;
    forall j, k | 0 <= j < |inodes| && 0 <= k < NSLOTS ensures Named(sb, Addr(inodes'[j], blk, k), owner, Slot(j, k)) {
      assert Named(sb, Addr(inodes[j], blk, k), owner, Slot(j, k));
    }
    forall a | a in owner ensures Names(sb, inodes', blk, a, owner[a]) {
      assert Names(sb, inodes, blk, a, owner[a]);
    }
  }

  /** Every block that differs between the states has been passed to log_write. */
  ghost predicate Covered(blk0: seq<Block>, blk: seq<Block>, logged: set<nat>) {
    |blk| == |blk0| && forall b :: 0 <= b < |blk| && blk[b] != blk0[b] ==> b in logged
  }

  lemma NoneChanged(blk: seq<Block>, logged: set<nat>)
    ensures Covered(blk, blk, logged)
  {
  }

  lemma CoveredThen(b0: seq<Block>, b1: seq<Block>, b2: seq<Block>, l1: set<nat>, l2: set<nat>)
    requires Covered(b0, b1, l1) && Covered(b1, b2, l2) && l1 <= l2
    ensures Covered(b0, b2, l2)
  {
  }

  class Fs {
    const sb: Super
    var inodes: seq<Inode>
    /** Current contents of every block, as the buffer cache shows them. */
    var blk: seq<Block>
    ghost var owner: map<nat, Slot>
    /** Blocks that other processes have allocated and not yet put into an inode. */
    ghost const others: set<nat>
    /** Blocks passed to log_write since the operation began. */
    ghost var dirty: set<nat>

    constructor (sb: Super, inodes: seq<Inode>, blk: seq<Block>, ghost owner: map<nat, Slot>, ghost others: set<nat>)
      requires FsInv(sb, inodes, blk, owner, others)
      ensures this.sb == sb && this.inodes == inodes && this.blk == blk && this.owner == owner && this.others == others
      ensures dirty == {}
    {
      this.sb, this.inodes, this.blk, this.owner, this.others, dirty := sb, inodes, blk, owner, others, {};
    }

    /** The blocks in `pending` are allocated but in no inode yet. */
    ghost predicate Valid(pending: set<nat>)
      reads this
    {
      FsInv(sb, inodes, blk, owner, pending)
    }

    /** The scan of balloc: the first block whose bit is clear, or sb.size. */
    method FindFree() returns (r: nat)
      requires sb.Valid() && |blk| == sb.size
      ensures r <= sb.size && MarkedBelow(sb, blk, r)
      ensures r < sb.size ==> sb.bmapstart + r / BPB < sb.size && !Marked(sb, blk, r)
    {
      hide BlockBit, Marked, MarkedBelow;
      NoneBelow(sb, blk);
      var b := 0;
      ghost var q := 0;
      while b < sb.size
        invariant b == q * BPB && MarkedBelow(sb, blk, if b < sb.size then b else sb.size)
      {
        var bi := 0;
        while bi < BPB && b + bi < sb.size
          invariant 0 <= bi <= BPB && b + bi <= sb.size && MarkedBelow(sb, blk, b + bi)
        {
          BitPlace(sb, blk, q, bi);
          if !BlockBit(blk[sb.bmapstart + b / BPB], bi) {
            return b + bi;
          }
          OneMoreMarked(sb, blk, b + bi);
          bi := bi + 1;
        }
        b := b + BPB;
        q := q + 1;
      }
      return sb.size;
    }

    /** Allocate and zero the first free block; 0 if there is none. */
    method Balloc(ghost pending: set<nat>) returns (r: nat)
      requires Valid(pending)
      modifies this`blk, this`dirty
      ensures sb.Valid() && |old(blk)| == |blk| == sb.size
      ensures r == 0 ==> blk == old(blk) && dirty == old(dirty) && Full(sb, blk)
      ensures r != 0 ==> sb.InData(r) && r !in owner && r !in pending && Valid(pending + {r})
                         && MarkedBelow(sb, old(blk), r) && blk[r] == Zero()
                         && (forall c: nat :: sb.InData(c) && c != r ==> blk[c] == old(blk[c]))
                         && dirty == old(dirty) + {sb.bmapstart + r / BPB, r}
      ensures Covered(old(blk), blk, dirty)
    {
      r := FindFree();
      hide SetBit, Zero, Marked;
      if r == sb.size {
        return 0;
      }
      Allocate(sb, inodes, blk, owner, pending, r);
      FreshBlock(pending, r);
      BitmapPlace(sb, r);
      hide FsInv;
      var bp := sb.bmapstart + r / BPB;
      blk := blk[bp := SetBit(blk[bp], r % BPB)];
      blk := blk[r := Zero()];
      dirty := dirty + {bp, r};
    }

    lemma FreshBlock(pending: set<nat>, b: nat)
      requires Valid(pending) && b < sb.size && sb.bmapstart + b / BPB < sb.size && !Marked(sb, blk, b)
      ensures b !in owner && b !in pending && sb.InData(b)
    {
      hide Marked, Owned;
      assert Marked(sb, blk, b) <==> b < sb.datastart || b in owner || b in pending;
    }

    /** Clear the bit of a block that is in no inode of `view`, the inode table as it
        will be once the caller has cleared the address. */
    method Bfree(b: nat, ghost view: seq<Inode>, ghost own: map<nat, Slot>, ghost pending: set<nat>)
      requires FsInv(sb, view, blk, own, pending) && b in pending
      modifies this`blk, this`dirty
      ensures FsInv(sb, view, blk, own, pending - {b}) && DataKept(sb, old(blk), blk)
      ensures dirty == old(dirty) + {sb.bmapstart + b / BPB}
    {
      Free(sb, view, blk, own, pending, b);
      var bp := sb.bmapstart + b / BPB;
      assert BlockBit(blk[bp], b % BPB);  // the "freeing free block" panic
      BitmapPlace(sb, b);
      hide FsInv, ClearBit;
      blk := blk[bp := ClearBit(blk[bp], b % BPB)];
      dirty := dirty + {bp};
    }

    /** Allocate a block into addrs[k] of inode i. */
    method AddDirect(i: nat, k: nat) returns (r: nat)
      requires Valid(others) && i < |inodes| && k <= NDIRECT && inodes[i].addrs[k] == 0
      modifies this`inodes, this`blk, this`owner, this`dirty
      ensures Valid(others) && Extended(sb, old(inodes), old(blk), inodes, blk, i)
      ensures r == 0 ==> inodes == old(inodes) && blk == old(blk) && dirty == old(dirty) && Full(sb, blk)
      ensures |inodes| == |old(inodes)| && (r != 0 ==> IsBitmap(sb, sb.bmapstart + r / BPB))
      ensures r != 0 ==>
                inodes[i].addrs == old(inodes[i].addrs)[k := r] && dirty == old(dirty) + {sb.bmapstart + r / BPB, r}
      ensures r != 0 ==> r < sb.size && blk[r] == Zero()
      ensures Covered(old(blk), blk, dirty)
    {
      hide Zero, Marked, Word, Owned, BitsExact;
      ghost var was, o := blk, owner;
      r := Balloc(others);
      if r == 0 {
        ExtendedSelf(sb, inodes, blk, i);
        return;
      }
      BitmapIs(sb, r);
      BallocKeepsSlots(sb, inodes, was, o, blk, r);
      Attach(sb, inodes, blk, owner, others + {r}, i, k, r);
      assert others + {r} - {r} == others;
      ghost var now := SetAddr(inodes, i, k, r);
      AttachExtends(sb, inodes, was, o, blk, now, blk, Slot(i, k), r);
      inodes := inodes[i := inodes[i].(addrs := inodes[i].addrs[k := r])];
      owner := owner[r := Slot(i, k)];
    }

    /** Allocate a block into entry j of inode i's indirect block. */
    method AddEntry(i: nat, j: nat) returns (r: nat)
      requires Valid(others) && i < |inodes| && j < NINDIRECT
      requires |inodes[i].addrs| > NDIRECT && inodes[i].addrs[NDIRECT] != 0
      requires Entry(blk, inodes[i].addrs[NDIRECT], j) == 0
      modifies this`blk, this`owner, this`dirty
      ensures sb.Valid() && |blk| == sb.size && Valid(others) && Extended(sb, old(inodes), old(blk), inodes, blk, i)
      ensures r == 0 ==> blk == old(blk) && dirty == old(dirty) && Full(sb, blk)
      ensures r != 0 ==> Entry(blk, inodes[i].addrs[NDIRECT], j) == r && IsBitmap(sb, sb.bmapstart + r / BPB)
      ensures r != 0 ==> dirty == old(dirty) + {sb.bmapstart + r / BPB, r, inodes[i].addrs[NDIRECT]}
      ensures Covered(old(blk), blk, dirty)
    {
      ghost var was, o := blk, owner;
      hide Zero, Marked, Word, SetWord, BitsExact;
      assert Addr(inodes[i], blk, NDIRECT + 1 + j) == 0;
      r := Balloc(others);
      if r == 0 {
        ExtendedSelf(sb, inodes, blk, i);
        return;
      }
      BitmapIs(sb, r);
      BallocKeepsSlots(sb, inodes, was, o, blk, r);
      AttachEntry(sb, inodes, blk, owner, others + {r}, i, j, r);
      assert others + {r} - {r} == others;
      var d := inodes[i].addrs[NDIRECT];
      ghost var now := blk[d := SetWord(blk[d], j, r)];
      IndirectOwned(i);
      EntryKeepsData(was, blk, d, SetWord(blk[d], j, r));
      assert inodes == inodes[i := inodes[i].(addrs := inodes[i].addrs)];
      AttachExtends(sb, inodes, was, o, blk, inodes, now, Slot(i, NDIRECT + 1 + j), r);
      blk := blk[d := SetWord(blk[d], j, r)];
      owner := owner[r := Slot(i, NDIRECT + 1 + j)];
      dirty := dirty + {d};
    }

    lemma IndirectOwned(i: nat)
      requires Shape(sb, inodes, blk) && Owned(sb, inodes, blk, owner) && i < |inodes| && inodes[i].addrs[NDIRECT] != 0
      ensures var d := inodes[i].addrs[NDIRECT]; sb.InData(d) && d in owner && owner[d] == Slot(i, NDIRECT)
    {
      hide Word;
      assert Named(sb, Addr(inodes[i], blk, NDIRECT), owner, Slot(i, NDIRECT));
    }

    lemma EntryKeepsData(was: seq<Block>, now: seq<Block>, d: nat, x: Block)
      requires DataSame(owner, was, now) && d in owner && owner[d].k == NDIRECT && d < |now|
      ensures DataSame(owner, was, now[d := x])
    {
      var later := now[d := x];
      forall a | a in owner ensures BlockSame(a, owner[a], was, later) {
        assert BlockSame(a, owner[a], was, now);
      }
    }

    /** The address of block bn of inode i, allocating it if need be; 0 when the disk is full. */
    method Bmap(i: nat, bn: nat) returns (addr: nat)
      requires Valid(others) && i < |inodes| && bn < MAXFILE
      modifies this`inodes, this`blk, this`owner, this`dirty
      ensures Valid(others) && Extended(sb, old(inodes), old(blk), inodes, blk, i)
      ensures addr == 0 ==> Full(sb, blk)
      ensures addr != 0 ==> Addr(inodes[i], blk, SlotOf(bn)) == addr
      ensures old(Addr(inodes[i], blk, SlotOf(bn))) != 0 ==>
                addr == old(Addr(inodes[i], blk, SlotOf(bn))) && inodes == old(inodes) && blk == old(blk)
                  && dirty == old(dirty)
      ensures forall b :: b in dirty ==>
                b in old(dirty) || (b != 0 && (b == addr || b == inodes[i].addrs[NDIRECT])) || IsBitmap(sb, b)
      ensures Covered(old(blk), blk, dirty) && old(dirty) <= dirty
    {
      hide Zero, Word, Marked, Owned, BitsExact, Extended, Covered;
      NoneChanged(blk, dirty);
      ExtendedSelf(sb, inodes, blk, i);
      if bn < NDIRECT {
        addr := inodes[i].addrs[bn];
        if addr == 0 {
          addr := AddDirect(i, bn);
        }
        return;
      }
      var j := bn - NDIRECT;
      ghost var n1, b1 := inodes, blk;
      if inodes[i].addrs[NDIRECT] == 0 {
        var ind := AddDirect(i, NDIRECT);
        if ind == 0 {
          return 0;
        }
      }
      addr := Entry(blk, inodes[i].addrs[NDIRECT], j);
      if addr == 0 {
        ghost var n2, b2, l2 := inodes, blk, dirty;
        addr := AddEntry(i, j);
        ExtendedTrans(sb, n1, b1, n2, b2, inodes, blk, i);
        CoveredThen(b1, b2, blk, l2, dirty);
      }
    }
  }
}
