/** itrunc frees exactly the blocks of its inode. */
module FsTrunc {
  import opened Blocks
  import opened Bitmap
  import opened FsBlocks
  import opened FsFiles

  lemma WithoutMore(owner: map<nat, Slot>, i: nat, lo: nat, mid: nat, hi: nat)
    requires lo <= mid <= hi
    ensures OwnerWithout(OwnerWithout(owner, i, lo, mid), i, mid, hi) == OwnerWithout(owner, i, lo, hi)
    ensures BlocksIn(OwnerWithout(owner, i, lo, mid), i, mid, hi) == BlocksIn(owner, i, mid, hi)
    ensures BlocksIn(owner, i, lo, hi) == BlocksIn(owner, i, lo, mid) + BlocksIn(owner, i, mid, hi)
    ensures BlocksIn(owner, i, lo, mid) !! BlocksIn(owner, i, mid, hi)
  {
  }

  /** The first k direct blocks of inode i are gone since the state (inodes0, blk0, owner0). */
  ghost predicate Truncating(fs: Fs, inodes0: seq<Inode>, blk0: seq<Block>, owner0: map<nat, Slot>, i: nat, k: nat)
    reads fs
  {
    && fs.Valid(fs.others) && Shape(fs.sb, inodes0, blk0) && i < |inodes0| && k <= NDIRECT
    && fs.inodes == inodes0[i := inodes0[i].(addrs := ZeroedTo(inodes0[i].addrs, k))]
    && fs.owner == OwnerWithout(owner0, i, 0, k)
    && DataKept(fs.sb, blk0, fs.blk)
  }

  ghost function ZeroedTo(addrs: seq<nat>, k: nat): (r: seq<nat>)
    requires k <= |addrs|
    ensures |r| == |addrs|
  {
    seq(k, _ => 0) + addrs[k..]
  }

  lemma ZeroedMore(addrs: seq<nat>, k: nat)
    requires k < |addrs|
    ensures ZeroedTo(addrs, k)[k] == addrs[k] && ZeroedTo(addrs, k)[k := 0] == ZeroedTo(addrs, k + 1)
  {
  }

  lemma TruncView(inodes0: seq<Inode>, inodes: seq<Inode>, i: nat, k: nat)
    requires i < |inodes0| && k < |inodes0[i].addrs|
    requires inodes == inodes0[i := inodes0[i].(addrs := ZeroedTo(inodes0[i].addrs, k))]
    ensures SetAddr(inodes, i, k, 0) == inodes0[i := inodes0[i].(addrs := ZeroedTo(inodes0[i].addrs, k + 1))]
    ensures inodes[i].addrs[k] == 0 ==> SetAddr(inodes, i, k, 0) == inodes
  {
    ZeroedMore(inodes0[i].addrs, k);
    hide ZeroedTo;
    assert inodes[i].addrs[k] == 0 ==> inodes[i].addrs[k := 0] == inodes[i].addrs;
  }

  /** Dropping direct block k leaves at most that block pending besides. */
  lemma DropDirect(sb: Super, inodes: seq<Inode>, blk: seq<Block>, owner: map<nat, Slot>, others: set<nat>, i: nat,
                   k: nat)
    requires FsInv(sb, inodes, blk, owner, others) && i < |inodes| && k < NDIRECT
    ensures var a := inodes[i].addrs[k];
            && (a != 0 ==> a !in others)
            && FsInv(sb, SetAddr(inodes, i, k, 0), blk, OwnerWithout(owner, i, k, k + 1),
                     if a == 0 then others else others + {a})
  {
    AddrCleared(sb, inodes, blk, i, k);
    BlocksInOne(sb, inodes, blk, owner, i, k);
    assert Addr(inodes[i], blk, k) == inodes[i].addrs[k];
    NamedApart(sb, inodes, blk, owner, others, i, k);
    hide Addr, Owned, BitsExact, OwnerWithout, BlocksIn;
    Detach(sb, inodes, blk, owner, others, SetAddr(inodes, i, k, 0), i, k, k + 1);
    assert others + {} == others;
  }

  /** A block in an inode is not pending. */
  lemma NamedApart(sb: Super, inodes: seq<Inode>, blk: seq<Block>, owner: map<nat, Slot>, others: set<nat>, i: nat,
                   k: nat)
    requires FsInv(sb, inodes, blk, owner, others) && i < |inodes| && k < NSLOTS
    ensures var a := Addr(inodes[i], blk, k); a != 0 ==> a in owner && a !in others
    ensures others !! owner.Keys
  {
    hide Addr, Marked;
    assert Named(sb, Addr(inodes[i], blk, k), owner, Slot(i, k));
  }

  method FreeDirect(fs: Fs, i: nat, k: nat, ghost inodes0: seq<Inode>, ghost blk0: seq<Block>,
                    ghost owner0: map<nat, Slot>)
    requires Truncating(fs, inodes0, blk0, owner0, i, k) && k < NDIRECT
    modifies fs
    ensures Truncating(fs, inodes0, blk0, owner0, i, k + 1)
  {
    hide FsInv, OwnerWithout, ZeroedTo, DataKept;
    ghost var view, own := SetAddr(fs.inodes, i, k, 0), OwnerWithout(fs.owner, i, k, k + 1);
    WithoutMore(owner0, i, 0, k, k + 1);
    TruncView(inodes0, fs.inodes, i, k);
    DropDirect(fs.sb, fs.inodes, fs.blk, fs.owner, fs.others, i, k);
    var a := fs.inodes[i].addrs[k];
    if a != 0 {
      ghost var blk := fs.blk;
      fs.Bfree(a, view, own, fs.others + {a});
      DataKeptTrans(fs.sb, blk0, blk, fs.blk);
      assert fs.others + {a} - {a} == fs.others;
      fs.inodes := fs.inodes[i := fs.inodes[i].(addrs := fs.inodes[i].addrs[k := 0])];
    }
    fs.owner := own;
  }

  /** The entries of the indirect block `ind` of inode i before j are freed; `view` and
      `own` are the inodes and owners once the indirect block is dropped. */
  ghost predicate Releasing(fs: Fs, blk0: seq<Block>, view: seq<Inode>, own: map<nat, Slot>, i: nat, j: nat, ind: nat)
    reads fs
  {
    && Shape(fs.sb, fs.inodes, fs.blk) && Owned(fs.sb, fs.inodes, fs.blk, fs.owner)
    && i < |fs.inodes| && fs.inodes[i].addrs[NDIRECT] == ind && 0 < ind < |fs.blk| && j <= NINDIRECT
    && ind in fs.owner && fs.owner[ind] == Slot(i, NDIRECT) && fs.others !! fs.owner.Keys
    && FsInv(fs.sb, view, fs.blk, own, fs.others + BlocksIn(fs.owner, i, NDIRECT + 1 + j, NSLOTS) + {ind})
    && DataKept(fs.sb, blk0, fs.blk)
  }

  /** What freeing entry j of the indirect block leaves to be freed. */
  lemma EntryPending(sb: Super, inodes: seq<Inode>, blk: seq<Block>, owner: map<nat, Slot>, i: nat, j: nat, ind: nat)
    requires Shape(sb, inodes, blk) && Owned(sb, inodes, blk, owner) && i < |inodes| && j < NINDIRECT
    requires inodes[i].addrs[NDIRECT] == ind && ind in owner && owner[ind] == Slot(i, NDIRECT)
    ensures var k := NDIRECT + 1 + j; var a := Entry(blk, ind, j);
            var now, later := BlocksIn(owner, i, k, NSLOTS) + {ind}, BlocksIn(owner, i, k + 1, NSLOTS) + {ind};
            if a == 0 then now == later else a in owner && a in now && now - {a} == later
  {
    var k := NDIRECT + 1 + j;
    BlocksInOne(sb, inodes, blk, owner, i, k);
    assert Addr(inodes[i], blk, k) == Entry(blk, ind, j);
    hide Addr, Owned, Word;
    WithoutMore(owner, i, k, k + 1, NSLOTS);
    assert ind !in BlocksIn(owner, i, k, NSLOTS);
  }

  method FreeEntry(fs: Fs, i: nat, j: nat, ind: nat, ghost blk0: seq<Block>, ghost view: seq<Inode>,
                   ghost own: map<nat, Slot>)
    requires Releasing(fs, blk0, view, own, i, j, ind) && j < NINDIRECT
    modifies fs`blk, fs`dirty
    ensures Releasing(fs, blk0, view, own, i, j + 1, ind)
  {
    EntryPending(fs.sb, fs.inodes, fs.blk, fs.owner, i, j, ind);
    ghost var blk := fs.blk;
    hide Owned, FsInv, BlocksIn, Word;
    var a := Entry(fs.blk, ind, j);
    if a != 0 {
      Remaining(fs.others, BlocksIn(fs.owner, i, NDIRECT + 1 + j, NSLOTS),
                BlocksIn(fs.owner, i, NDIRECT + 2 + j, NSLOTS), ind, a);
      fs.Bfree(a, view, own, fs.others + BlocksIn(fs.owner, i, NDIRECT + 1 + j, NSLOTS) + {ind});
      DataKeptTrans(fs.sb, blk0, blk, fs.blk);
      BitmapKeepsOwned(fs.sb, fs.inodes, blk, fs.owner, fs.blk);
    }
  }

  lemma Remaining(others: set<nat>, now: set<nat>, later: set<nat>, ind: nat, a: nat)
    requires a !in others && a in now + {ind} && now + {ind} - {a} == later + {ind}
    ensures a in others + now + {ind} && others + now + {ind} - {a} == others + later + {ind}
  {
    assert others + now + {ind} == others + (now + {ind}) && others + later + {ind} == others + (later + {ind});
  }

  lemma BitmapKeepsOwned(sb: Super, inodes: seq<Inode>, blk: seq<Block>, owner: map<nat, Slot>, blk': seq<Block>)
    requires Shape(sb, inodes, blk) && Owned(sb, inodes, blk, owner) && DataKept(sb, blk, blk')
    ensures Shape(sb, inodes, blk') && Owned(sb, inodes, blk', owner)
  {
    hide Word;
    MetadataUnowned(sb, inodes, blk, owner, 0);
    BallocKeepsSlots(sb, inodes, blk, owner, blk', 0);
    hide Addr;
    forall a | a in owner ensures Names(sb, inodes, blk', a, owner[a]) {
      assert Names(sb, inodes, blk, a, owner[a]);
    }
    forall i, k | 0 <= i < |inodes| && 0 <= k < NSLOTS ensures Named(sb, Addr(inodes[i], blk', k), owner, Slot(i, k)) {
      assert Named(sb, Addr(inodes[i], blk, k), owner, Slot(i, k));
    }
  }

  /** Dropping the indirect block leaves it and the blocks it lists pending. */
  lemma DropIndirect(sb: Super, inodes: seq<Inode>, blk: seq<Block>, owner: map<nat, Slot>, others: set<nat>, i: nat)
    requires FsInv(sb, inodes, blk, owner, others) && i < |inodes| && inodes[i].addrs[NDIRECT] != 0
    ensures var ind := inodes[i].addrs[NDIRECT];
            && sb.InData(ind) && ind in owner && owner[ind] == Slot(i, NDIRECT) && others !! owner.Keys
            && FsInv(sb, SetAddr(inodes, i, NDIRECT, 0), blk, OwnerWithout(owner, i, NDIRECT, NSLOTS),
                     others + BlocksIn(owner, i, NDIRECT + 1, NSLOTS) + {ind})
  {
    var ind := inodes[i].addrs[NDIRECT];
    AddrCleared(sb, inodes, blk, i, NDIRECT);
    BlocksInOne(sb, inodes, blk, owner, i, NDIRECT);
    assert Addr(inodes[i], blk, NDIRECT) == ind;
    assert Named(sb, Addr(inodes[i], blk, NDIRECT), owner, Slot(i, NDIRECT));
    NamedApart(sb, inodes, blk, owner, others, i, NDIRECT);
    hide Addr, Owned, BitsExact;
    WithoutMore(owner, i, NDIRECT, NDIRECT + 1, NSLOTS);
    Detach(sb, inodes, blk, owner, others, SetAddr(inodes, i, NDIRECT, 0), i, NDIRECT, NSLOTS);
    assert others + BlocksIn(owner, i, NDIRECT, NSLOTS) == others + BlocksIn(owner, i, NDIRECT + 1, NSLOTS) + {ind};
  }

  /** Free the indirect block of inode i and every block it lists. */
  method FreeIndirect(fs: Fs, i: nat, ghost inodes0: seq<Inode>, ghost blk0: seq<Block>, ghost owner0: map<nat, Slot>)
    requires Truncating(fs, inodes0, blk0, owner0, i, NDIRECT) && fs.inodes[i].addrs[NDIRECT] != 0
    modifies fs
    ensures fs.Valid(fs.others)
    ensures fs.inodes == inodes0[i := inodes0[i].(addrs := ZeroedTo(inodes0[i].addrs, NDIRECT + 1))]
    ensures fs.owner == OwnerWithout(owner0, i, 0, NSLOTS) && DataKept(fs.sb, blk0, fs.blk)
  {
    hide FsInv, OwnerWithout, ZeroedTo, Owned, BlocksIn, DataKept;
    InvShape(fs.sb, fs.inodes, fs.blk, fs.owner, fs.others);
    ghost var view, own := SetAddr(fs.inodes, i, NDIRECT, 0), OwnerWithout(fs.owner, i, NDIRECT, NSLOTS);
    WithoutMore(owner0, i, 0, NDIRECT, NSLOTS);
    TruncView(inodes0, fs.inodes, i, NDIRECT);
    DropIndirect(fs.sb, fs.inodes, fs.blk, fs.owner, fs.others, i);
    var ind := fs.inodes[i].addrs[NDIRECT];
    FreeEntries(fs, i, ind, blk0, view, own);
    ghost var blk := fs.blk;
    fs.Bfree(ind, view, own, fs.others + {ind});
    DataKeptTrans(fs.sb, blk0, blk, fs.blk);
    assert fs.others + {ind} - {ind} == fs.others;
    fs.inodes := fs.inodes[i := fs.inodes[i].(addrs := fs.inodes[i].addrs[NDIRECT := 0])];
    fs.owner := own;
  }

  lemma AllReleased(fs: Fs, i: nat, ind: nat, blk0: seq<Block>, view: seq<Inode>, own: map<nat, Slot>)
    requires Releasing(fs, blk0, view, own, i, NINDIRECT, ind)
    ensures FsInv(fs.sb, view, fs.blk, own, fs.others + {ind}) && ind !in fs.others
  {
    hide FsInv, Owned, DataKept;
    assert fs.others + BlocksIn(fs.owner, i, NSLOTS, NSLOTS) + {ind} == fs.others + {ind};
  }

  method FreeEntries(fs: Fs, i: nat, ind: nat, ghost blk0: seq<Block>, ghost view: seq<Inode>,
                     ghost own: map<nat, Slot>)
    requires Releasing(fs, blk0, view, own, i, 0, ind)
    modifies fs`blk, fs`dirty
    ensures Releasing(fs, blk0, view, own, i, NINDIRECT, ind) && FsInv(fs.sb, view, fs.blk, own, fs.others + {ind})
  {
    hide Releasing, FsInv;
    for j := 0 to NINDIRECT
      invariant Releasing(fs, blk0, view, own, i, j, ind)
    {
      FreeEntry(fs, i, j, ind, blk0, view, own);
    }
    AllReleased(fs, i, ind, blk0, view, own);
  }

  /** The two loops of itrunc. */
  method FreeAll(fs: Fs, i: nat)
    requires fs.Valid(fs.others) && i < |fs.inodes| && |fs.inodes[i].addrs| == NDIRECT + 1
    modifies fs
    ensures fs.Valid(fs.others)
    ensures fs.inodes ==
            old(fs.inodes)[i := old(fs.inodes[i]).(addrs := ZeroedTo(old(fs.inodes[i].addrs), NDIRECT + 1))]
    ensures fs.owner == OwnerWithout(old(fs.owner), i, 0, NSLOTS) && DataKept(fs.sb, old(fs.blk), fs.blk)
  {
    ghost var inodes0, blk0, owner0 := fs.inodes, fs.blk, fs.owner;
    StartTruncating(fs, i);
    for k := 0 to NDIRECT
      invariant Truncating(fs, inodes0, blk0, owner0, i, k)
    {
      hide Truncating;
      FreeDirect(fs, i, k, inodes0, blk0, owner0);
    }
    hide OwnerWithout, ZeroedTo, Owned, BitsExact, DataKept;
    if fs.inodes[i].addrs[NDIRECT] != 0 {
      FreeIndirect(fs, i, inodes0, blk0, owner0);
    } else {
      NoIndirect(fs.sb, fs.inodes, fs.blk, fs.owner, i);
      WithoutMore(owner0, i, 0, NDIRECT, NSLOTS);
      TruncView(inodes0, fs.inodes, i, NDIRECT);
    }
  }

  /**
   itrunc: inode i keeps no block and no byte, its blocks and only they are freed, and
   every other inode and its file are untouched.
   */
  method Itrunc(fs: Fs, i: nat)
    requires fs.Valid(fs.others) && i < |fs.inodes|
    modifies fs
    ensures fs.Valid(fs.others) && |fs.inodes| == |old(fs.inodes)|
    ensures fs.inodes == old(fs.inodes)[i := old(fs.inodes[i]).(addrs := fs.inodes[i].addrs, size := 0)]
    ensures |fs.inodes[i].addrs| == NDIRECT + 1 && forall k :: 0 <= k <= NDIRECT ==> fs.inodes[i].addrs[k] == 0
    ensures fs.owner == OwnerWithout(old(fs.owner), i, 0, NSLOTS)
    ensures forall j :: 0 <= j < |fs.inodes| && j != i ==>
              |fs.inodes[j].addrs| == NDIRECT + 1 && Kept(fs.inodes[j], old(fs.blk), fs.inodes[j], fs.blk)
  {
    ghost var inodes0, blk0, owner0 := fs.inodes, fs.blk, fs.owner;
    FreeAll(fs, i);
    ghost var n1 := fs.inodes;
    fs.inodes := fs.inodes[i := fs.inodes[i].(size := 0)];
    SameAddrs(fs.sb, n1, fs.inodes, fs.blk, fs.owner, fs.others, i);
    fs.dirty := fs.dirty + {fs.sb.inodestart + i / IPB};  // iupdate
    hide Owned, BitsExact, OwnerWithout, DataKept, Kept;
    forall j | 0 <= j < |fs.inodes| && j != i ensures Kept(fs.inodes[j], blk0, fs.inodes[j], fs.blk) {
      OtherKept(fs.sb, inodes0, blk0, owner0, fs.blk, j);
    }
  }

  lemma StartTruncating(fs: Fs, i: nat)
    requires fs.Valid(fs.others) && i < |fs.inodes|
    ensures Truncating(fs, fs.inodes, fs.blk, fs.owner, i, 0)
  {
    hide Owned, BitsExact;
    assert ZeroedTo(fs.inodes[i].addrs, 0) == fs.inodes[i].addrs;
    assert OwnerWithout(fs.owner, i, 0, 0) == fs.owner;
  }

  lemma NoIndirect(sb: Super, inodes: seq<Inode>, blk: seq<Block>, owner: map<nat, Slot>, i: nat)
    requires Shape(sb, inodes, blk) && Owned(sb, inodes, blk, owner) && i < |inodes| && inodes[i].addrs[NDIRECT] == 0
    ensures OwnerWithout(owner, i, NDIRECT, NSLOTS) == owner
  {
    hide Word;
    forall a | a in owner ensures !InRange(owner[a], i, NDIRECT, NSLOTS) {
      assert Names(sb, inodes, blk, a, owner[a]);
    }
  }

  lemma OtherKept(sb: Super, inodes: seq<Inode>, blk: seq<Block>, owner: map<nat, Slot>, blk': seq<Block>, j: nat)
    requires Shape(sb, inodes, blk) && Owned(sb, inodes, blk, owner) && DataKept(sb, blk, blk') && j < |inodes|
    ensures Kept(inodes[j], blk, inodes[j], blk')
  {
    MetadataUnowned(sb, inodes, blk, owner, 0);
    BallocKeepsSlots(sb, inodes, blk, owner, blk', 0);
    hide Addr, Owned;
    GrowthKeepsBytes(sb, inodes, blk, owner, inodes, blk', j);
  }
}
