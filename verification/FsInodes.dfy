/** ialloc and the freeing half of iput: blocks belong to allocated inodes only. */
module FsInodes {
  import opened Blocks
  import opened Bitmap
  import opened FsBlocks
  import opened FsFiles
  import opened FsTrunc

  predicate NoBlocks(ino: Inode) {
    forall k :: 0 <= k < |ino.addrs| ==> ino.addrs[k] == 0
  }

  /** A free inode names no block. */
  ghost predicate FreeEmpty(inodes: seq<Inode>) {
    forall i :: 0 <= i < |inodes| && inodes[i].typ == 0 ==> NoBlocks(inodes[i])
  }

  /** The marked blocks are the metadata, those some process has just allocated, and the
      blocks that allocated inodes name. */
  lemma AllocatedOwn(sb: Super, inodes: seq<Inode>, blk: seq<Block>, owner: map<nat, Slot>, pending: set<nat>, b: nat)
    requires FsInv(sb, inodes, blk, owner, pending) && FreeEmpty(inodes) && b < sb.size
    ensures sb.bmapstart + b / BPB < sb.size
    ensures Marked(sb, blk, b) <==>
              b < sb.datastart || b in pending || exists i, k :: AllocatedNames(inodes, blk, i, k, b)
  {
    hide Marked, Word;
    BitmapPlace(sb, b);
    assert Marked(sb, blk, b) <==> b < sb.datastart || b in owner || b in pending;
    if b in owner {
      assert Names(sb, inodes, blk, b, owner[b]);
      assert AllocatedNames(inodes, blk, owner[b].inum, owner[b].k, b);
    }
    forall i, k | AllocatedNames(inodes, blk, i, k, b) ensures b in owner {
      assert Named(sb, Addr(inodes[i], blk, k), owner, Slot(i, k));
    }
  }

  ghost predicate AllocatedNames(inodes: seq<Inode>, blk: seq<Block>, i: int, k: int, b: nat) {
    && 0 <= i < |inodes| && 0 <= k < NSLOTS && |inodes[i].addrs| == NDIRECT + 1 && b != 0
    && inodes[i].typ != 0 && Addr(inodes[i], blk, k) == b
  }

  /** bmap, writei and itrunc change an inode that ilock found allocated. */
  lemma StillEmpty(inodes: seq<Inode>, inodes': seq<Inode>, i: nat)
    requires FreeEmpty(inodes) && i < |inodes| && inodes[i].typ != 0 && |inodes'| == |inodes|
    requires inodes' == inodes[i := inodes'[i]] && inodes'[i].typ == inodes[i].typ
    ensures FreeEmpty(inodes')
  {
    forall j | 0 <= j < |inodes'| && inodes'[j].typ == 0 ensures NoBlocks(inodes'[j]) {
      assert inodes'[j] == inodes[j];
    }
  }

  /** ialloc: the first free inode, cleared and given a type; 0 if there is none. */
  method Ialloc(fs: Fs, typ: nat) returns (i: nat)
    requires fs.Valid(fs.others) && FreeEmpty(fs.inodes) && typ != 0
    modifies fs`inodes, fs`dirty
    ensures fs.Valid(fs.others) && FreeEmpty(fs.inodes)
    ensures i == 0 ==> fs.inodes == old(fs.inodes) && forall j :: 1 <= j < |fs.inodes| ==> fs.inodes[j].typ != 0
    ensures i != 0 ==>
              i < |old(fs.inodes)| && old(fs.inodes[i]).typ == 0
                && (forall j :: 1 <= j < i ==> old(fs.inodes[j]).typ != 0)
                       && fs.inodes == old(fs.inodes)[i := Inode(typ, 0, 0, seq(NDIRECT + 1, _ => 0))]
  {
    hide FsInv;
    InvShape(fs.sb, fs.inodes, fs.blk, fs.owner, fs.others);
    i := 1;
    while i < |fs.inodes|
      invariant 1 <= i && forall j :: 1 <= j < i && j < |fs.inodes| ==> fs.inodes[j].typ != 0
    {
      if fs.inodes[i].typ == 0 {
        var ino := Inode(typ, 0, 0, seq(NDIRECT + 1, _ => 0));
        assert NoBlocks(fs.inodes[i]) && ino.addrs == fs.inodes[i].addrs;
        SameAddrs(fs.sb, fs.inodes, fs.inodes[i := ino], fs.blk, fs.owner, fs.others, i);
        fs.inodes := fs.inodes[i := ino];
        fs.dirty := fs.dirty + {fs.sb.inodestart + i / IPB};
        return;
      }
      i := i + 1;
    }
    i := 0;
  }

  /** iput of the last reference to an inode without links: its blocks are freed before it is. */
  method Iput(fs: Fs, i: nat)
    requires fs.Valid(fs.others) && FreeEmpty(fs.inodes) && i < |fs.inodes| && fs.inodes[i].typ != 0
    modifies fs
    ensures fs.Valid(fs.others) && FreeEmpty(fs.inodes) && |fs.inodes| == |old(fs.inodes)|
    ensures fs.inodes == old(fs.inodes)[i := old(fs.inodes[i]).(typ := 0, addrs := fs.inodes[i].addrs, size := 0)]
    ensures NoBlocks(fs.inodes[i])
    ensures fs.owner == OwnerWithout(old(fs.owner), i, 0, NSLOTS)
    ensures forall j :: 0 <= j < |fs.inodes| && j != i ==>
              |fs.inodes[j].addrs| == NDIRECT + 1 && Kept(fs.inodes[j], old(fs.blk), fs.inodes[j], fs.blk)
  {
    hide FsInv, OwnerWithout, Kept;
    ghost var inodes0 := fs.inodes;
    Itrunc(fs, i);
    StillEmpty(inodes0, fs.inodes, i);
    ghost var n1 := fs.inodes;
    fs.inodes := fs.inodes[i := fs.inodes[i].(typ := 0)];
    SameAddrs(fs.sb, n1, fs.inodes, fs.blk, fs.owner, fs.others, i);
    fs.dirty := fs.dirty + {fs.sb.inodestart + i / IPB};  // iupdate
  }
}
