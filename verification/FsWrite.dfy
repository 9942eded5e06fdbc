/** What writei leaves in a file, byte by byte. */
module FsWrite {
  import opened Blocks
  import opened Bitmap
  import opened FsBlocks
  import opened FsFiles

  /** tot bytes of src are in inode `ino` at offset off; its other bytes, within its size
      or not, are those of ino0, and every block it had it still has. */
  ghost predicate Wrote(ino0: Inode, blk0: seq<Block>, ino: Inode, blk: seq<Block>, off: nat, src: seq<byte>, tot: nat)
    requires |ino0.addrs| == NDIRECT + 1 && |ino.addrs| == NDIRECT + 1 && tot <= |src|
  {
    && SlotsKept(ino0, blk0, ino, blk)
    && forall p :: 0 <= p < MAXFILE * BSIZE ==> ByteAt(ino, blk, p) == Want(ino0, blk0, off, src, tot, p)
  }

  ghost function Want(ino0: Inode, blk0: seq<Block>, off: nat, src: seq<byte>, tot: nat, p: nat): (b: byte)
    requires |ino0.addrs| == NDIRECT + 1 && tot <= |src| && p < MAXFILE * BSIZE
  {
    if off <= p < off + tot then src[p - off] else ByteAt(ino0, blk0, p)
  }

  /** Every block that bytes off, ..., off + tot - 1 fall in is there. */
  ghost predicate Mapped(ino: Inode, blk: seq<Block>, off: nat, tot: nat)
    requires |ino.addrs| == NDIRECT + 1
  {
    tot > 0 ==> forall bn :: off / BSIZE <= bn < MAXFILE && bn * BSIZE < off + tot ==> Addr(ino, blk, SlotOf(bn)) != 0
  }

  lemma WroteNothing(ino: Inode, blk: seq<Block>, off: nat, src: seq<byte>)
    requires |ino.addrs| == NDIRECT + 1
    ensures Wrote(ino, blk, ino, blk, off, src, 0) && Mapped(ino, blk, off, 0)
  {
    hide Addr, ByteAt;
  }

  /** Gaining blocks changes nothing of this. */
  lemma WroteKept(ino0: Inode, blk0: seq<Block>, ino: Inode, blk: seq<Block>, ino': Inode, blk': seq<Block>, off: nat,
                  src: seq<byte>, tot: nat)
    requires |ino0.addrs| == NDIRECT + 1 && |ino.addrs| == NDIRECT + 1 && |ino'.addrs| == NDIRECT + 1 && tot <= |src|
    requires Wrote(ino0, blk0, ino, blk, off, src, tot) && Mapped(ino, blk, off, tot) && Kept(ino, blk, ino', blk')
    ensures Wrote(ino0, blk0, ino', blk', off, src, tot) && Mapped(ino', blk', off, tot)
  {
    hide Addr, ByteAt;
  }

  /** Block bn with m more source bytes in place, when the next byte goes to position q. */
  ghost function Patched(blk: seq<Block>, a: nat, q: nat, src: seq<byte>, tot: nat, m: nat): (x: Block)
    requires a < |blk| && tot + m <= |src| && q % BSIZE + m <= BSIZE
  {
    Block(Splice(blk[a].data, q % BSIZE, src[tot..tot + m]))
  }

  lemma PatchedAt(blk: seq<Block>, a: nat, q: nat, src: seq<byte>, tot: nat, m: nat, p: nat)
    requires a < |blk| && tot + m <= |src| && q % BSIZE + m <= BSIZE && p / BSIZE == q / BSIZE
    ensures Patched(blk, a, q, src, tot, m).data[p % BSIZE] ==
              if q <= p < q + m then src[tot + p - q] else blk[a].data[p % BSIZE]
  {
    assert p - q == p % BSIZE - q % BSIZE;
  }

  lemma ByteInBlock(ino: Inode, blk: seq<Block>, p: nat, a: nat)
    requires |ino.addrs| == NDIRECT + 1 && p < MAXFILE * BSIZE && 0 < a < |blk|
    requires Addr(ino, blk, SlotOf(p / BSIZE)) == a
    ensures ByteAt(ino, blk, p) == blk[a].data[p % BSIZE]
  {
    hide Addr;
  }

  lemma InOneBlock(q: nat, m: nat, p: nat)
    requires q % BSIZE + m <= BSIZE
    ensures q <= p < q + m ==> p / BSIZE == q / BSIZE
  {
  }

  lemma UpToBlock(q: nat, m: nat, bn: nat)
    requires q % BSIZE + m <= BSIZE && bn * BSIZE < q + m
    ensures bn == q / BSIZE || bn * BSIZE < q
  {
  }

  lemma StoreKeepsSlots(sb: Super, inodes: seq<Inode>, blk: seq<Block>, owner: map<nat, Slot>, i: nat, bn: nat,
                        x: Block, j: nat)
    requires Shape(sb, inodes, blk) && Owned(sb, inodes, blk, owner) && i < |inodes| && bn < MAXFILE && j < |inodes|
    requires Addr(inodes[i], blk, SlotOf(bn)) != 0
    ensures var a := Addr(inodes[i], blk, SlotOf(bn));
            && sb.InData(a) && Owned(sb, inodes, blk[a := x], owner)
            && forall k :: 0 <= k < NSLOTS ==> Addr(inodes[j], blk[a := x], k) == Addr(inodes[j], blk, k)
  {
    var a := Addr(inodes[i], blk, SlotOf(bn));
    hide Addr;
    assert Named(sb, a, owner, Slot(i, SlotOf(bn)));
    AddrSame(sb, inodes, blk, owner, a, x);
  }

  /** One iteration of writei: the bytes of block (off + tot) / BSIZE. */
  lemma WroteMore(sb: Super, inodes: seq<Inode>, blk: seq<Block>, owner: map<nat, Slot>, i: nat,
                  ino0: Inode, blk0: seq<Block>, off: nat, src: seq<byte>, tot: nat, m: nat, blk': seq<Block>)
    requires Shape(sb, inodes, blk) && Owned(sb, inodes, blk, owner) && i < |inodes| && |ino0.addrs| == NDIRECT + 1
    requires tot + m <= |src| && m > 0 && off + tot + m <= MAXFILE * BSIZE && (off + tot) % BSIZE + m <= BSIZE
    requires Wrote(ino0, blk0, inodes[i], blk, off, src, tot) && Mapped(inodes[i], blk, off, tot)
    requires var a := Addr(inodes[i], blk, SlotOf((off + tot) / BSIZE));
             0 < a < |blk| && blk' == blk[a := Patched(blk, a, off + tot, src, tot, m)]
    ensures Wrote(ino0, blk0, inodes[i], blk', off, src, tot + m) && Mapped(inodes[i], blk', off, tot + m)
  {
    hide Addr, ByteAt, Owned, Patched;
    var q := off + tot;
    var a := Addr(inodes[i], blk, SlotOf(q / BSIZE));
    StoreKeepsSlots(sb, inodes, blk, owner, i, q / BSIZE, Patched(blk, a, q, src, tot, m), i);
    MappedMore(inodes[i], blk, blk', off, tot, m);
    forall p | 0 <= p < MAXFILE * BSIZE ensures ByteAt(inodes[i], blk', p) == Want(ino0, blk0, off, src, tot + m, p) {
      WroteMoreAt(sb, inodes, blk, owner, i, ino0, blk0, off, src, tot, m, p);
    }
  }

  lemma MappedMore(ino: Inode, blk: seq<Block>, blk': seq<Block>, off: nat, tot: nat, m: nat)
    requires |ino.addrs| == NDIRECT + 1 && (off + tot) % BSIZE + m <= BSIZE && off + tot + m <= MAXFILE * BSIZE && m > 0
    requires forall k :: 0 <= k < NSLOTS ==> Addr(ino, blk', k) == Addr(ino, blk, k)
    requires Mapped(ino, blk, off, tot) && Addr(ino, blk, SlotOf((off + tot) / BSIZE)) != 0
    ensures Mapped(ino, blk', off, tot + m)
  {
    hide Addr;
    forall bn | off / BSIZE <= bn < MAXFILE && bn * BSIZE < off + (tot + m) ensures Addr(ino, blk', SlotOf(bn)) != 0 {
      UpToBlock(off + tot, m, bn);
      if tot == 0 {
        assert bn == off / BSIZE;
      }
    }
  }

  lemma WroteMoreAt(sb: Super, inodes: seq<Inode>, blk: seq<Block>, owner: map<nat, Slot>, i: nat,
                    ino0: Inode, blk0: seq<Block>, off: nat, src: seq<byte>, tot: nat, m: nat, p: nat)
    requires Shape(sb, inodes, blk) && Owned(sb, inodes, blk, owner) && i < |inodes| && |ino0.addrs| == NDIRECT + 1
    requires tot + m <= |src| && m > 0 && off + tot + m <= MAXFILE * BSIZE && (off + tot) % BSIZE + m <= BSIZE
    requires p < MAXFILE * BSIZE && ByteAt(inodes[i], blk, p) == Want(ino0, blk0, off, src, tot, p)
    requires 0 < Addr(inodes[i], blk, SlotOf((off + tot) / BSIZE)) < |blk|
    ensures var a := Addr(inodes[i], blk, SlotOf((off + tot) / BSIZE));
            ByteAt(inodes[i], blk[a := Patched(blk, a, off + tot, src, tot, m)], p) ==
                Want(ino0, blk0, off, src, tot + m, p)
  {
    hide Addr, Owned, Patched, ByteAt;
    var q := off + tot;
    var a := Addr(inodes[i], blk, SlotOf(q / BSIZE));
    var x := Patched(blk, a, q, src, tot, m);
    StoreBytes(sb, inodes, blk, owner, i, q / BSIZE, x, i, p);
    InOneBlock(q, m, p);
    if p / BSIZE == q / BSIZE {
      PatchedAt(blk, a, q, src, tot, m, p);
      ByteInBlock(inodes[i], blk, p, a);
    }
  }

  // ------------------------------------------------------------------- writei

  /** writei has put tot bytes of src into inode i at off since the state was (inodes0, blk0). */
  ghost predicate Writing(fs: Fs, inodes0: seq<Inode>, blk0: seq<Block>, i: nat, off: nat, src: seq<byte>, tot: nat)
    reads fs
  {
    && fs.Valid(fs.others) && Shape(fs.sb, inodes0, blk0) && |fs.inodes| == |inodes0| && i < |inodes0| && tot <= |src|
    && fs.inodes == inodes0[i := inodes0[i].(addrs := fs.inodes[i].addrs)]
    && Wrote(inodes0[i], blk0, fs.inodes[i], fs.blk, off, src, tot) && Mapped(fs.inodes[i], fs.blk, off, tot)
    && OthersKept(inodes0, blk0, fs.inodes, fs.blk, i, fs.sb)
  }

  /** Only data, bitmap and indirect blocks have been logged. */
  ghost predicate Logged(fs: Fs, dirty0: set<nat>, data: set<nat>, i: nat)
    reads fs
  {
    && i < |fs.inodes| && |fs.inodes[i].addrs| == NDIRECT + 1
    && forall b :: b in fs.dirty ==>
         b in dirty0 || b in data || IsBitmap(fs.sb, b) || (b != 0 && b == fs.inodes[i].addrs[NDIRECT])
  }

  lemma WritingExtended(fs: Fs, inodes: seq<Inode>, blk: seq<Block>, inodes0: seq<Inode>, blk0: seq<Block>,
                        i: nat, off: nat, src: seq<byte>, tot: nat)
    requires Shape(fs.sb, inodes0, blk0) && Shape(fs.sb, inodes, blk) && |inodes| == |inodes0| && i < |inodes0|
    requires tot <= |src|
    requires inodes == inodes0[i := inodes0[i].(addrs := inodes[i].addrs)]
    requires Wrote(inodes0[i], blk0, inodes[i], blk, off, src, tot) && Mapped(inodes[i], blk, off, tot)
    requires forall j :: 0 <= j < |inodes0| && j != i ==> Kept(inodes0[j], blk0, inodes[j], blk)
    requires fs.Valid(fs.others) && Extended(fs.sb, inodes, blk, fs.inodes, fs.blk, i)
    ensures Writing(fs, inodes0, blk0, i, off, src, tot)
  {
    hide Addr, ByteAt, FsInv;
    assert Kept(inodes[i], blk, fs.inodes[i], fs.blk);
    WroteKept(inodes0[i], blk0, inodes[i], blk, fs.inodes[i], fs.blk, off, src, tot);
    forall j | 0 <= j < |inodes0| && j != i ensures Kept(inodes0[j], blk0, fs.inodes[j], fs.blk) {
      assert Kept(inodes0[j], blk0, inodes[j], blk) && Kept(inodes[j], blk, fs.inodes[j], fs.blk);
    }
  }

  method WriteBmap(fs: Fs, i: nat, off: nat, src: seq<byte>, tot: nat, bn: nat,
                   ghost inodes0: seq<Inode>, ghost blk0: seq<Block>, ghost dirty0: set<nat>, ghost data: set<nat>)
    returns (addr: nat)
    requires Writing(fs, inodes0, blk0, i, off, src, tot) && bn < MAXFILE && Logged(fs, dirty0, data, i)
    modifies fs
    ensures Writing(fs, inodes0, blk0, i, off, src, tot)
    ensures addr == 0 ==> Full(fs.sb, fs.blk) && Logged(fs, dirty0, data, i)
    ensures addr != 0 ==> Addr(fs.inodes[i], fs.blk, SlotOf(bn)) == addr && Logged(fs, dirty0, data + {addr}, i)
    ensures Covered(old(fs.blk), fs.blk, fs.dirty) && old(fs.dirty) <= fs.dirty
  {
    ghost var inodes, blk := fs.inodes, fs.blk;
    hide Addr, ByteAt, Owned, BitsExact, Marked, MarkedBelow;
    addr := fs.Bmap(i, bn);
    WritingExtended(fs, inodes, blk, inodes0, blk0, i, off, src, tot);
    IndirectKept(fs, inodes, blk, i);
  }

  lemma IndirectKept(fs: Fs, inodes: seq<Inode>, blk: seq<Block>, i: nat)
    requires Extended(fs.sb, inodes, blk, fs.inodes, fs.blk, i)
    ensures inodes[i].addrs[NDIRECT] != 0 ==> fs.inodes[i].addrs[NDIRECT] == inodes[i].addrs[NDIRECT]
  {
    hide ByteAt, Word;
    assert Kept(inodes[i], blk, fs.inodes[i], fs.blk);
    assert Addr(inodes[i], blk, NDIRECT) == inodes[i].addrs[NDIRECT];
    assert Addr(fs.inodes[i], fs.blk, NDIRECT) == fs.inodes[i].addrs[NDIRECT];
  }

  /** The copy into the block at addr, as far as the source can be read. */
  method CopyIn(fs: Fs, i: nat, off: nat, src: seq<byte>, tot: nat, m: nat, addr: nat,
                ghost inodes0: seq<Inode>, ghost blk0: seq<Block>)
    requires Writing(fs, inodes0, blk0, i, off, src, tot) && tot + m <= |src| && m > 0
    requires off + tot + m <= MAXFILE * BSIZE && (off + tot) % BSIZE + m <= BSIZE
    requires addr != 0 && Addr(fs.inodes[i], fs.blk, SlotOf((off + tot) / BSIZE)) == addr
    modifies fs`blk
    ensures Writing(fs, inodes0, blk0, i, off, src, tot + m)
    ensures addr < |fs.blk| == |old(fs.blk)| && fs.blk == old(fs.blk)[addr := fs.blk[addr]]
    ensures Addr(fs.inodes[i], fs.blk, SlotOf((off + tot) / BSIZE)) == addr
  {
    hide Addr, ByteAt, FsInv;
    Stored(fs.sb, fs.inodes, fs.blk, fs.owner, fs.others, i, inodes0, blk0, off, src, tot, m, addr);
    fs.blk := fs.blk[addr := Block(Splice(fs.blk[addr].data, (off + tot) % BSIZE, src[tot..tot + m]))];
  }

  ghost predicate OthersKept(inodes0: seq<Inode>, blk0: seq<Block>, inodes: seq<Inode>, blk: seq<Block>, i: nat,
                             sb: Super)
    requires Shape(sb, inodes0, blk0) && Shape(sb, inodes, blk)
  {
    |inodes| == |inodes0| && forall j :: 0 <= j < |inodes0| && j != i ==> Kept(inodes0[j], blk0, inodes[j], blk)
  }

  lemma Stored(sb: Super, inodes: seq<Inode>, blk: seq<Block>, owner: map<nat, Slot>, pending: set<nat>, i: nat,
               inodes0: seq<Inode>, blk0: seq<Block>,
               off: nat, src: seq<byte>, tot: nat, m: nat, addr: nat)
    requires FsInv(sb, inodes, blk, owner, pending) && Shape(sb, inodes0, blk0) && |inodes0| == |inodes| && i < |inodes|
    requires tot + m <= |src| && m > 0 && off + tot + m <= MAXFILE * BSIZE && (off + tot) % BSIZE + m <= BSIZE
    requires addr != 0 && Addr(inodes[i], blk, SlotOf((off + tot) / BSIZE)) == addr
    requires Wrote(inodes0[i], blk0, inodes[i], blk, off, src, tot) && Mapped(inodes[i], blk, off, tot)
    requires OthersKept(inodes0, blk0, inodes, blk, i, sb)
    ensures addr < |blk|
    ensures var blk' := blk[addr := Block(Splice(blk[addr].data, (off + tot) % BSIZE, src[tot..tot + m]))];
            && FsInv(sb, inodes, blk', owner, pending) && OthersKept(inodes0, blk0, inodes, blk', i, sb)
            && Wrote(inodes0[i], blk0, inodes[i], blk', off, src, tot + m) && Mapped(inodes[i], blk', off, tot + m)
            && Addr(inodes[i], blk', SlotOf((off + tot) / BSIZE)) == addr
  {
    hide Addr, ByteAt, BitsExact, Owned, Wrote, Mapped, Kept;
    var bn := (off + tot) / BSIZE;
    StoreInv(sb, inodes, blk, owner, pending, i, bn, Zero());
    var x := Patched(blk, addr, off + tot, src, tot, m);
    StoreInv(sb, inodes, blk, owner, pending, i, bn, x);
    WroteMore(sb, inodes, blk, owner, i, inodes0[i], blk0, off, src, tot, m, blk[addr := x]);
    StoreKeepsSlots(sb, inodes, blk, owner, i, bn, x, i);
    forall j | 0 <= j < |inodes0| && j != i ensures Kept(inodes0[j], blk0, inodes[j], blk[addr := x]) {
      StoreKeepsOthers(sb, inodes, blk, owner, i, bn, x, j, inodes0[j], blk0);
    }
  }

  lemma StoreInv(sb: Super, inodes: seq<Inode>, blk: seq<Block>, owner: map<nat, Slot>, pending: set<nat>, i: nat,
                 bn: nat, x: Block)
    requires FsInv(sb, inodes, blk, owner, pending) && i < |inodes| && bn < MAXFILE
    requires Addr(inodes[i], blk, SlotOf(bn)) != 0
    ensures var a := Addr(inodes[i], blk, SlotOf(bn)); sb.InData(a) && FsInv(sb, inodes, blk[a := x], owner, pending)
  {
    hide Addr, Marked;
    StoreKeepsSlots(sb, inodes, blk, owner, i, bn, x, i);
    BitsSame(sb, blk, owner, pending, Addr(inodes[i], blk, SlotOf(bn)), x);
  }

  lemma StoreKeepsOthers(sb: Super, inodes: seq<Inode>, blk: seq<Block>, owner: map<nat, Slot>, i: nat, bn: nat,
                         x: Block, j: nat,
                         ino0: Inode, blk0: seq<Block>)
    requires Shape(sb, inodes, blk) && Owned(sb, inodes, blk, owner) && i < |inodes| && bn < MAXFILE && j < |inodes|
    requires j != i
    requires Addr(inodes[i], blk, SlotOf(bn)) != 0 && |ino0.addrs| == NDIRECT + 1 && Kept(ino0, blk0, inodes[j], blk)
    ensures var a := Addr(inodes[i], blk, SlotOf(bn)); sb.InData(a) && Kept(ino0, blk0, inodes[j], blk[a := x])
  {
    var a := Addr(inodes[i], blk, SlotOf(bn));
    StoreKeepsSlots(sb, inodes, blk, owner, i, bn, x, j);
    hide Addr, ByteAt, Owned;
    forall p | 0 <= p < MAXFILE * BSIZE ensures ByteAt(inodes[j], blk[a := x], p) == ByteAt(ino0, blk0, p) {
      StoreBytes(sb, inodes, blk, owner, i, bn, x, j, p);
    }
  }

  /** f with its bytes from off on replaced by w, growing as needed. */
  function Overwrite(f: seq<byte>, off: nat, w: seq<byte>): (r: seq<byte>)
    requires off <= |f|
    ensures |r| == if off + |w| > |f| then off + |w| else |f|
  {
    f[..off] + w + (if off + |w| < |f| then f[off + |w|..] else [])
  }

  /** f after a write at off that put w in place but counts only its first n bytes: what lies
      past the counted end of the file is not part of it. */
  function After(f: seq<byte>, off: nat, w: seq<byte>, n: nat): (r: seq<byte>)
    requires off <= |f| && n <= |w|
    ensures |r| == if off + n > |f| then off + n else |f|
  {
    Overwrite(f, off, w)[..if off + n > |f| then off + n else |f|]
  }

  lemma KeptFile(ino: Inode, blk: seq<Block>, ino': Inode, blk': seq<Block>)
    requires |ino.addrs| == NDIRECT + 1 && |ino'.addrs| == NDIRECT + 1 && ino'.size == ino.size <= MAXFILE * BSIZE
    requires Kept(ino, blk, ino', blk')
    ensures File(ino', blk') == File(ino, blk) && (NoHole(ino, blk) ==> NoHole(ino', blk'))
  {
    hide Addr, ByteAt;
  }

  /** The file once writei sets its size. */
  lemma WroteFile(ino0: Inode, blk0: seq<Block>, ino: Inode, blk: seq<Block>, off: nat, src: seq<byte>, stored: nat,
                  tot: nat)
    requires |ino0.addrs| == NDIRECT + 1 && |ino.addrs| == NDIRECT + 1 && ino0.size <= MAXFILE * BSIZE
    requires tot <= stored <= |src| && off <= ino0.size && off + stored <= MAXFILE * BSIZE
    requires ino.size == if off + tot > ino0.size then off + tot else ino0.size
    requires Wrote(ino0, blk0, ino, blk, off, src, stored) && Mapped(ino, blk, off, stored)
    ensures File(ino, blk) == After(File(ino0, blk0), off, src[..stored], tot)
    ensures NoHole(ino0, blk0) ==> NoHole(ino, blk)
  {
    hide Addr, ByteAt;
    var f := After(File(ino0, blk0), off, src[..stored], tot);
    forall p | 0 <= p < ino.size ensures File(ino, blk)[p] == f[p] {
      assert ByteAt(ino, blk, p) == Want(ino0, blk0, off, src, stored, p);
    }
    if NoHole(ino0, blk0) {
      forall bn | 0 <= bn < MAXFILE && bn * BSIZE < ino.size ensures Addr(ino, blk, SlotOf(bn)) != 0 {
        assert bn * BSIZE < ino0.size || off / BSIZE <= bn;
      }
    }
  }

  lemma StartWriting(fs: Fs, i: nat, off: nat, src: seq<byte>)
    requires fs.Valid(fs.others) && i < |fs.inodes|
    ensures Writing(fs, fs.inodes, fs.blk, i, off, src, 0) && Logged(fs, fs.dirty, {}, i)
  {
    WroteNothing(fs.inodes[i], fs.blk, off, src);
    hide Addr, ByteAt, Owned, BitsExact;
  }

  function Min(a: nat, b: nat): (r: nat) {
    if a < b then a else b
  }

  /** The number of blocks that n bytes at offset off fall in. */
  function Spanned(off: nat, n: nat): (k: nat) {
    if n == 0 then 0 else (off + n - 1) / BSIZE - off / BSIZE + 1
  }

  lemma SpannedMore(off: nat, tot: nat, m: nat)
    requires (off + tot) % BSIZE + m <= BSIZE && m > 0
    requires tot > 0 ==> (off + tot) % BSIZE == 0
    ensures Spanned(off, tot + m) == Spanned(off, tot) + 1
  {
  }

  lemma SpannedMonotone(off: nat, n: nat, n': nat)
    requires n <= n'
    ensures Spanned(off, n) <= Spanned(off, n')
  {
  }

  /** How many of n bytes writei counts if the first u of them can be read: all, or those that
      lie in blocks whose part of the source can be read whole. */
  function Reach(off: nat, u: nat, n: nat): (r: nat)
    requires u <= n
    ensures r <= u
  {
    if u == n then n else if (off + u) / BSIZE * BSIZE <= off then 0 else (off + u) / BSIZE * BSIZE - off
  }

  /** The bytes of one iteration: up to the end of the block or of the source. */
  function Piece(off: nat, tot: nat, n: nat): (m: nat)
    requires tot < n
    ensures 0 < m <= n - tot && (off + tot) % BSIZE + m <= BSIZE
  {
    Min(n - tot, BSIZE - (off + tot) % BSIZE)
  }

  /** All iterations but the first begin at the start of a block. */
  predicate Aligned(off: nat, tot: nat, n: nat) {
    0 < tot < n ==> (off + tot) % BSIZE == 0
  }

  lemma ReachIs(off: nat, u: nat, n: nat, tot: nat)
    requires tot <= u && tot < n && Aligned(off, tot, n) && u < tot + Piece(off, tot, n)
    ensures u < n && Reach(off, u, n) == tot
  {
    assert (off + u) / BSIZE == (off + tot) / BSIZE;
  }

  /** One iteration of writei; m == 0 if it ends the loop. The first u bytes of the source can
      be read. A copy that fails has put the readable bytes into the block, which is then
      released without log_write: `stored` bytes are in place, and `stray` is that block. */
  method WriteStep(fs: Fs, i: nat, off: nat, src: seq<byte>, tot: nat, u: nat,
                   ghost inodes0: seq<Inode>, ghost blk0: seq<Block>, ghost dirty0: set<nat>, ghost data: set<nat>)
    returns (m: nat, ghost stored: nat, ghost data': set<nat>, ghost stray: set<nat>)
    requires Writing(fs, inodes0, blk0, i, off, src, tot) && Logged(fs, dirty0, data, i)
    requires tot <= u <= |src| && tot < |src| && off + |src| <= MAXFILE * BSIZE && Covered(blk0, fs.blk, fs.dirty)
    modifies fs
    ensures Writing(fs, inodes0, blk0, i, off, src, stored) && Logged(fs, dirty0, data', i) && |data'| <= |data| + 1
    ensures Covered(blk0, fs.blk, fs.dirty + stray) && old(fs.dirty) <= fs.dirty
    ensures m != 0 ==> m == Piece(off, tot, |src|) && stored == tot + m <= u && stray == {}
    ensures m == 0 ==>
              (Full(fs.sb, fs.blk) && stored == tot && stray == {})
              || (stored == u < tot + Piece(off, tot, |src|) && Strayed(fs, i, off, tot, u, stray))
  {
    hide Full, FsInv, Wrote, Mapped, OthersKept, Addr, Covered;
    data', stray, stored := data, {}, tot;
    var bn := (off + tot) / BSIZE;
    ghost var b1, l1 := fs.blk, fs.dirty;
    var addr := WriteBmap(fs, i, off, src, tot, bn, inodes0, blk0, dirty0, data);
    CoveredThen(blk0, b1, fs.blk, l1, fs.dirty);
    assert fs.dirty + {} == fs.dirty;
    if addr == 0 {
      return 0, tot, data', {};
    }
    data' := data + {addr};
    m := Piece(off, tot, |src|);
    var n := if tot + m <= u then m else u - tot;
    if n > 0 {
      ghost var b2 := fs.blk;
      CopyIn(fs, i, off, src, tot, n, addr, inodes0, blk0);
      CoveredMore(blk0, b2, fs.blk, fs.dirty, addr);
      stored := tot + n;
    }
    if tot + m > u {
      stray := if n > 0 then {addr} else {};
      return 0, stored, data', stray;
    }
    fs.dirty := fs.dirty + {addr};
    assert fs.dirty + {} == fs.dirty;
  }

  /** The block that a failed copy has changed: the one that byte off + tot falls in. */
  ghost predicate Strayed(fs: Fs, i: nat, off: nat, tot: nat, stored: nat, stray: set<nat>)
    reads fs
  {
    if stored <= tot then stray == {}
    else i < |fs.inodes| && |fs.inodes[i].addrs| == NDIRECT + 1 && (off + tot) / BSIZE < MAXFILE
         && stray == {Addr(fs.inodes[i], fs.blk, SlotOf((off + tot) / BSIZE))}
  }

  lemma CoveredMore(blk0: seq<Block>, blk: seq<Block>, blk': seq<Block>, logged: set<nat>, a: nat)
    requires Covered(blk0, blk, logged) && a < |blk| == |blk'| && blk' == blk[a := blk'[a]]
    ensures Covered(blk0, blk', logged + {a})
  {
  }

  /** The loop of writei: it counts tot bytes. */
  method WriteLoop(fs: Fs, i: nat, off: nat, src: seq<byte>, u: nat)
    returns (tot: nat, ghost stored: nat, ghost data: set<nat>, ghost stray: set<nat>)
    requires fs.Valid(fs.others) && i < |fs.inodes| && off + |src| <= MAXFILE * BSIZE && u <= |src|
    modifies fs
    ensures tot <= stored <= u
    ensures Writing(fs, old(fs.inodes), old(fs.blk), i, off, src, stored) && Logged(fs, old(fs.dirty), data, i)
    ensures |data| <= Spanned(off, |src|) && Covered(old(fs.blk), fs.blk, fs.dirty + stray) && old(fs.dirty) <= fs.dirty
    ensures Strayed(fs, i, off, tot, stored, stray)
    ensures (stored == u && tot == Reach(off, u, |src|)) || (Full(fs.sb, fs.blk) && stored == tot < |src|)
  {
    hide Writing, Logged, Full, FsInv, Spanned, Covered, Reach, Strayed, Aligned, Piece;
    ghost var inodes0, blk0, dirty0 := fs.inodes, fs.blk, fs.dirty;
    tot, stored, data, stray := 0, 0, {}, {};
    StartLoop(fs, i, off, src);
    assert fs.dirty + {} == fs.dirty;
    while tot < |src|
      invariant 0 <= tot == stored <= u && stray == {}
      invariant Writing(fs, inodes0, blk0, i, off, src, tot) && Logged(fs, dirty0, data, i)
      invariant |data| <= Spanned(off, tot) <= Spanned(off, |src|) && Aligned(off, tot, |src|)
      invariant Covered(blk0, fs.blk, fs.dirty + stray) && dirty0 <= fs.dirty && Strayed(fs, i, off, tot, stored, stray)
    {
      SpannedStep(off, tot, |src|);
      assert fs.dirty + {} == fs.dirty;
      var m;
      m, stored, data, stray := WriteStep(fs, i, off, src, tot, u, inodes0, blk0, dirty0, data);
      NotStrayed(fs, i, off, tot + m);
      if m == 0 {
        if stored == u < tot + Piece(off, tot, |src|) {
          ReachIs(off, u, |src|, tot);
        }
        return;
      }
      tot := tot + m;
    }
    ReachAll(off, |src|);
  }

  lemma NotStrayed(fs: Fs, i: nat, off: nat, tot: nat)
    ensures Strayed(fs, i, off, tot, tot, {})
  {
  }

  lemma StartLoop(fs: Fs, i: nat, off: nat, src: seq<byte>)
    requires fs.Valid(fs.others) && i < |fs.inodes|
    ensures Writing(fs, fs.inodes, fs.blk, i, off, src, 0) && Logged(fs, fs.dirty, {}, i)
    ensures Covered(fs.blk, fs.blk, fs.dirty) && Strayed(fs, i, off, 0, 0, {})
    ensures 0 == Spanned(off, 0) <= Spanned(off, |src|) && Aligned(off, 0, |src|)
  {
    hide Writing, Logged, FsInv;
    StartWriting(fs, i, off, src);
  }

  lemma ReachAll(off: nat, n: nat)
    ensures Reach(off, n, n) == n
  {
  }

  lemma SpannedStep(off: nat, tot: nat, n: nat)
    requires tot < n && Aligned(off, tot, n)
    ensures var m := Piece(off, tot, n);
            && Spanned(off, tot) <= Spanned(off, tot + m) == Spanned(off, tot) + 1 <= Spanned(off, n)
            && Aligned(off, tot + m, n)
  {
    var m := Piece(off, tot, n);
    SpannedMore(off, tot, m);
    SpannedMonotone(off, tot + m, n);
  }

  /**
   writei: -1 and no change if the range is not writable, else the number r of bytes it
   counts. The first u bytes of the source can be read. Bytes off, ..., off + stored - 1 of
   the blocks are replaced, where stored is r, or u when a copy failed; the file grows to
   off + r if that is more, no other file changes, and no hole appears. Every block that
   changed has been logged, except that in which a copy failed.
   */
  method Writei(fs: Fs, i: nat, off: word, src: seq<byte>, u: nat)
    returns (r: int, ghost stored: nat, ghost data: set<nat>, ghost stray: set<nat>)
    requires fs.Valid(fs.others) && i < |fs.inodes| && |src| < 0x1_0000_0000 && u <= |src|
    modifies fs
    ensures fs.Valid(fs.others) && |fs.inodes| == |old(fs.inodes)|
    ensures r == -1 <==> off > old(fs.inodes[i].size) || off + |src| >= 0x1_0000_0000 || off + |src| > MAXFILE * BSIZE
    ensures r == -1 ==> fs.inodes == old(fs.inodes) && fs.blk == old(fs.blk) && fs.dirty == old(fs.dirty)
    ensures r != -1 ==> 0 <= r <= stored <= u
    ensures r != -1 ==> WriteDone(old(fs.inodes), old(fs.blk), fs.inodes, fs.blk, i, off, src[..stored], r)
    ensures r != -1 ==>
              (stored == u && r == Reach(off, u, |src|)) || (Full(fs.sb, fs.blk) && stored == r < |src|)
    ensures r != -1 ==> |data| <= Spanned(off, |src|)
    ensures r != -1 ==> Covered(old(fs.blk), fs.blk, fs.dirty + stray) && Strayed(fs, i, off, r, stored, stray)
    ensures r != -1 ==> old(fs.dirty) <= fs.dirty && fs.sb.inodestart + i / IPB in fs.dirty
    ensures r != -1 ==> forall b :: b in fs.dirty ==>
              b in old(fs.dirty) || b in data || IsBitmap(fs.sb, b) || b == fs.inodes[i].addrs[NDIRECT]
                || b == fs.sb.inodestart + i / IPB
  {
    hide Full, Wrote, Mapped, OthersKept, Owned, BitsExact, Marked, Covered, Reach, WriteDone, Addr, Spanned;
    data, stray, stored := {}, {}, 0;
    if off > fs.inodes[i].size || off + |src| >= 0x1_0000_0000 {
      return -1, 0, data, stray;
    }
    if off + |src| > MAXFILE * BSIZE {
      return -1, 0, data, stray;
    }
    ghost var inodes0, blk0 := fs.inodes, fs.blk;
    var tot;
    tot, stored, data, stray := WriteLoop(fs, i, off, src, u);
    ghost var n1, l1 := fs.inodes, fs.dirty;
    if off + tot > fs.inodes[i].size {
      fs.inodes := fs.inodes[i := fs.inodes[i].(size := off + tot)];
    }
    SameAddrs(fs.sb, n1, fs.inodes, fs.blk, fs.owner, fs.others, i);
    WriteDoneFrom(fs.sb, inodes0, blk0, n1, fs.inodes, fs.blk, i, off, src, stored, tot);
    fs.dirty := fs.dirty + {fs.sb.inodestart + i / IPB};  // iupdate
    CoveredBy(blk0, fs.blk, l1 + stray, fs.dirty + stray);
    if tot < stored {
      SizeKeepsAddr(n1[i], fs.inodes[i], fs.blk, SlotOf((off + tot) / BSIZE));
    }
    r := tot;
  }

  lemma SizeKeepsAddr(ino: Inode, ino': Inode, blk: seq<Block>, k: nat)
    requires |ino.addrs| == NDIRECT + 1 && ino'.addrs == ino.addrs && k < NSLOTS
    ensures Addr(ino', blk, k) == Addr(ino, blk, k)
  {
  }

  lemma CoveredBy(blk0: seq<Block>, blk: seq<Block>, l1: set<nat>, l2: set<nat>)
    requires Covered(blk0, blk, l1) && l1 <= l2
    ensures Covered(blk0, blk, l2)
  {
  }

  /** Between the states, w was put in place from byte off on of file i and its first n bytes
      counted, and that is all that happened to the files. */
  ghost predicate WriteDone(inodes0: seq<Inode>, blk0: seq<Block>, inodes: seq<Inode>, blk: seq<Block>, i: nat,
                            off: nat, w: seq<byte>, n: nat) {
    && |inodes| == |inodes0| && i < |inodes| && n <= |w|
    && inodes == inodes0[i := inodes0[i].(addrs := inodes[i].addrs, size := inodes[i].size)]
    && (forall j :: 0 <= j < |inodes| ==> FileOk(inodes0[j]) && FileOk(inodes[j]))
    && off <= inodes0[i].size
    && inodes[i].size == (if off + n > inodes0[i].size then off + n else inodes0[i].size)
    && File(inodes[i], blk) == After(File(inodes0[i], blk0), off, w, n)
    && (NoHole(inodes0[i], blk0) ==> NoHole(inodes[i], blk))
    && forall j :: 0 <= j < |inodes| && j != i ==>
         File(inodes[j], blk) == File(inodes0[j], blk0) && (NoHole(inodes0[j], blk0) ==> NoHole(inodes[j], blk))
  }

  // ----------------------------------------------------------- when writei is exact

  /** A write that puts w in place and counts its first n bytes replaces just those. */
  ghost predicate Exact(f: seq<byte>, off: nat, w: seq<byte>, n: nat)
    requires off <= |f| && n <= |w|
  {
    After(f, off, w, n) == Overwrite(f, off, w[..n])
  }

  /** It does for a given file if and only if the bytes stored but not counted, as far as they
      lie in the file, are those that were there. */
  lemma ExactFor(f: seq<byte>, off: nat, w: seq<byte>, n: nat)
    requires off <= |f| && n <= |w|
    ensures Exact(f, off, w, n) <==> forall p :: off + n <= p < off + |w| && p < |f| ==> f[p] == w[p - off]
  {
    var a, b := After(f, off, w, n), Overwrite(f, off, w[..n]);
    assert |a| == |b|;
    assert forall p :: off + n <= p < off + |w| && p < |f| ==> a[p] == w[p - off] && b[p] == f[p];
    assert forall p :: 0 <= p < |a| && !(off + n <= p < off + |w| && p < |f|) ==> a[p] == b[p];
  }

  ghost predicate ExactForAll(off: nat, w: seq<byte>, n: nat)
    requires n <= |w|
  {
    forall f: seq<byte> :: off <= |f| <= MAXFILE * BSIZE ==> Exact(f, off, w, n)
  }

  /** It does for every file if and only if everything stored is counted. */
  lemma ExactIfAllCounted(off: nat, w: seq<byte>, n: nat)
    requires n <= |w| && off + |w| <= MAXFILE * BSIZE
    ensures ExactForAll(off, w, n) <==> n == |w|
  {
    hide Exact;
    if n == |w| {
      forall f: seq<byte> | off <= |f| <= MAXFILE * BSIZE ensures Exact(f, off, w, n) {
        ExactFor(f, off, w, n);
      }
    } else {
      var other: byte := if w[n] == 0 then 1 else 0;
      var f: seq<byte> := seq(off + |w|, _ => other);
      ExactFor(f, off, w, n);
      assert f[off + n] != w[n];
    }
  }

  /** With the first u source bytes readable and room on the disk, writei replaces just the
      bytes it counts, whatever the file, if and only if all of the source can be read, or
      none, or the readable part ends where a block of the file does. */
  lemma ExactIff(off: nat, src: seq<byte>, u: nat)
    requires u <= |src| && off + |src| <= MAXFILE * BSIZE
    ensures ExactForAll(off, src[..u], Reach(off, u, |src|)) <==> u == |src| || u == 0 || (off + u) % BSIZE == 0
  {
    hide ExactForAll, Reach;
    ExactIfAllCounted(off, src[..u], Reach(off, u, |src|));
    ReachAtEnd(off, u, |src|);
  }

  lemma ReachAtEnd(off: nat, u: nat, n: nat)
    requires u <= n
    ensures Reach(off, u, n) == u <==> u == n || u == 0 || (off + u) % BSIZE == 0
  {
  }

  /** Writing 200 bytes, of which 100 can be read, at the start of a file of one block: writei
      counts nothing, and the file begins with the 100 bytes. */
  lemma PartialWrite()
    ensures var f: seq<byte> := seq(BSIZE, _ => 0); var w: seq<byte> := seq(100, _ => 1);
            Reach(0, 100, 200) == 0 && !Exact(f, 0, w, 0) && After(f, 0, w, 0)[..100] == w
  {
    var f: seq<byte> := seq(BSIZE, _ => 0);
    var w: seq<byte> := seq(100, _ => 1);
    ExactFor(f, 0, w, 0);
    assert f[0] != w[0];
  }

  ghost predicate FileOk(ino: Inode) {
    |ino.addrs| == NDIRECT + 1 && ino.size <= MAXFILE * BSIZE
  }

  lemma WriteDoneFrom(sb: Super, inodes0: seq<Inode>, blk0: seq<Block>, n1: seq<Inode>, inodes: seq<Inode>,
                      blk: seq<Block>,
                      i: nat, off: nat, src: seq<byte>, stored: nat, tot: nat)
    requires Shape(sb, inodes0, blk0) && Shape(sb, n1, blk) && Shape(sb, inodes, blk) && |n1| == |inodes0| && i < |n1|
    requires tot <= stored <= |src|
    requires off <= inodes0[i].size && off + stored <= MAXFILE * BSIZE
    requires n1 == inodes0[i := inodes0[i].(addrs := n1[i].addrs)]
    requires inodes == n1[i := n1[i].(size := if off + tot > n1[i].size then off + tot else n1[i].size)]
    requires Wrote(inodes0[i], blk0, n1[i], blk, off, src, stored) && Mapped(n1[i], blk, off, stored)
    requires OthersKept(inodes0, blk0, n1, blk, i, sb)
    ensures WriteDone(inodes0, blk0, inodes, blk, i, off, src[..stored], tot)
  {
    hide Wrote, Mapped, File, NoHole, Kept;
    SizeKeepsWrote(inodes0[i], blk0, n1[i], inodes[i], blk, off, src, stored);
    WroteFile(inodes0[i], blk0, inodes[i], blk, off, src, stored, tot);
    forall j | 0 <= j < |inodes| && j != i
      ensures File(inodes[j], blk) == File(inodes0[j], blk0) && (NoHole(inodes0[j], blk0) ==> NoHole(inodes[j], blk))
    {
      assert Kept(inodes0[j], blk0, n1[j], blk);
      KeptFile(inodes0[j], blk0, n1[j], blk);
    }
  }

  lemma SizeKeepsWrote(ino0: Inode, blk0: seq<Block>, n1: Inode, ino: Inode, blk: seq<Block>, off: nat, src: seq<byte>,
                       tot: nat)
    requires |ino0.addrs| == NDIRECT + 1 && |n1.addrs| == NDIRECT + 1 && tot <= |src| && ino == n1.(size := ino.size)
    requires Wrote(ino0, blk0, n1, blk, off, src, tot) && Mapped(n1, blk, off, tot)
    ensures Wrote(ino0, blk0, ino, blk, off, src, tot) && Mapped(ino, blk, off, tot)
  {
    hide Word;
    forall k | 0 <= k < NSLOTS ensures Addr(ino, blk, k) == Addr(n1, blk, k) {}
    hide Addr;
    forall p | 0 <= p < MAXFILE * BSIZE ensures ByteAt(ino, blk, p) == Want(ino0, blk0, off, src, tot, p) {
      assert ByteAt(n1, blk, p) == Want(ino0, blk0, off, src, tot, p);
    }
  }
}
