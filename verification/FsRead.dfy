/** readi, and filewrite's chunking. */
module FsRead {
  import opened Sets
  import opened Blocks
  import opened Bitmap
  import opened FsBlocks
  import opened FsFiles
  import opened FsWrite
  import LogSpec

  // -------------------------------------------------------------------- readi

  lemma ExtendedFile(sb: Super, inodes: seq<Inode>, blk: seq<Block>, inodes': seq<Inode>, blk': seq<Block>, i: nat,
                     j: nat)
    requires Extended(sb, inodes, blk, inodes', blk', i) && j < |inodes|
    ensures inodes'[j].size == inodes[j].size && File(inodes'[j], blk') == File(inodes[j], blk)
  {
    hide Addr, ByteAt, File;
    assert Kept(inodes[j], blk, inodes'[j], blk');
    KeptFile(inodes[j], blk, inodes'[j], blk');
  }

  lemma ReadMore(ino: Inode, blk: seq<Block>, off: nat, tot: nat, m: nat, a: nat)
    requires FileOk(ino) && off + tot + m <= ino.size && (off + tot) % BSIZE + m <= BSIZE && m > 0
    requires a == Addr(ino, blk, SlotOf((off + tot) / BSIZE)) && 0 < a < |blk|
    ensures var p := off + tot;
            File(ino, blk)[off..p] + blk[a].data[p % BSIZE..p % BSIZE + m] == File(ino, blk)[off..p + m]
  {
    var p := off + tot;
    forall q | p <= q < p + m ensures File(ino, blk)[q] == blk[a].data[p % BSIZE + (q - p)] {
      InOneBlock(p, m, q);
      assert q % BSIZE == p % BSIZE + (q - p);
      ByteInBlock(ino, blk, q, a);
      hide Addr;
    }
    hide Addr, ByteAt, File;
  }

  /** readi has delivered `out`, the bytes of file i from off on, since the given state. */
  ghost predicate Reading(fs: Fs, inodes0: seq<Inode>, blk0: seq<Block>, dirty0: set<nat>, i: nat, off: nat,
                          out: seq<byte>)
    reads fs
  {
    && fs.Valid(fs.others) && Extended(fs.sb, inodes0, blk0, fs.inodes, fs.blk, i) && off + |out| <= inodes0[i].size
    && out == File(inodes0[i], blk0)[off..off + |out|]
    && (NoHole(inodes0[i], blk0) ==> fs.inodes == inodes0 && fs.blk == blk0 && fs.dirty == dirty0)
  }

  lemma StartReading(fs: Fs, i: nat, off: nat)
    requires fs.Valid(fs.others) && i < |fs.inodes| && off <= fs.inodes[i].size
    ensures Reading(fs, fs.inodes, fs.blk, fs.dirty, i, off, [])
  {
    ExtendedSelf(fs.sb, fs.inodes, fs.blk, i);
  }

  /** One iteration of readi, for at most k more bytes. A copy that fails has delivered what
      the first u bytes of the destination can take. */
  method ReadStep(fs: Fs, i: nat, off: nat, out: seq<byte>, k: nat, u: nat,
                  ghost inodes0: seq<Inode>, ghost blk0: seq<Block>, ghost dirty0: set<nat>)
    returns (ok: bool, faulted: bool, out': seq<byte>)
    requires Reading(fs, inodes0, blk0, dirty0, i, off, out) && 0 < k && off + |out| + k <= inodes0[i].size
    requires |out| <= u
    modifies fs
    ensures Reading(fs, inodes0, blk0, dirty0, i, off, out') && |out| <= |out'| <= |out| + k
    ensures ok ==> |out| < |out'| <= u
    ensures !ok && faulted ==> |out'| == u < |out| + k
    ensures !ok && !faulted ==> out' == out && Full(fs.sb, fs.blk) && !NoHole(inodes0[i], blk0)
  {
    hide Addr, ByteAt, Owned, BitsExact, Full, File, NoHole;
    var addr := ReadBmap(fs, i, off + |out|, inodes0, blk0);
    ExtendedFile(fs.sb, inodes0, blk0, fs.inodes, fs.blk, i, i);
    if addr == 0 {
      return false, false, out;
    }
    var at := (off + |out|) % BSIZE;
    var m := Min(k, BSIZE - at);
    ok := |out| + m <= u;
    if !ok {
      m := u - |out|;
    }
    if m > 0 {
      ReadMore(fs.inodes[i], fs.blk, off, |out|, m, addr);
    }
    return ok, !ok, out + fs.blk[addr].data[at..at + m];
  }

  /**
   readi, when the first u bytes of the destination can be written: the bytes delivered are
   those of the file at off. It returns 0 for a bad range, and -1 exactly if the destination
   ends it; otherwise it stops at n bytes, at the end of the file, or at a hole on a full
   disk. If the inode has no hole nothing is allocated or changed, so no transaction is
   needed.
   */
  method Readi(fs: Fs, i: nat, off: word, n: word, u: nat) returns (r: int, out: seq<byte>)
    requires fs.Valid(fs.others) && i < |fs.inodes|
    modifies fs
    ensures fs.Valid(fs.others) && Extended(fs.sb, old(fs.inodes), old(fs.blk), fs.inodes, fs.blk, i)
    ensures off > old(fs.inodes[i].size) || off + n >= 0x1_0000_0000 ==> r == 0 && out == []
    ensures off <= old(fs.inodes[i].size) && off + n < 0x1_0000_0000 ==>
              var f := File(old(fs.inodes[i]), old(fs.blk));
              && off + |out| <= |f| && out == f[off..off + |out|] && |out| <= n && |out| <= u
              && (r == -1 ==> |out| == u && u < n && off + u < |f|)
              && (r != -1 ==>
                  && r == |out|
                  && (r == n || off + r == |f| || (Full(fs.sb, fs.blk) && !NoHole(old(fs.inodes[i]), old(fs.blk)))))
    ensures NoHole(old(fs.inodes[i]), old(fs.blk)) ==>
              fs.inodes == old(fs.inodes) && fs.blk == old(fs.blk) && fs.dirty == old(fs.dirty)
  {
    out := [];
    if off > fs.inodes[i].size || off + n >= 0x1_0000_0000 {
      ExtendedSelf(fs.sb, fs.inodes, fs.blk, i);
      return 0, [];
    }
    ghost var inodes0, blk0, dirty0 := fs.inodes, fs.blk, fs.dirty;
    var n' := if off + n > fs.inodes[i].size then fs.inodes[i].size - off else n;
    StartReading(fs, i, off);
    hide Full, File, NoHole, FsInv, Kept;
    while |out| < n'
      invariant Reading(fs, inodes0, blk0, dirty0, i, off, out) && |out| <= n' && |out| <= u
    {
      var ok, faulted;
      ok, faulted, out := ReadStep(fs, i, off, out, n' - |out|, u, inodes0, blk0, dirty0);
      if !ok {
        return if faulted then -1 else |out|, out;
      }
    }
    return |out|, out;
  }

  method ReadBmap(fs: Fs, i: nat, p: nat, ghost inodes0: seq<Inode>, ghost blk0: seq<Block>) returns (addr: nat)
    requires fs.Valid(fs.others) && Extended(fs.sb, inodes0, blk0, fs.inodes, fs.blk, i) && p < inodes0[i].size
    modifies fs
    ensures fs.Valid(fs.others) && Extended(fs.sb, inodes0, blk0, fs.inodes, fs.blk, i)
    ensures addr == 0 ==> Full(fs.sb, fs.blk)
    ensures addr != 0 ==> addr < |fs.blk| && addr == Addr(fs.inodes[i], fs.blk, SlotOf(p / BSIZE))
    ensures NoHole(inodes0[i], blk0) ==>
              addr != 0 && fs.inodes == old(fs.inodes) && fs.blk == old(fs.blk) && fs.dirty == old(fs.dirty)
  {
    ghost var n1, b1 := fs.inodes, fs.blk;
    hide ByteAt, BitsExact, Full, Word, Addr;
    NoHoleMapped(fs.sb, inodes0, blk0, n1, b1, i, p);
    addr := fs.Bmap(i, p / BSIZE);
    ExtendedTrans(fs.sb, inodes0, blk0, n1, b1, fs.inodes, fs.blk, i);
    assert Named(fs.sb, Addr(fs.inodes[i], fs.blk, SlotOf(p / BSIZE)), fs.owner, Slot(i, SlotOf(p / BSIZE)));
  }

  lemma NoHoleMapped(sb: Super, inodes0: seq<Inode>, blk0: seq<Block>, inodes: seq<Inode>, blk: seq<Block>, i: nat,
                     p: nat)
    requires Extended(sb, inodes0, blk0, inodes, blk, i) && p < inodes0[i].size
    ensures p / BSIZE < MAXFILE && (NoHole(inodes0[i], blk0) ==> Addr(inodes[i], blk, SlotOf(p / BSIZE)) != 0)
  {
    hide Addr, ByteAt;
    assert Kept(inodes0[i], blk0, inodes[i], blk);
    assert p / BSIZE * BSIZE <= p;
  }

  // ---------------------------------------------------------------- filewrite

  /** filewrite's chunk: what one transaction can surely take. */
  const CHUNK := (LogSpec.MAXOPBLOCKS - 1 - 1 - 2) / 2 * BSIZE

  /** With one bitmap block, a chunk at any offset dirties at most seven blocks: the
      bitmap, the inode block, the indirect block and four data blocks. */
  lemma ChunkBudget(sb: Super, dirty: set<nat>, data: set<nat>, indirect: nat, inodeBlock: nat, off: nat, n: nat)
    requires 0 < sb.size <= BPB && n <= CHUNK && |data| <= Spanned(off, n)
    requires forall b :: b in dirty ==> b in data || IsBitmap(sb, b) || b == indirect || b == inodeBlock
    ensures |dirty| <= 7
  {
    assert Spanned(off, n) <= 4;
    var all := data + {sb.bmapstart} + {indirect} + {inodeBlock};
    forall b | b in dirty ensures b in all {}
    SubsetSize(dirty, all);
    assert |all| <= |data| + 3;
  }

  lemma OverwriteTwice(f: seq<byte>, off: nat, w: seq<byte>, w': seq<byte>)
    requires off <= |f|
    ensures off + |w| <= |Overwrite(f, off, w)|
    ensures Overwrite(Overwrite(f, off, w), off + |w|, w') == Overwrite(f, off, w + w')
  {
  }

  lemma AfterTwice(f: seq<byte>, off: nat, w: seq<byte>, w': seq<byte>, n: nat)
    requires off <= |f| && n <= |w'|
    ensures off + |w| <= |After(f, off, w, |w|)|
    ensures After(After(f, off, w, |w|), off + |w|, w', n) == After(f, off, w + w', |w| + n)
  {
    hide Overwrite;
    assert After(f, off, w, |w|) == Overwrite(f, off, w);
    OverwriteTwice(f, off, w, w');
  }

  lemma WriteDoneTwice(n0: seq<Inode>, b0: seq<Block>, n1: seq<Inode>, b1: seq<Block>, n2: seq<Inode>, b2: seq<Block>,
                       i: nat, off: nat, w: seq<byte>, w': seq<byte>, n: nat)
    requires WriteDone(n0, b0, n1, b1, i, off, w, |w|) && WriteDone(n1, b1, n2, b2, i, off + |w|, w', n)
    ensures WriteDone(n0, b0, n2, b2, i, off, w + w', |w| + n)
  {
    hide File, NoHole, After;
    AfterTwice(File(n0[i], b0), off, w, w', n);
  }

  lemma WriteDoneNone(sb: Super, inodes: seq<Inode>, blk: seq<Block>, i: nat, off: nat)
    requires Shape(sb, inodes, blk) && i < |inodes| && off <= inodes[i].size
    ensures WriteDone(inodes, blk, inodes, blk, i, off, [], 0)
  {
    hide ByteAt, Addr;
    assert After(File(inodes[i], blk), off, [], 0) == File(inodes[i], blk);
  }

  /** The state while filewrite runs: `stored` bytes of src are in place from off0 on, and
      `done` of them counted. */
  ghost predicate Filing(fs: Fs, inodes0: seq<Inode>, blk0: seq<Block>, i: nat, off0: nat, src: seq<byte>, stored: nat,
                         done: nat)
    reads fs
  {
    && fs.Valid(fs.others) && |fs.inodes| == |inodes0| && i < |inodes0| && done <= stored <= |src|
    && off0 + done < 0x1_0000_0000
    && if off0 <= inodes0[i].size then WriteDone(inodes0, blk0, fs.inodes, fs.blk, i, off0, src[..stored], done)
       else stored == 0 && fs.inodes == inodes0 && fs.blk == blk0
  }

  /** Why filewrite may stop early with all of the source readable: the disk is full, the offset
      is past the end, or the file would be too long. */
  ghost predicate Stopped(sb: Super, blk: seq<Block>, size: nat, off0: nat, len: nat) {
    (sb.Valid() && |blk| == sb.size && Full(sb, blk)) || off0 > size || off0 + len > MAXFILE * BSIZE
  }

  /** How many of n bytes filewrite counts if the first u of them can be read. */
  function FileReach(off: nat, u: nat, n: nat): (r: nat)
    requires u <= n
    ensures r <= u
  {
    if u == n then n else var c := u - u % CHUNK; c + Reach(off + c, u - c, Min(n - c, CHUNK))
  }

  lemma FileReachIs(off: nat, u: nat, n: nat, done: nat)
    requires done <= u < n && Whole(done) && u - done < Min(n - done, CHUNK)
    ensures FileReach(off, u, n) == done + Reach(off + done, u - done, Min(n - done, CHUNK))
  {
    hide Reach, Whole;
    PastWhole(done, u - done);
  }

  /** So many whole transactions. */
  predicate Whole(done: nat) {
    done % CHUNK == 0
  }

  lemma NoneWhole()
    ensures Whole(0)
  {
  }

  lemma PastWhole(done: nat, d: nat)
    requires Whole(done) && d < CHUNK
    ensures (done + d) % CHUNK == d && Whole(done + CHUNK)
  {
    assert CHUNK == 3072;
    var k := done / 3072;
    assert done == 3072 * k;
    assert (done + d) / 3072 == k && (done + 3072) / 3072 == k + 1;
  }

  /** filewrite replaces just the bytes it counts, whatever the file, if and only if all of the
      source can be read, or the readable part ends where a transaction or a block does. */
  lemma FileExactIff(off: nat, src: seq<byte>, u: nat)
    requires u <= |src| && off + |src| <= MAXFILE * BSIZE
    ensures ExactForAll(off, src[..u], FileReach(off, u, |src|)) <==>
              u == |src| || u % CHUNK == 0 || (off + u) % BSIZE == 0
  {
    hide ExactForAll;
    ExactIfAllCounted(off, src[..u], FileReach(off, u, |src|));
    FileReachAtEnd(off, u, |src|);
  }

  lemma FileReachAtEnd(off: nat, u: nat, n: nat)
    requires u <= n
    ensures FileReach(off, u, n) == u <==> u == n || u % CHUNK == 0 || (off + u) % BSIZE == 0
  {
    if u < n {
      var c := u - u % CHUNK;
      hide Reach;
      ReachAtEnd(off + c, u - c, Min(n - c, CHUNK));
      assert off + c + (u - c) == off + u;
    }
  }

  /** One transaction of filewrite. */
  method WriteChunk(fs: Fs, i: nat, off0: nat, src: seq<byte>, done: nat, n1: nat, u: nat,
                    ghost inodes0: seq<Inode>, ghost blk0: seq<Block>)
    returns (r: int, ghost stored: nat, ghost dirtied: nat)
    requires Filing(fs, inodes0, blk0, i, off0, src, done, done) && 0 < n1 <= CHUNK && done + n1 <= |src|
    requires done <= u <= |src|
    modifies fs
    ensures r == -1 || 0 <= r <= n1
    ensures Filing(fs, inodes0, blk0, i, off0, src, stored, if r == -1 then done else done + r) && stored <= u
    ensures fs.sb.size <= BPB ==> dirtied <= 7
    ensures r == n1 ==> stored == done + n1
    ensures r != n1 ==>
              Stopped(fs.sb, fs.blk, inodes0[i].size, off0, |src|)
              || (stored == u < done + n1 && r == Reach(off0 + done, u - done, n1))
  {
    hide FsInv, WriteDone, Spanned, IsBitmap, Full, Covered, Strayed, Reach;
    fs.dirty := {};  // begin_op
    ghost var n, b, inodeBlock := fs.inodes, fs.blk, fs.sb.inodestart + i / IPB;
    ghost var put, data, stray;
    var chunk := src[done..done + n1];
    var u' := Min(u - done, n1);
    r, put, data, stray := Writei(fs, i, off0 + done, chunk, u');
    stored := if r == -1 then done else done + put;
    dirtied := |fs.dirty|;
    InvShape(fs.sb, fs.inodes, fs.blk, fs.owner, fs.others);
    if r == -1 {
      TooFar(inodes0, blk0, n, b, i, off0, src, done);
    } else {
      if fs.sb.size <= BPB {
        ChunkBudget(fs.sb, fs.dirty, data, fs.inodes[i].addrs[NDIRECT], inodeBlock, off0 + done, n1);
      }
      Filed(inodes0, blk0, n, b, fs.inodes, fs.blk, i, off0, src, done, chunk[..put], r);
      ReachAll(off0 + done, n1);
    }
  }

  /** The bytes written so far leave no gap below the offset. */
  lemma TooFar(inodes0: seq<Inode>, blk0: seq<Block>, n: seq<Inode>, b: seq<Block>, i: nat, off0: nat, src: seq<byte>,
               done: nat)
    requires done <= |src| && i < |inodes0| && |n| == |inodes0|
    requires if off0 <= inodes0[i].size then WriteDone(inodes0, blk0, n, b, i, off0, src[..done], done)
             else done == 0 && n == inodes0
    ensures off0 + done > n[i].size ==> off0 > inodes0[i].size
  {
    hide File, NoHole, Overwrite;
  }

  lemma Filed(inodes0: seq<Inode>, blk0: seq<Block>, n: seq<Inode>, b: seq<Block>, inodes: seq<Inode>, blk: seq<Block>,
              i: nat, off0: nat, src: seq<byte>, done: nat, w: seq<byte>, r: nat)
    requires done + |w| <= |src| && w == src[done..done + |w|] && i < |inodes0| && |n| == |inodes0| && r <= |w|
    requires if off0 <= inodes0[i].size then WriteDone(inodes0, blk0, n, b, i, off0, src[..done], done)
             else done == 0 && n == inodes0
    requires WriteDone(n, b, inodes, blk, i, off0 + done, w, r)
    ensures off0 <= inodes0[i].size && WriteDone(inodes0, blk0, inodes, blk, i, off0, src[..done + |w|], done + r)
    ensures off0 + done + r <= MAXFILE * BSIZE
  {
    hide File, NoHole, After;
    assert src[..done] + w == src[..done + |w|];
    assert off0 + done <= n[i].size && FileOk(inodes[i]);
    if off0 <= inodes0[i].size {
      WriteDoneTwice(inodes0, blk0, n, b, inodes, blk, i, off0, src[..done], w, r);
    }
  }

  lemma StartFiling(fs: Fs, i: nat, off0: nat, src: seq<byte>)
    requires fs.Valid(fs.others) && i < |fs.inodes| && off0 < 0x1_0000_0000
    ensures Filing(fs, fs.inodes, fs.blk, i, off0, src, 0, 0)
  {
    hide WriteDone, Owned, BitsExact;
    if off0 <= fs.inodes[i].size {
      WriteDoneNone(fs.sb, fs.inodes, fs.blk, i, off0);
    }
  }

  /** How filewrite has ended, or that it goes on: it stands at a transaction's end. */
  ghost predicate FileEnd(sb: Super, blk: seq<Block>, size: nat, off0: nat, len: nat, u: nat, stored: nat, done: nat,
                          ok: bool)
  {
    if ok then stored == done && (Whole(done) || done == len)
    else done < len && (Stopped(sb, blk, size, off0, len) || (stored == u < len && done == FileReach(off0, u, len)))
  }

  /** One turn of filewrite's loop; stops when a chunk is not written whole. */
  method FileStep(fs: Fs, i: nat, off0: nat, src: seq<byte>, done: nat, u: nat,
                  ghost inodes0: seq<Inode>, ghost blk0: seq<Block>)
    returns (done': nat, ok: bool, ghost stored: nat, ghost dirtied: nat)
    requires Filing(fs, inodes0, blk0, i, off0, src, done, done) && done < |src| && done <= u <= |src| && Whole(done)
    modifies fs
    ensures Filing(fs, inodes0, blk0, i, off0, src, stored, done') && done <= done' <= stored <= u
    ensures fs.sb.size <= BPB ==> dirtied <= 7
    ensures ok ==> done < done'
    ensures FileEnd(fs.sb, fs.blk, inodes0[i].size, off0, |src|, u, stored, done', ok)
  {
    hide Filing, Stopped, FileReach, Reach, Whole;
    PastWhole(done, 0);
    var n1 := Min(|src| - done, CHUNK);
    var r;
    r, stored, dirtied := WriteChunk(fs, i, off0, src, done, n1, u, inodes0, blk0);
    done' := if r > 0 then done + r else done;
    ok := r == n1;
    FilingBounds(fs, inodes0, blk0, i, off0, src, stored, done');
    if !ok && stored == u < done + n1 {
      FileReachIs(off0, u, |src|, done);
    }
  }

  lemma FilingBounds(fs: Fs, inodes0: seq<Inode>, blk0: seq<Block>, i: nat, off0: nat, src: seq<byte>, stored: nat,
                     done: nat)
    requires Filing(fs, inodes0, blk0, i, off0, src, stored, done)
    ensures done <= stored <= |src|
  {
  }

  /**
   filewrite on an inode: chunk by chunk, one transaction each, when the first u bytes of the
   source can be read. The file is as if one write of the first `stored` bytes had been done
   with those up to the offset counted; stored is the number counted, or u if a copy failed;
   all are counted exactly when n is returned; and no transaction dirtied more than 7 blocks.
   */
  method Filewrite(fs: Fs, i: nat, off0: word, src: seq<byte>, u: nat)
    returns (ret: int, off: nat, ghost stored: nat, ghost most: nat)
    requires fs.Valid(fs.others) && i < |fs.inodes| && |src| < 0x8000_0000 && u <= |src|
    modifies fs
    ensures off0 <= off <= off0 + stored <= off0 + u
    ensures Filing(fs, old(fs.inodes), old(fs.blk), i, off0, src, stored, off - off0)
    ensures ret == if off == off0 + |src| then |src| else -1
    ensures Stopped(fs.sb, fs.blk, old(fs.inodes[i].size), off0, |src|)
            || (stored == u && off == off0 + FileReach(off0, u, |src|))
    ensures fs.sb.size <= BPB ==> most <= 7
  {
    hide Filing, FsInv, Stopped, FileReach, Whole;
    NoneWhole();
    ghost var inodes0, blk0 := fs.inodes, fs.blk;
    StartFiling(fs, i, off0, src);
    var done, ok := 0, true;
    stored, most := 0, 0;
    while done < |src| && ok
      invariant Filing(fs, inodes0, blk0, i, off0, src, stored, done) && done <= stored <= u
      invariant FileEnd(fs.sb, fs.blk, inodes0[i].size, off0, |src|, u, stored, done, ok)
      invariant fs.sb.size <= BPB ==> most <= 7
      decreases |src| - done, ok
    {
      ghost var dirtied;
      done, ok, stored, dirtied := FileStep(fs, i, off0, src, done, u, inodes0, blk0);
      most := if dirtied > most then dirtied else most;
    }
    off := off0 + done;
    ret := if ok then |src| else -1;
    WholeReach(off0, |src|);
  }

  lemma WholeReach(off: nat, n: nat)
    ensures FileReach(off, n, n) == n
  {
  }
}
