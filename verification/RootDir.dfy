/**
 Directories on disk, and as the directory code sees them: the image that mkfs makes, read
 back entry by entry, is the first state of the directory code.
 */
module RootDir {

  import opened Blocks
  import opened FsBlocks
  import Dir
  import Mkfs

  const DESIZE := 16

  /** The bytes up to the first zero, as names are compared. */
  function Text(bytes: seq<byte>): (s: string) {
    if bytes == [] || bytes[0] == 0 then "" else [bytes[0] as char] + Text(bytes[1..])
  }

  /** struct dirent: 16 bits of inode number, DIRSIZ bytes of name. */
  function EntryOf(bytes: seq<byte>): (e: Dir.Dirent)
    requires |bytes| == DESIZE
  {
    var low: nat, high: nat := bytes[0], bytes[1];
    Dir.Dirent(low + 0x100 * high, Dir.Name(Text(bytes[2..])))
  }

  function Entries(bytes: seq<byte>): (es: seq<Dir.Dirent>) {
    seq(|bytes| / DESIZE, k requires 0 <= k < |bytes| / DESIZE => EntryOf(bytes[DESIZE * k..DESIZE * (k + 1)]))
  }

  /** The inode as the directory code sees it. */
  function InodeOf(ino: Inode, blk: seq<Block>): (r: Dir.Inode)
    requires ino.nlink >= 0 && |ino.addrs| == NDIRECT + 1 && ino.size <= MAXFILE * BSIZE
  {
    if ino.typ == Mkfs.T_DIR then Dir.Inode(Dir.Directory, ino.nlink, Entries(File(ino, blk)))
    else Dir.Inode(if ino.typ == Mkfs.T_FILE then Dir.File else Dir.Device, ino.nlink, [])
  }

  ghost predicate Readable(inodes: seq<Inode>) {
    forall i :: 0 <= i < |inodes| && inodes[i].typ != 0 ==>
      inodes[i].nlink >= 0 && |inodes[i].addrs| == NDIRECT + 1 && inodes[i].size <= MAXFILE * BSIZE
  }

  ghost function InodesOf(inodes: seq<Inode>, blk: seq<Block>): (r: map<nat, Dir.Inode>)
    requires Readable(inodes)
  {
    map i: nat | i < |inodes| && inodes[i].typ != 0 :: InodeOf(inodes[i], blk)
  }

  /** The name that a directory entry can hold of a file's name. */
  function NameOf(name: seq<byte>): (n: Dir.Name) {
    Dir.Name(Text(seq(Mkfs.DIRSIZ, k requires 0 <= k => Mkfs.Padded(name, k))))
  }

  function NamesOf(names: seq<seq<byte>>): (ns: seq<Dir.Name>) {
    seq(|names|, k requires 0 <= k < |names| => NameOf(names[k]))
  }

  // ---------------------------------------------------------------- entry by entry

  lemma EntryBack(inum: nat, name: seq<byte>)
    requires inum < 0x1_0000
    ensures EntryOf(Mkfs.Dirent(inum, name)) == Dir.Dirent(inum, NameOf(name))
  {
    var r := Mkfs.Dirent(inum, name);
    assert r[2..] == seq(Mkfs.DIRSIZ, k requires 0 <= k => Mkfs.Padded(name, k));
  }

  /** The two names every directory begins with. */
  lemma DotNames()
    ensures NameOf([Mkfs.DOT]) == Dir.Dot() && NameOf([Mkfs.DOT, Mkfs.DOT]) == Dir.DotDot()
  {
    TextStops([Mkfs.DOT], Mkfs.DIRSIZ);
    TextStops([Mkfs.DOT, Mkfs.DOT], Mkfs.DIRSIZ);
    assert Text([Mkfs.DOT]) == ".";
    assert Text([Mkfs.DOT, Mkfs.DOT]) == "..";
  }

  /** Padding with zeros does not change the text. */
  lemma {:induction false} TextStops(name: seq<byte>, n: nat)
    requires |name| <= n
    ensures Text(seq(n, k requires 0 <= k => Mkfs.Padded(name, k))) == Text(name)
  {
    var s: seq<byte> := seq(n, k requires 0 <= k => Mkfs.Padded(name, k));
    if name != [] {
      var t: seq<byte> := seq(n - 1, k requires 0 <= k => Mkfs.Padded(name[1..], k));
      assert s[1..] == t;
      TextStops(name[1..], n - 1);
    }
  }

  function InumAt(k: nat): (i: nat) {
    if k < 2 then Mkfs.ROOTINO else k
  }

  function NameAt(names: seq<seq<byte>>, k: nat): (n: seq<byte>)
    requires k < |names| + 2
  {
    if k == 0 then [Mkfs.DOT] else if k == 1 then [Mkfs.DOT, Mkfs.DOT] else names[k - 2]
  }

  lemma {:induction false} DirsAt(names: seq<seq<byte>>, k: nat)
    requires k < |names| + 2
    ensures Mkfs.Dirs(names)[DESIZE * k..DESIZE * (k + 1)] == Mkfs.Dirent(InumAt(k), NameAt(names, k))
  {
    hide Mkfs.Dirent;
    if names != [] {
      var n := |names| - 1;
      var d, e := Mkfs.Dirs(names[..n]), Mkfs.Dirent(|names| + 1, names[n]);
      if k < n + 2 {
        DirsAt(names[..n], k);
        assert (d + e)[DESIZE * k..DESIZE * (k + 1)] == d[DESIZE * k..DESIZE * (k + 1)];
      } else {
        assert (d + e)[DESIZE * k..DESIZE * (k + 1)] == e;
      }
    }
  }

  ghost function Bytes(names: seq<seq<byte>>, spare: nat): (r: seq<byte>)
    ensures |r| == DESIZE * (|names| + 2 + spare)
  {
    Mkfs.Dirs(names) + seq(DESIZE * spare, _ => 0)
  }

  lemma UsedSlot(names: seq<seq<byte>>, spare: nat, k: nat)
    requires k < |names| + 2 < 0x1_0000
    ensures var b := Bytes(names, spare);
            EntryOf(b[DESIZE * k..DESIZE * (k + 1)]) == Dir.Dirent(InumAt(k), NameOf(NameAt(names, k)))
  {
    hide Mkfs.Dirs, Mkfs.Dirent, Text, EntryOf, NameOf;
    var d := Mkfs.Dirs(names);
    assert Bytes(names, spare)[DESIZE * k..DESIZE * (k + 1)] == d[DESIZE * k..DESIZE * (k + 1)];
    DirsAt(names, k);
    EntryBack(InumAt(k), NameAt(names, k));
  }

  lemma FreeSlot(names: seq<seq<byte>>, spare: nat, k: nat)
    requires |names| + 2 <= k < |names| + 2 + spare
    ensures var b := Bytes(names, spare); EntryOf(b[DESIZE * k..DESIZE * (k + 1)]) == Dir.Dirent(0, Dir.Name(""))
  {
    hide Mkfs.Dirs;
    var z := Bytes(names, spare)[DESIZE * k..DESIZE * (k + 1)];
    assert z[0] == 0 && z[1] == 0 && z[2..][0] == 0;
  }

  /** The root's bytes, read back. */
  lemma RootBack(names: seq<seq<byte>>, spare: nat)
    requires |names| + 2 < 0x1_0000
    ensures Entries(Bytes(names, spare)) == Dir.RootEntries(NamesOf(names), spare)
  {
    hide Bytes, EntryOf, NameOf, Dir.Dot, Dir.DotDot;
    DotNames();
    var es, rs := Entries(Bytes(names, spare)), Dir.RootEntries(NamesOf(names), spare);
    forall k | 0 <= k < |es| ensures es[k] == rs[k] {
      if k < |names| + 2 {
        UsedSlot(names, spare, k);
      } else {
        FreeSlot(names, spare, k);
      }
    }
  }

  // ------------------------------------------------------------------- the image

  /** What Mkfs.Image.Build leaves. */
  ghost predicate Made(inodes: seq<Inode>, blk: seq<Block>, names: seq<seq<byte>>, contents: seq<seq<byte>>) {
    && |inodes| == Mkfs.NINODES && |names| == |contents| <= Mkfs.NINODES - 2
    && Mkfs.RootBuilt(inodes[Mkfs.ROOTINO], blk, names) && Mkfs.RestFree(inodes, 2 + |names|)
    && forall i :: 0 <= i < |names| ==> Mkfs.FileBuilt(inodes[2 + i], blk, contents[i])
  }

  lemma MadeReadable(inodes: seq<Inode>, blk: seq<Block>, names: seq<seq<byte>>, contents: seq<seq<byte>>)
    requires Made(inodes, blk, names, contents)
    ensures Readable(inodes)
    ensures forall i :: 0 <= i < |inodes| ==> (inodes[i].typ != 0 <==> 1 <= i < 2 + |names|)
  {
    hide File, NoHole, Mkfs.Dirs;
    forall i | 2 <= i < 2 + |names| ensures Mkfs.FileBuilt(inodes[i], blk, contents[i - 2]) {
      var k := i - 2;
      assert Mkfs.FileBuilt(inodes[2 + k], blk, contents[k]);
    }
  }

  /** Whatever mkfs was given, its image, read back as inodes and directory entries, is the
      first state of the directory code; so that code's invariant holds of it if and only if
      the names, cut to what an entry holds, are different and none is "." or "..". */
  lemma ImageIsBuilt(inodes: seq<Inode>, blk: seq<Block>, names: seq<seq<byte>>, contents: seq<seq<byte>>)
    requires Made(inodes, blk, names, contents)
    ensures Readable(inodes) && inodes[Mkfs.ROOTINO].size >= DESIZE * (2 + |names|)
    ensures var spare := inodes[Mkfs.ROOTINO].size / DESIZE - 2 - |names|;
            InodesOf(inodes, blk) == Dir.Built(NamesOf(names), spare)
    ensures var ino := InodesOf(inodes, blk);
            Dir.Inv(ino, 1, map[1 := Dir.Place(1, 0, 0)], map i | i in ino :: 0) <==> Dir.NewNames(NamesOf(names))
  {
    hide File, NoHole, Mkfs.Dirs, Entries, Dir.RootEntries, Dir.Inv, Dir.NewNames, NameOf;
    MadeReadable(inodes, blk, names, contents);
    RootSlots(inodes[Mkfs.ROOTINO], blk, names);
    var spare := inodes[Mkfs.ROOTINO].size / DESIZE - 2 - |names|;
    var a, b := InodesOf(inodes, blk), Dir.Built(NamesOf(names), spare);
    forall i: nat | i in b ensures i in a && a[i] == b[i] {
      if i != 1 {
        var k := i - 2;
        assert Mkfs.FileBuilt(inodes[2 + k], blk, contents[k]);
      }
    }
    assert a == b;
    Dir.BuiltIff(NamesOf(names), spare);
  }

  lemma RootSlots(ino: Inode, blk: seq<Block>, names: seq<seq<byte>>)
    requires Mkfs.RootBuilt(ino, blk, names) && |names| + 2 < 0x1_0000
    ensures ino.size >= DESIZE * (2 + |names|)
    ensures Entries(File(ino, blk)) == Dir.RootEntries(NamesOf(names), ino.size / DESIZE - 2 - |names|)
  {
    hide File, NoHole, Mkfs.Dirs, Entries, Dir.RootEntries;
    var spare := ino.size / DESIZE - 2 - |names|;
    assert ino.size == DESIZE * (2 + |names| + spare);
    RootBack(names, spare);
  }
}
