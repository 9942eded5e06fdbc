/**
 Disk blocks as the kernel sees them: BSIZE bytes, also read as an array of
 little-endian 32-bit words (the log header and indirect blocks).
 */
module Blocks {
  const BSIZE := 1024
  const WORDS := BSIZE / 4

  type byte = x: int | 0 <= x < 256
  type word = x: int | 0 <= x < 0x1_0000_0000
  type Sector = b: seq<byte> | |b| == BSIZE witness seq(BSIZE, _ => 0)

  datatype Block = Block(data: Sector)

  function Zero(): (b: Block) {
    Block(seq(BSIZE, _ => 0))
  }

  /** d with the bytes from position `at` on replaced. */
  function Splice(d: Sector, at: nat, bytes: seq<byte>): (r: Sector)
    requires at + |bytes| <= BSIZE
  {
    d[..at] + bytes + d[at + |bytes|..]
  }

  function Word(b: Block, i: nat): (w: word)
    requires i < WORDS
  {
    assert Power(4) == 0x1_0000_0000;
    Bytes(b.data, 4 * i, 4)
  }

  /** The little-endian number in n bytes from position k. */
  function Bytes(d: Sector, k: nat, n: nat): (w: nat)
    requires k + n <= BSIZE
    ensures w < Power(n)
    decreases n
  {
    if n == 0 then 0 else var low: nat := d[k]; low + 0x100 * Bytes(d, k + 1, n - 1)
  }

  function Power(n: nat): (p: nat)
    ensures p > 0
  {
    if n == 0 then 1 else 0x100 * Power(n - 1)
  }

  function SetWord(b: Block, i: nat, w: word): (r: Block)
    requires i < WORDS
  {
    Block(seq<byte>(BSIZE, k requires 0 <= k < BSIZE => SetByte(b, i, w, k)))
  }

  function SetByte(b: Block, i: nat, w: word, k: nat): (d: byte)
    requires k < BSIZE
  {
    if 4 * i <= k < 4 * i + 4 then Digit(w, k - 4 * i) else b.data[k]
  }

  function Digit(w: word, k: nat): (d: byte)
    requires k < 4
  {
    if k == 0 then w % 0x100
    else if k == 1 then w / 0x100 % 0x100
    else if k == 2 then w / 0x1_0000 % 0x100
    else w / 0x100_0000
  }

  lemma BytesSame(d: Sector, e: Sector, k: nat)
    requires k + 4 <= BSIZE
    requires d[k] == e[k] && d[k + 1] == e[k + 1] && d[k + 2] == e[k + 2] && d[k + 3] == e[k + 3]
    ensures Bytes(d, k, 4) == Bytes(e, k, 4)
  {
    assert Bytes(d, k + 2, 2) == Bytes(e, k + 2, 2);
  }

  lemma BytesSplit(d: Sector, k: nat, w: word)
    requires k + 4 <= BSIZE
    requires forall j :: 0 <= j < 4 ==> d[k + j] == Digit(w, j)
    ensures Bytes(d, k, 4) == w
  {
    assert d[k + 0] == Digit(w, 0) && d[k + 1] == Digit(w, 1) && d[k + 2] == Digit(w, 2) && d[k + 3] == Digit(w, 3);
    var q, q' := w / 0x100, w / 0x1_0000;
    assert Bytes(d, k + 3, 1) == w / 0x100_0000 == q' / 0x100;
    assert Bytes(d, k + 2, 2) == q' == q / 0x100;
    assert Bytes(d, k + 1, 3) == q;
  }

  lemma SetWordReads(b: Block, i: nat, w: word, j: nat)
    requires i < WORDS && j < WORDS
    ensures Word(SetWord(b, i, w), j) == if j == i then w else Word(b, j)
  {
    var r := SetWord(b, i, w);
    if j == i {
      BytesSplit(r.data, 4 * i, w);
    } else {
      BytesSame(r.data, b.data, 4 * j);
    }
  }

  lemma ZeroWords(i: nat)
    requires i < WORDS
    ensures Word(Zero(), i) == 0
  {
  }
}
