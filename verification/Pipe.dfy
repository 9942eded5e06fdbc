/**
 The pipe ring buffer with its two 32-bit counters. Each method is one critical
 section under pi->lock: pipewrite and piperead give the lock up only to sleep, so any
 interleaving of readers and writers is a sequence of these sections.
 */
module Pipe {

  import Division

  const PIPESIZE := 512
  const WRAP := 0x1_0000_0000

  type byte = x: int | 0 <= x < 256

  /** How a section ends: asleep on a full or empty pipe, with -1, or with a count. */
  datatype Exit = Sleeps | Fails | Returns

  ghost predicate Unhindered(killed: nat -> bool, copyOk: nat -> bool, i: nat, j: nat) {
    forall k :: i <= k < j ==> !killed(k) && copyOk(k)
  }

  class Pipe {
    const data: array<byte>
    var nread: int
    var nwrite: int
    var readopen: bool
    var writeopen: bool
    /** Every byte ever put in, and every byte ever taken out, in order. */
    ghost var appended: seq<byte>
    ghost var taken: seq<byte>

    /** The counters count bytes modulo 2^32, at most PIPESIZE bytes are in the pipe, they
        are in the ring, and what was taken out is what was put in first. */
    ghost predicate Valid()
      reads this, data
    {
      && data.Length == PIPESIZE
      && nread == |taken| % WRAP && nwrite == |appended| % WRAP
      && |appended| <= |taken| + PIPESIZE
      && taken <= appended
      && forall k :: |taken| <= k < |appended| ==> data[k % PIPESIZE] == appended[k]
    }

    /** pipealloc. */
    constructor ()
      ensures Valid() && fresh(data) && readopen && writeopen && appended == [] && taken == []
    {
      data := new byte[PIPESIZE](_ => 0);
      nread, nwrite, readopen, writeopen := 0, 0, true, true;
      appended, taken := [], [];
    }

    /** (nwrite - nread) in 32-bit arithmetic. */
    function Used(): (n: int)
      reads this
    {
      (nwrite - nread) % WRAP
    }

    /** The wrapped counters still tell how much is in the pipe; so the two tests on them
        are exact, across any number of wrap-arounds. */
    lemma UsedIsExact()
      requires Valid()
      ensures Used() == |appended| - |taken|
      ensures nwrite == (nread + PIPESIZE) % WRAP <==> |appended| == |taken| + PIPESIZE
      ensures nread == nwrite <==> appended == taken
    {
      Distance(|taken|, |appended|);
      if |appended| == |taken| {
        assert taken == appended;
      }
    }

    method Put(ch: byte)
      requires Valid() && |appended| < |taken| + PIPESIZE
      modifies this`nwrite, this`appended, data
      ensures Valid() && appended == old(appended) + [ch]
    {
      ghost var n := |appended|;
      Division.SameSlot(n, PIPESIZE, WRAP / PIPESIZE);
      forall k | |taken| <= k < n ensures k % PIPESIZE != n % PIPESIZE {
        Division.Apart(k, n, PIPESIZE);
      }
      data[nwrite % PIPESIZE] := ch;
      NextCount(n);
      nwrite := (nwrite + 1) % WRAP;
      appended := appended + [ch];
    }

    method Get() returns (ch: byte)
      requires Valid() && taken != appended
      modifies this`nread, this`taken
      ensures Valid() && taken == old(taken) + [ch] && |old(taken)| < |appended| && ch == appended[|old(taken)|]
    {
      ghost var n := |taken|;
      assert n == |appended| ==> taken == appended;
      Division.SameSlot(n, PIPESIZE, WRAP / PIPESIZE);
      NextCount(n);
      ch := data[nread % PIPESIZE];
      nread := (nread + 1) % WRAP;
      taken := taken + [ch];
    }

    /** pipewrite from acquire (or from waking) on, with i of the bytes already written.
        killed says whether the process turns out to be killed when it comes to a byte, copyOk
        whether that byte can be read from user memory. So a write may fail with -1 although
        bytes have gone into the pipe. */
    method WriteSection(src: seq<byte>, i: nat, killed: nat -> bool, copyOk: nat -> bool) returns (j: nat, how: Exit)
      requires Valid() && i <= |src|
      modifies this`nwrite, this`appended, data
      ensures Valid() && i <= j <= |src| && appended == old(appended) + src[i..j]
      ensures Unhindered(killed, copyOk, i, j) && (i < j ==> readopen)
      ensures how == Fails <==> j < |src| && (!readopen || killed(j))
      ensures how == Sleeps <==> j < |src| && readopen && !killed(j) && |appended| == |taken| + PIPESIZE
      ensures how == Returns && j < |src| ==> !copyOk(j)
    {
      j := i;
      while j < |src|
        invariant Valid() && i <= j <= |src| && appended == old(appended) + src[i..j]
        invariant Unhindered(killed, copyOk, i, j) && (i < j ==> readopen)
      {
        if !readopen || killed(j) {
          return j, Fails;
        }
        UsedIsExact();
        if nwrite == (nread + PIPESIZE) % WRAP {
          return j, Sleeps;
        }
        if !copyOk(j) {
          return j, Returns;
        }
        Put(src[j]);
        assert src[i..j + 1] == src[i..j] + [src[j]];
        j := j + 1;
      }
      return j, Returns;
    }

    /** piperead from acquire (or from waking) on. A byte that cannot be copied out is
        taken all the same, but not counted. */
    method ReadSection(n: nat, killed: bool, copyOk: nat -> bool) returns (out: seq<byte>, how: Exit)
      requires Valid()
      modifies this`nread, this`taken
      ensures Valid() && |out| <= n
      ensures how == Sleeps <==> old(taken) == appended && writeopen && !killed
      ensures how == Fails <==> old(taken) == appended && writeopen && killed
      ensures how != Returns ==> taken == old(taken) && out == []
      ensures how == Returns ==>
                taken == old(taken) + out || exists b :: taken == old(taken) + out + [b] && !copyOk(|out|)
      ensures how == Returns && |out| < n ==> taken == appended || !copyOk(|out|)
      ensures how == Returns && n > 0 && out == [] && copyOk(0) ==> taken == appended && !writeopen
    {
      out := [];
      UsedIsExact();
      if nread == nwrite && writeopen {
        return out, if killed then Fails else Sleeps;
      }
      while |out| < n
        invariant Valid() && |out| <= n && taken == old(taken) + out
      {
        UsedIsExact();
        if nread == nwrite {
          return out, Returns;
        }
        ghost var before := taken;
        var ch := Get();
        if !copyOk(|out|) {
          return out, Returns;
        }
        assert old(taken) + out + [ch] == old(taken) + (out + [ch]);
        out := out + [ch];
      }
      return out, Returns;
    }

    /** pipeclose; true when both ends are closed and the page is freed. */
    method Close(writable: bool) returns (freed: bool)
      requires Valid()
      modifies this`readopen, this`writeopen
      ensures Valid()
      ensures writeopen == (if writable then false else old(writeopen))
      ensures readopen == (if writable then old(readopen) else false)
      ensures freed <==> !readopen && !writeopen
    {
      if writable {
        writeopen := false;
      } else {
        readopen := false;
      }
      freed := !readopen && !writeopen;
    }
  }

  lemma Distance(a: nat, b: nat)
    requires a <= b <= a + PIPESIZE
    ensures (b % WRAP - a % WRAP) % WRAP == b - a
    ensures b % WRAP == (a % WRAP + PIPESIZE) % WRAP <==> b == a + PIPESIZE
    ensures a % WRAP == b % WRAP <==> a == b
  {
    var q, r := a / WRAP, a % WRAP;
    if r + (b - a) < WRAP {
      assert b % WRAP == r + (b - a);
    } else {
      assert b % WRAP == r + (b - a) - WRAP;
    }
  }

  lemma NextCount(n: nat)
    ensures (n % WRAP + 1) % WRAP == (n + 1) % WRAP
  {
  }
}
