/**
 The on-disk redo log: what each disk write of commit() and of recovery leaves
 on disk, and what a later recovery makes of it.
 */
module LogSpec {
  import opened Blocks

  const LOGSIZE := 30

  /** The most blocks one operation is meant to write. */
  const MAXOPBLOCKS := 10

  type Disk = seq<Block>

  /** Where the log lives: header at `start`, then `size - 1` data blocks. */
  datatype Layout = Layout(start: nat, size: nat)
  {
    ghost predicate Fits(d: Disk) {
      1 <= size && size <= LOGSIZE && start + size <= |d|
    }

    /** A home block is any block outside the log. */
    predicate Home(b: nat) {
      b < start || start + size <= b
    }
  }

  /** The log header n; block[] as a list (cut off where the block ends). */
  function Header(b: Block): (lh: seq<nat>) {
    Entries(b, if Word(b, 0) < WORDS then Word(b, 0) else WORDS - 1)
  }

  function Entries(b: Block, k: nat): (lh: seq<nat>)
    requires k < WORDS
    ensures |lh| == k
  {
    if k == 0 then [] else Entries(b, k - 1) + [Word(b, k)]
  }

  /** What write_head leaves in the header block: n and the first n entries only. */
  function SetHeader(b: Block, lh: seq<nat>): (r: Block)
    requires Encodable(lh)
  {
    SetEntries(SetWord(b, 0, |lh|), lh, |lh|)
  }

  ghost predicate Encodable(lh: seq<nat>) {
    |lh| < WORDS && forall i :: 0 <= i < |lh| ==> lh[i] < 0x1_0000_0000
  }

  function SetEntries(b: Block, lh: seq<nat>, k: nat): (r: Block)
    requires k <= |lh| && Encodable(lh)
  {
    if k == 0 then b else SetWord(SetEntries(b, lh, k - 1), k, lh[k - 1])
  }

  lemma {:induction false} SetEntriesReads(b: Block, lh: seq<nat>, k: nat, j: nat)
    requires k <= |lh| && Encodable(lh) && j < WORDS
    ensures Word(SetEntries(b, lh, k), j) == if 1 <= j <= k then lh[j - 1] else Word(b, j)
  {
    if k > 0 {
      SetEntriesReads(b, lh, k - 1, j);
      SetWordReads(SetEntries(b, lh, k - 1), k, lh[k - 1], j);
    }
  }

  lemma {:induction false} EntriesRead(b: Block, lh: seq<nat>, k: nat)
    requires k <= |lh| && Encodable(lh)
    requires forall j {:trigger Word(b, j)} :: 1 <= j <= k ==> Word(b, j) == lh[j - 1]
    ensures Entries(b, k) == lh[..k]
  {
    if k > 0 {
      EntriesRead(b, lh, k - 1);
      assert lh[..k] == lh[..k - 1] + [lh[k - 1]];
    }
  }

  /** read_head gives back what write_head wrote, whatever the block held before. */
  lemma HeaderRoundTrip(b: Block, lh: seq<nat>)
    requires Encodable(lh)
    ensures Header(SetHeader(b, lh)) == lh
  {
    var c := SetWord(b, 0, |lh|);
    var r := SetHeader(b, lh);
    SetWordReads(b, 0, |lh|, 0);
    SetEntriesReads(c, lh, |lh|, 0);
    forall j | 1 <= j <= |lh| ensures Word(r, j) == lh[j - 1] {
      SetEntriesReads(c, lh, |lh|, j);
    }
    EntriesRead(r, lh, |lh|);
  }

  /** Where block b was last logged among the first k entries of lh, or -1. */
  function Pos(lh: seq<nat>, k: nat, b: nat): (p: int)
    requires k <= |lh|
    ensures -1 <= p < k && (p >= 0 ==> lh[p] == b)
  {
    if k == 0 then -1 else if lh[k - 1] == b then k - 1 else Pos(lh, k - 1, b)
  }

  lemma {:induction false} PosAbsent(lh: seq<nat>, k: nat, b: nat)
    requires k <= |lh|
    ensures Pos(lh, k, b) == -1 <==> b !in lh[..k]
  {
    if k > 0 {
      PosAbsent(lh, k - 1, b);
      assert lh[..k] == lh[..k - 1] + [lh[k - 1]];
    }
  }

  /** A logged list that install_trans can act on. */
  ghost predicate Loggable(d: Disk, l: Layout, lh: seq<nat>) {
    && l.Fits(d)
    && |lh| < l.size
    && (forall i :: 0 <= i < |lh| ==> lh[i] < |d| && l.Home(lh[i]))
    && Encodable(lh)
  }

  /** The on-disk log is well formed. */
  ghost predicate WfLog(d: Disk, l: Layout) {
    l.Fits(d) && Loggable(d, l, Header(d[l.start]))
  }

  /** Block b after install_trans has copied k of the logged blocks home. */
  function InstalledAt(d: Disk, l: Layout, lh: seq<nat>, k: nat, b: nat): (r: Block)
    requires Loggable(d, l, lh) && k <= |lh| && b < |d|
  {
    var p := Pos(lh, k, b);
    if p >= 0 then d[l.start + 1 + p] else d[b]
  }

  /** The disk after install_trans has copied k of the logged blocks home. */
  function Install(d: Disk, l: Layout, lh: seq<nat>, k: nat): (r: Disk)
    requires Loggable(d, l, lh) && k <= |lh|
    ensures |r| == |d|
  {
    seq(|d|, b requires 0 <= b < |d| => InstalledAt(d, l, lh, k, b))
  }

  /** The log itself is untouched by installing. */
  lemma InstallKeepsLog(d: Disk, l: Layout, lh: seq<nat>, k: nat, b: nat)
    requires Loggable(d, l, lh) && k <= |lh| && b < |d| && !l.Home(b)
    ensures Install(d, l, lh, k)[b] == d[b]
  {
  }

  /** One more copy of install_trans. */
  lemma InstallStep(d: Disk, l: Layout, lh: seq<nat>, k: nat)
    requires Loggable(d, l, lh) && k < |lh|
    ensures Install(d, l, lh, k + 1) == Install(d, l, lh, k)[lh[k] := Install(d, l, lh, k)[l.start + 1 + k]]
  {
    InstallKeepsLog(d, l, lh, k, l.start + 1 + k);
  }

  lemma InstallNone(d: Disk, l: Layout, lh: seq<nat>)
    requires Loggable(d, l, lh)
    ensures Install(d, l, lh, 0) == d
  {
  }

  /** Two disks agree on every home block. */
  ghost predicate SameHome(d: Disk, e: Disk, l: Layout) {
    |d| == |e| && forall b :: 0 <= b < |d| && l.Home(b) ==> d[b] == e[b]
  }

  lemma SameHomeTrans(x: Disk, y: Disk, z: Disk, l: Layout)
    requires SameHome(x, y, l) && SameHome(y, z, l)
    ensures SameHome(x, z, l)
  {
  }

  /** The disk a recovery of d finally leaves (up to the header). */
  ghost function Recovered(d: Disk, l: Layout): (r: Disk)
    requires WfLog(d, l)
    ensures |r| == |d|
  {
    var lh := Header(d[l.start]);
    Install(d, l, lh, |lh|)
  }

  /** t lists the disks that recover_from_log passes through, in order: one copy
      home at a time, then the cleared header. */
  ghost predicate RecoverTrace(d: Disk, l: Layout, t: seq<Disk>)
    requires WfLog(d, l)
  {
    var lh := Header(d[l.start]);
    && |t| == |lh| + 1
    && (forall i :: 0 <= i < |lh| ==> t[i] == Install(d, l, lh, i + 1))
    && Cleared(Recovered(d, l), l, t[|lh|])
  }

  /** e is d with an empty log header. */
  ghost predicate Cleared(d: Disk, l: Layout, e: Disk)
    requires l.Fits(d)
  {
    SameHome(d, e, l) && Header(e[l.start]) == []
  }

  /** The disk after write_log has copied k of the cached values into the log. */
  function LogCopied(d: Disk, l: Layout, vals: seq<Block>, k: nat): (r: Disk)
    requires l.Fits(d) && k <= |vals| < l.size
    ensures |r| == |d|
  {
    seq(|d|, b requires 0 <= b < |d| => if l.start < b <= l.start + k then vals[b - l.start - 1] else d[b])
  }

  /** One more copy of write_log. */
  lemma LogCopyStep(d: Disk, l: Layout, vals: seq<Block>, k: nat)
    requires l.Fits(d) && k < |vals| < l.size
    ensures LogCopied(d, l, vals, k + 1) == LogCopied(d, l, vals, k)[l.start + 1 + k := vals[k]]
  {
  }

  lemma LogCopiedNone(d: Disk, l: Layout, vals: seq<Block>)
    requires l.Fits(d) && |vals| < l.size
    ensures LogCopied(d, l, vals, 0) == d
  {
  }

  /** c is the disk at the commit point of a transaction begun on d: the log holds
      the values and the header names their home blocks. */
  ghost predicate CommitPoint(d: Disk, l: Layout, lh: seq<nat>, vals: seq<Block>, c: Disk)
    requires Loggable(d, l, lh) && |vals| == |lh|
  {
    && SameHome(d, c, l)
    && Header(c[l.start]) == lh
    && forall i :: 0 <= i < |lh| ==> c[l.start + 1 + i] == vals[i]
  }

  /** t lists the disks that commit() passes through, in order: write_log,
      write_head, install_trans, write_head. */
  ghost predicate CommitTrace(d: Disk, l: Layout, lh: seq<nat>, vals: seq<Block>, t: seq<Disk>)
    requires Loggable(d, l, lh) && |vals| == |lh|
  {
    && |t| == 2 * |lh| + 2
    && (forall i :: 0 <= i < |lh| ==> t[i] == LogCopied(d, l, vals, i + 1))
    && CommitPoint(d, l, lh, vals, t[|lh|])
    && RecoverTrace(t[|lh|], l, t[|lh| + 1..])
  }

  /** The intended effect of a transaction: each logged block gets its last value. */
  function Applied(d: Disk, lh: seq<nat>, vals: seq<Block>): (r: Disk)
    requires |lh| == |vals|
    ensures |r| == |d|
  {
    seq(|d|, b requires 0 <= b < |d| => var p := Pos(lh, |lh|, b); if p >= 0 then vals[p] else d[b])
  }

  /** What the cache shows for each logged block. */
  ghost function Values(cur: Disk, lh: seq<nat>): (v: seq<Block>)
    requires forall i :: 0 <= i < |lh| ==> lh[i] < |cur|
    ensures |v| == |lh| && forall i :: 0 <= i < |lh| ==> v[i] == cur[lh[i]]
  {
    seq(|lh|, i requires 0 <= i < |lh| => cur[lh[i]])
  }

  // ---------------------------------------------------------------- recovery

  /** Installing again from the start gives the same disk. */
  lemma ReinstallSame(d: Disk, l: Layout, lh: seq<nat>, k: nat)
    requires Loggable(d, l, lh) && k <= |lh|
    ensures Install(Install(d, l, lh, k), l, lh, |lh|) == Install(d, l, lh, |lh|)
  {
    var e := Install(d, l, lh, k);
    forall b | 0 <= b < |d| ensures InstalledAt(e, l, lh, |lh|, b) == InstalledAt(d, l, lh, |lh|, b) {
      var p := Pos(lh, |lh|, b);
      if p >= 0 {
        InstallKeepsLog(d, l, lh, k, l.start + 1 + p);
      } else {
        PosAbsent(lh, |lh|, b);
        PosAbsent(lh, k, b);
        assert forall x :: x in lh[..k] ==> x in lh[..|lh|];
      }
    }
  }

  lemma EmptyLogRecovers(d: Disk, l: Layout)
    requires l.Fits(d) && Header(d[l.start]) == []
    ensures WfLog(d, l) && Recovered(d, l) == d
  {
  }

  lemma MidInstall(d: Disk, l: Layout, lh: seq<nat>, k: nat, e: Disk)
    requires Loggable(d, l, lh) && Header(d[l.start]) == lh && k <= |lh| && e == Install(d, l, lh, k)
    ensures WfLog(e, l) && Recovered(e, l) == Recovered(d, l)
  {
    InstallKeepsLog(d, l, lh, k, l.start);
    ReinstallSame(d, l, lh, k);
  }

  /** Any disk on the way of a recovery recovers to the same home blocks. */
  lemma RecoverTraceKeepsOutcome(d: Disk, l: Layout, t: seq<Disk>, i: nat)
    requires WfLog(d, l) && RecoverTrace(d, l, t) && i < |t|
    ensures WfLog(t[i], l) && SameHome(Recovered(t[i], l), Recovered(d, l), l)
  {
    hide Header, Install;
    var lh := Header(d[l.start]);
    if i < |lh| {
      MidInstall(d, l, lh, i + 1, t[i]);
    } else {
      EmptyLogRecovers(t[i], l);
    }
  }

  /** crashes[0] is the disk at the first crash; each later one is the disk when
      the recovery started from its predecessor crashed in turn (possibly before
      its first write). */
  ghost predicate CrashChain(crashes: seq<Disk>, l: Layout) {
    && |crashes| > 0
    && WfLog(crashes[0], l)
    && (|crashes| > 1 ==> CrashAgain(crashes[0], l, crashes[1]) && CrashChain(crashes[1..], l))
  }

  ghost predicate CrashAgain(d: Disk, l: Layout, e: Disk) {
    && WfLog(d, l)
    && (e == d || exists t :: RecoverTrace(d, l, t) && e in t)
  }

  lemma CrashAgainKeepsOutcome(d: Disk, l: Layout, e: Disk)
    requires CrashAgain(d, l, e)
    ensures WfLog(e, l) && SameHome(Recovered(e, l), Recovered(d, l), l)
  {
    if e != d {
      var t :| RecoverTrace(d, l, t) && e in t;
      var i :| 0 <= i < |t| && t[i] == e;
      RecoverTraceKeepsOutcome(d, l, t, i);
    }
  }

  lemma {:induction false} CrashChainKeepsOutcome(crashes: seq<Disk>, l: Layout, last: Disk)
    requires CrashChain(crashes, l) && crashes[|crashes| - 1] == last
    ensures WfLog(last, l) && SameHome(Recovered(last, l), Recovered(crashes[0], l), l)
  {
    if |crashes| > 1 {
      CrashChainKeepsOutcome(crashes[1..], l, last);
      CrashAgainKeepsOutcome(crashes[0], l, crashes[1]);
      SameHomeTrans(Recovered(last, l), Recovered(crashes[1], l), Recovered(crashes[0], l), l);
    }
  }

  // ------------------------------------------------------------------ commit

  lemma CommitPointRecovers(d: Disk, l: Layout, lh: seq<nat>, vals: seq<Block>, c: Disk)
    requires Loggable(d, l, lh) && |vals| == |lh| && CommitPoint(d, l, lh, vals, c)
    ensures WfLog(c, l) && SameHome(Recovered(c, l), Applied(d, lh, vals), l)
  {
    forall b | 0 <= b < |d| && l.Home(b) ensures InstalledAt(c, l, lh, |lh|, b) == Applied(d, lh, vals)[b] {
      var p := Pos(lh, |lh|, b);
      assert p >= 0 ==> c[l.start + 1 + p] == vals[p];
    }
  }

  lemma LogCopiedRecovers(d: Disk, l: Layout, vals: seq<Block>, k: nat)
    requires l.Fits(d) && k <= |vals| < l.size && Header(d[l.start]) == []
    ensures var e := LogCopied(d, l, vals, k); WfLog(e, l) && SameHome(Recovered(e, l), d, l)
  {
    EmptyLogRecovers(LogCopied(d, l, vals, k), l);
  }

  /** Up to and including the last log-block write, a crash undoes the transaction;
      from the header write on, a crash completes it. */
  lemma CommitAtomic(d: Disk, l: Layout, lh: seq<nat>, vals: seq<Block>, t: seq<Disk>, i: nat)
    requires Loggable(d, l, lh) && |vals| == |lh| && Header(d[l.start]) == []
    requires CommitTrace(d, l, lh, vals, t) && i < |t|
    ensures WfLog(t[i], l)
    ensures SameHome(Recovered(t[i], l), if i < |lh| then d else Applied(d, lh, vals), l)
  {
    if i < |lh| {
      LogCopiedRecovers(d, l, vals, i + 1);
    } else {
      var c := t[|lh|];
      CommitPointRecovers(d, l, lh, vals, c);
      if i > |lh| {
        var t' := t[|lh| + 1..];
        RecoverTraceKeepsOutcome(c, l, t', i - |lh| - 1);
        SameHomeTrans(Recovered(t[i], l), Recovered(c, l), Applied(d, lh, vals), l);
      }
    }
  }

  /** What recovery makes of a crash after i disk writes of a commit. */
  lemma CommitCrash(d: Disk, l: Layout, lh: seq<nat>, vals: seq<Block>, t: seq<Disk>, i: nat, e: Disk)
    requires Loggable(d, l, lh) && |vals| == |lh| && Header(d[l.start]) == []
    requires CommitTrace(d, l, lh, vals, t) && i <= |t| && e == (if i == 0 then d else t[i - 1])
    ensures WfLog(e, l) && SameHome(Recovered(e, l), if i <= |lh| then d else Applied(d, lh, vals), l)
  {
    hide Header, Install, RecoverTrace;
    if i > 0 {
      CommitAtomic(d, l, lh, vals, t, i - 1);
    } else {
      EmptyLogRecovers(d, l);
    }
  }

  /** All or nothing over every crash point of a commit and every chain of further
      crashes during recovery: the completed recovery empties the log and leaves
      either none or all of the transaction. */
  lemma TransactionAtomic(d: Disk, l: Layout, lh: seq<nat>, vals: seq<Block>, t: seq<Disk>, i: nat,
                          crashes: seq<Disk>, last: Disk, t': seq<Disk>)
    requires Loggable(d, l, lh) && |vals| == |lh| && Header(d[l.start]) == []
    requires CommitTrace(d, l, lh, vals, t) && i <= |t|
    requires CrashChain(crashes, l) && crashes[0] == (if i == 0 then d else t[i - 1]) && crashes[|crashes| - 1] == last
    requires WfLog(last, l) && RecoverTrace(last, l, t')
    ensures Header(t'[|t'| - 1][l.start]) == []
    ensures SameHome(t'[|t'| - 1], if i <= |lh| then d else Applied(d, lh, vals), l)
  {
    hide Header, Install, CommitTrace;
    var outcome := if i <= |lh| then d else Applied(d, lh, vals);
    var first := crashes[0];
    CommitCrash(d, l, lh, vals, t, i, first);
    CrashChainKeepsOutcome(crashes, l, last);
    SameHomeTrans(Recovered(last, l), Recovered(first, l), outcome, l);
    SameHomeTrans(t'[|t'| - 1], Recovered(last, l), outcome, l);
  }

  // ----------------------------------------------- commit seen from the cache

  /** The cache differs from disk d on logged blocks only. */
  ghost predicate Unlogged(l: Layout, cur: Disk, lh: seq<nat>, d: Disk) {
    |cur| == |d| && forall b :: 0 <= b < |cur| && l.Home(b) && Pos(lh, |lh|, b) < 0 ==> cur[b] == d[b]
  }

  lemma AppliedIsCurrent(l: Layout, d: Disk, lh: seq<nat>, cur: Disk)
    requires Loggable(d, l, lh) && Unlogged(l, cur, lh, d)
    ensures SameHome(Applied(d, lh, Values(cur, lh)), cur, l)
  {
  }

  /** When a commit is over the disk holds what the cache showed, and the log is empty. */
  lemma CommitOver(l: Layout, d: Disk, lh: seq<nat>, cur: Disk, t: seq<Disk>)
    requires Loggable(d, l, lh) && Unlogged(l, cur, lh, d)
    requires CommitTrace(d, l, lh, Values(cur, lh), t)
    ensures l.Fits(cur) && Cleared(cur, l, t[|t| - 1])
  {
    var n := |lh|;
    CommitPointRecovers(d, l, lh, Values(cur, lh), t[n]);
    AppliedIsCurrent(l, d, lh, cur);
    hide Header, Install;
    SameHomeTrans(Recovered(t[n], l), Applied(d, lh, Values(cur, lh)), cur, l);
    assert t[|t| - 1] == t[n + 1..][n];
    assert Cleared(Recovered(t[n], l), l, t[|t| - 1]);
  }
}
