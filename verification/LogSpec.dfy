/** What the on-disk redo log of kernel/log.c means.

    A log region of `size` blocks starts at block `start`: a header block whose
    first word counts the committed blocks and whose next words name their home
    locations, followed by the committed contents in the same order.
    Everything outside the region is home.
 */
module LogSpec {
  import opened Words
  import opened BufferCache

  const MAXOPBLOCKS: nat := 10
  const LOGSIZE: nat := 3 * MAXOPBLOCKS

  datatype Region = Region(start: nat, size: nat)

  predicate InRegion(r: Region, b: nat)
  {
    r.start <= b < r.start + r.size
  }

  ghost predicate HomeBlocks(r: Region, t: seq<nat>, disksize: nat)
  {
    forall k :: 0 <= k < |t| ==> t[k] < disksize && !InRegion(r, t[k])
  }

  ghost predicate SameHome(r: Region, a: seq<Block>, b: seq<Block>)
  {
    |a| == |b| && forall k :: 0 <= k < |a| && !InRegion(r, k) ==> a[k] == b[k]
  }

  /** The home block numbers recorded in a header block. */
  ghost function Targets(h: Block): (t: seq<nat>)
    requires Word(h, 0) <= LOGSIZE
    ensures |t| == Word(h, 0)
  {
    seq(Word(h, 0), i requires 0 <= i < LOGSIZE => Word(h, 1 + i))
  }

  /** A disk whose header the recovery code may act on. */
  ghost predicate WellFormed(r: Region, d: seq<Block>)
  {
    && 0 < r.size <= LOGSIZE && r.start + r.size <= |d|
    && Word(d[r.start], 0) < r.size
    && HomeBlocks(r, Targets(d[r.start]), |d|)
  }

  ghost predicate Fits(r: Region, d: seq<Block>, t: seq<nat>)
  {
    r.start + |t| < |d| && |t| < r.size && HomeBlocks(r, t, |d|)
  }

  /** The disk after the first k blocks of the log have been copied home. */
  ghost function Installed(r: Region, d: seq<Block>, t: seq<nat>, k: nat): (e: seq<Block>)
    requires Fits(r, d, t) && k <= |t|
    ensures |e| == |d|
  {
    if k == 0 then d else Installed(r, d, t, k - 1)[t[k - 1] := d[r.start + k]]
  }

  /** The disk states after each of the first k copies. */
  ghost function InstallTrace(r: Region, d: seq<Block>, t: seq<nat>, k: nat): (s: seq<seq<Block>>)
    requires Fits(r, d, t) && k <= |t|
    ensures |s| == k
    ensures forall e :: e in s ==> InstallState(r, d, t, e)
  {
    if k == 0 then [] else InstallTrace(r, d, t, k - 1) + [Installed(r, d, t, k)]
  }

  ghost predicate InstallState(r: Region, d: seq<Block>, t: seq<nat>, e: seq<Block>)
    requires Fits(r, d, t)
  {
    exists k: nat :: k <= |t| && e == Installed(r, d, t, k)
  }

  /** What a completed recovery leaves on disk. */
  ghost function Recovered(r: Region, d: seq<Block>): (e: seq<Block>)
    requires WellFormed(r, d)
    ensures |e| == |d|
  {
    var t := Targets(d[r.start]);
    Installed(r, d, t, |t|)[r.start := SetWord(d[r.start], 0, 0)]
  }

  /** Index of the last log entry among the first k that targets block b, or -1. */
  ghost function LastEntry(t: seq<nat>, k: nat, b: nat): (i: int)
    requires k <= |t|
    ensures -1 <= i < k
    ensures i >= 0 ==> t[i] == b
    ensures forall j :: i < j < k ==> t[j] != b
  {
    if k == 0 then -1 else if t[k - 1] == b then k - 1 else LastEntry(t, k - 1, b)
  }

  lemma {:induction false} InstalledAt(r: Region, d: seq<Block>, t: seq<nat>, k: nat, b: nat)
    requires Fits(r, d, t) && k <= |t| && b < |d|
    ensures Installed(r, d, t, k)[b] ==
            if LastEntry(t, k, b) >= 0 then d[r.start + 1 + LastEntry(t, k, b)] else d[b]
  {
    if k > 0 { InstalledAt(r, d, t, k - 1, b); }
  }

  /** Installing never touches the log region itself. */
  lemma InstalledRegion(r: Region, d: seq<Block>, t: seq<nat>, k: nat)
    requires Fits(r, d, t) && k <= |t|
    ensures forall b: nat :: b < |d| && InRegion(r, b) ==> Installed(r, d, t, k)[b] == d[b]
  {
    forall b: nat | b < |d| && InRegion(r, b) ensures Installed(r, d, t, k)[b] == d[b] {
      InstalledAt(r, d, t, k, b);
    }
  }

  /** Redoing an interrupted install from the start is as good as finishing it. */
  lemma InstallRestarts(r: Region, d: seq<Block>, t: seq<nat>, k: nat)
    requires Fits(r, d, t) && k <= |t|
    ensures Installed(r, Installed(r, d, t, k), t, |t|) == Installed(r, d, t, |t|)
  {
    var e := Installed(r, d, t, k);
    InstalledRegion(r, d, t, k);
    forall b: nat | b < |d|
      ensures Installed(r, e, t, |t|)[b] == Installed(r, d, t, |t|)[b]
    {
      InstalledAt(r, e, t, |t|, b);
      InstalledAt(r, d, t, |t|, b);
      InstalledAt(r, d, t, k, b);
    }
  }

  /** Block by block: a home block recovers to its last entry in the log, if any. */
  lemma RecoveredAt(r: Region, d: seq<Block>, b: nat)
    requires WellFormed(r, d) && b < |d| && !InRegion(r, b)
    ensures var t := Targets(d[r.start]);
            Recovered(r, d)[b] == if LastEntry(t, |t|, b) >= 0 then d[r.start + 1 + LastEntry(t, |t|, b)] else d[b]
  {
    var t := Targets(d[r.start]);
    InstalledAt(r, d, t, |t|, b);
  }

  /** An empty header recovers to the home blocks as they are. */
  lemma EmptyRecovers(r: Region, d: seq<Block>)
    requires 0 < r.size <= LOGSIZE && r.start + r.size <= |d| && Word(d[r.start], 0) == 0
    ensures WellFormed(r, d) && SameHome(r, d, Recovered(r, d))
  {
    assert Targets(d[r.start]) == [];
  }

  // ---- The states of a commit -------------------------------------------

  /** A crash here loses the transaction: the header is empty and recovery yields `before`. */
  ghost predicate NoneState(r: Region, h: seq<Block>, before: seq<Block>)
  {
    WellFormed(r, h) && Word(h[r.start], 0) == 0 && SameHome(r, Recovered(r, h), before)
  }

  /** A crash here keeps the whole transaction: recovery yields `after`. */
  ghost predicate AllState(r: Region, h: seq<Block>, after: seq<Block>)
  {
    WellFormed(r, h) && SameHome(r, Recovered(r, h), after)
  }

  /** The disk passes through states that recover to `before`, then, from the
      write of the header on, through states that recover to `after`. */
  ghost predicate CommitTrace(r: Region, before: seq<Block>, after: seq<Block>, states: seq<seq<Block>>, c: nat)
  {
    && c <= |states|
    && (forall j :: 0 <= j < c ==> NoneState(r, states[j], before))
    && (forall j :: c <= j < |states| ==> AllState(r, states[j], after))
  }

  lemma BeforeHeader(r: Region, before: seq<Block>, h: seq<Block>)
    requires 0 < r.size <= LOGSIZE && r.start + r.size <= |before| == |h|
    requires h[r.start] == before[r.start] && Word(before[r.start], 0) == 0
    requires SameHome(r, before, h)
    ensures NoneState(r, h, before)
  {
    EmptyRecovers(r, h);
  }

  /** Once the header names the logged blocks, recovery yields the new contents. */
  lemma CommitPoint(r: Region, h: seq<Block>, after: seq<Block>)
    requires WellFormed(r, h) && |h| == |after|
    requires forall i: nat :: i < |Targets(h[r.start])| ==> h[r.start + 1 + i] == after[Targets(h[r.start])[i]]
    requires forall b: nat :: b < |h| && !InRegion(r, b) && b !in Targets(h[r.start]) ==> h[b] == after[b]
    ensures AllState(r, h, after)
  {
    hide Recovered, Word, Installed, HomeBlocks;
    var t := Targets(h[r.start]);
    hide Targets;
    forall b: nat | b < |h| && !InRegion(r, b)
      ensures Recovered(r, h)[b] == after[b]
    {
      RecoveredAt(r, h, b);
      if LastEntry(t, |t|, b) < 0 {
        assert b !in t;
      }
    }
  }

  lemma InstallingKeepsAll(r: Region, h: seq<Block>, after: seq<Block>, e: seq<Block>)
    requires AllState(r, h, after) && InstallState(r, h, Targets(h[r.start]), e)
    ensures AllState(r, e, after)
  {
    RecoveryStateKeeps(r, h, e);
  }

  /** Clearing the header after everything is home keeps the result. */
  lemma ErasedKeepsAll(r: Region, h: seq<Block>, after: seq<Block>, e: seq<Block>)
    requires AllState(r, h, after) && |e| == |h|
    requires Word(e[r.start], 0) == 0
    requires SameHome(r, e, Installed(r, h, Targets(h[r.start]), |Targets(h[r.start])|))
    ensures AllState(r, e, after) && SameHome(r, e, after)
  {
    EmptyRecovers(r, e);
  }

  // ---- Recovery interrupted by crashes ----------------------------------

  /** Every disk state recover_from_log passes through, from d. */
  ghost predicate RecoveryState(r: Region, d: seq<Block>, e: seq<Block>)
    requires WellFormed(r, d)
  {
    e == Recovered(r, d) || InstallState(r, d, Targets(d[r.start]), e)
  }

  /** The history grew by states of an undisturbed recovery from d. */
  ghost predicate RecoveryTrace(r: Region, d: seq<Block>, was: seq<seq<Block>>, now: seq<seq<Block>>)
    requires WellFormed(r, d)
  {
    was <= now && forall e :: e in now[|was|..] ==> RecoveryState(r, d, e)
  }

  lemma RecoveryStates(r: Region, d: seq<Block>, was: seq<seq<Block>>)
    requires WellFormed(r, d)
    ensures var t := Targets(d[r.start]);
            RecoveryTrace(r, d, was, was + InstallTrace(r, d, t, |t|) + [Recovered(r, d)])
  {
    var t := Targets(d[r.start]);
    var now := was + InstallTrace(r, d, t, |t|) + [Recovered(r, d)];
    assert now[|was|..] == InstallTrace(r, d, t, |t|) + [Recovered(r, d)];
  }

  /** A chain of reboots: each disk is where the recovery of the one before it was cut off. */
  ghost predicate CrashChain(r: Region, disks: seq<seq<Block>>)
    decreases |disks|
  {
    && disks != [] && WellFormed(r, disks[0])
    && (|disks| > 1 ==> RecoveryState(r, disks[0], disks[1]) && CrashChain(r, disks[1..]))
  }

  /** A crash inside recovery changes nothing about what recovery will reach. */
  lemma RecoveryStateKeeps(r: Region, d: seq<Block>, e: seq<Block>)
    requires WellFormed(r, d) && RecoveryState(r, d, e)
    ensures WellFormed(r, e) && SameHome(r, Recovered(r, d), Recovered(r, e))
  {
    var t := Targets(d[r.start]);
    InstalledRegion(r, d, t, |t|);
    if e == Recovered(r, d) {
      EmptyRecovers(r, e);
    } else {
      var k: nat :| k <= |t| && e == Installed(r, d, t, k);
      InstalledRegion(r, d, t, k);
      InstallRestarts(r, d, t, k);
      assert InRegion(r, r.start);
      assert Targets(e[r.start]) == t;
    }
  }

  /** Any number of crashes during recovery: the last reboot's completed
      recovery yields the home blocks the first one would have. */
  lemma {:induction false} CrashesDuringRecovery(r: Region, disks: seq<seq<Block>>)
    requires CrashChain(r, disks)
    ensures var last := disks[|disks| - 1];
            WellFormed(r, last) && SameHome(r, Recovered(r, disks[0]), Recovered(r, last))
    decreases |disks|
  {
    if |disks| > 1 {
      RecoveryStateKeeps(r, disks[0], disks[1]);
      CrashesDuringRecovery(r, disks[1..]);
    }
  }

  /** A crash at any point of a commit, followed by any number of crashes during
      recovery, leaves all of the transaction or nothing of it; all of it once
      the header has been written. */
  lemma CommitSurvivesCrashes(r: Region, before: seq<Block>, after: seq<Block>, states: seq<seq<Block>>, c: nat, j: nat,
                              disks: seq<seq<Block>>)
    requires CommitTrace(r, before, after, states, c) && j < |states|
    requires CrashChain(r, disks) && disks[0] == states[j]
    ensures var last := disks[|disks| - 1];
            && WellFormed(r, last)
            && SameHome(r, Recovered(r, last), if j < c then before else after)
            && (Word(states[j][r.start], 0) > 0 ==> j >= c)
  {
    CrashesDuringRecovery(r, disks);
  }

  /** The first k block updates applied in order; blocks outside the disk are ignored. */
  function Updated(l: seq<Block>, updates: seq<(nat, Block)>, k: nat): (r: seq<Block>)
    requires k <= |updates|
    ensures |r| == |l|
  {
    if k == 0 then l
    else
      var p := Updated(l, updates, k - 1);
      var (b, d) := updates[k - 1];
      if b < |p| then p[b := d] else p
  }

  /** The blocks that the first k updates are about. */
  ghost function UpdatedBlocks(updates: seq<(nat, Block)>, k: nat): (s: set<nat>)
    requires k <= |updates|
  {
    set j | 0 <= j < k :: updates[j].0
  }
}
