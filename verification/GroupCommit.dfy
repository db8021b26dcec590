/** Group commit: kernel/log.c under any interleaving of any number of callers.

    The log is a transition system.  Every step is what one caller does while
    it holds log.lock, one disk write of the committing caller, one disk write
    of recovery, or a crash, which may strike between any two steps.  The
    modifications a caller makes to cached blocks are part of its log_write
    step; the cache itself is the logical disk of the BufferCache module.

    `writes` records every log_write in order and `committed` how many of them
    the disk would show after a crash and recovery; neither is consulted by a
    step, except that a crash forgets the writes it lost.
 */
module GroupCommit {
  import opened Words
  import opened Counting
  import opened BufferCache
  import opened LogSpec

  datatype Write = Write(op: nat, block: nat, data: Block)

  /** An operation between begin_op and end_op, and how many blocks it added to the log. */
  datatype Op = Op(id: nat, added: nat)

  /** Where the committing caller, or the booting machine, stands.  `image` is
      the disk as the header write, or the crash, left it. */
  datatype Phase =
    | Normal
    | Logging(k: nat)
    | Installing(k: nat, image: seq<Block>)
    | Finishing
    | Booting(k: nat, image: seq<Block>)

  datatype State = State(
    lh: seq<nat>, outstanding: nat, committing: bool, phase: Phase,
    ops: seq<Op>, nextId: nat,
    cache: seq<Block>, disk: seq<Block>,
    writes: seq<Write>, committed: nat)

  /** The disk after the given writes. */
  ghost function Replay(init: seq<Block>, ws: seq<Write>): (l: seq<Block>)
    ensures |l| == |init|
  {
    if ws == [] then init
    else
      var l := Replay(init, ws[..|ws| - 1]);
      var w := ws[|ws| - 1];
      if w.block < |l| then l[w.block := w.data] else l
  }

  // ---- Steps ------------------------------------------------------------

  datatype Step =
    | Begin
    | LogWrite(i: nat, b: nat, d: Block)
    | End(i: nat)
    | WriteLog
    | WriteHead(h: Block)
    | Install
    | Erase(h: Block)
    | SkipCommit
    | Done
    | Crash
    | BootInstall
    | BootErase(h: Block)

  ghost predicate DoBegin(s: State, s': State)
  {
    && !s.committing && !s.phase.Booting?
    && |s.lh| + (s.outstanding + 1) * MAXOPBLOCKS <= LOGSIZE
    && s' == s.(outstanding := s.outstanding + 1, ops := s.ops + [Op(s.nextId, 0)], nextId := s.nextId + 1)
  }

  /** log_write panics. */
  predicate TooBig(r: Region, s: State)
  {
    |s.lh| >= LOGSIZE || |s.lh| >= r.size - 1 || s.outstanding < 1
  }

  /** The caller keeps to its budget of new blocks and the block is a home block. */
  ghost predicate MayWrite(r: Region, budget: nat, s: State, i: nat, b: nat)
  {
    && i < |s.ops| && b < |s.cache| && !InRegion(r, b)
    && (b in s.lh || s.ops[i].added < budget)
  }

  ghost predicate DoLogWrite(r: Region, budget: nat, s: State, i: nat, b: nat, d: Block, s': State)
  {
    && MayWrite(r, budget, s, i, b) && !TooBig(r, s)
    && s' == s.(cache := s.cache[b := d],
                lh := if b in s.lh then s.lh else s.lh + [b],
                ops := if b in s.lh then s.ops else s.ops[i := s.ops[i].(added := s.ops[i].added + 1)],
                writes := s.writes + [Write(s.ops[i].id, b, d)])
  }

  /** end_op panics. */
  predicate EndPanics(s: State, i: nat)
  {
    i < |s.ops| && s.committing
  }

  ghost predicate DoEnd(s: State, i: nat, s': State)
  {
    && i < |s.ops| && !s.committing && s.outstanding > 0
    && var t := s.(outstanding := s.outstanding - 1, ops := s.ops[..i] + s.ops[i + 1..]);
       s' == if t.outstanding == 0 then t.(committing := true, phase := Logging(0)) else t
  }

  ghost predicate DoWriteLog(r: Region, s: State, s': State)
  {
    && s.phase.Logging? && s.phase.k < |s.lh|
    && s.lh[s.phase.k] < |s.cache| && r.start + 1 + s.phase.k < |s.disk|
    && s' == s.(disk := s.disk[r.start + 1 + s.phase.k := s.cache[s.lh[s.phase.k]]], phase := Logging(s.phase.k + 1))
  }

  ghost predicate DoWriteHead(r: Region, s: State, h: Block, s': State)
  {
    && s.phase == Logging(|s.lh|) && |s.lh| > 0 && r.start < |s.disk|
    && Word(h, 0) == |s.lh| <= LOGSIZE && Targets(h) == s.lh
    && s' == s.(disk := s.disk[r.start := h], phase := Installing(0, s.disk[r.start := h]), committed := |s.writes|)
  }

  ghost predicate DoInstall(r: Region, s: State, s': State)
  {
    && s.phase.Installing? && s.phase.k < |s.lh|
    && s.lh[s.phase.k] < |s.disk| && r.start + 1 + s.phase.k < |s.disk|
    && s' == s.(disk := s.disk[s.lh[s.phase.k] := s.disk[r.start + 1 + s.phase.k]],
                phase := Installing(s.phase.k + 1, s.phase.image))
  }

  ghost predicate DoErase(r: Region, s: State, h: Block, s': State)
  {
    && s.phase.Installing? && s.phase.k == |s.lh| && r.start < |s.disk| && Word(h, 0) == 0
    && s' == s.(lh := [], disk := s.disk[r.start := h], phase := Finishing)
  }

  ghost predicate DoSkipCommit(s: State, s': State)
  {
    s.phase.Logging? && s.lh == [] && s' == s.(phase := Finishing)
  }

  ghost predicate DoDone(s: State, s': State)
  {
    s.phase.Finishing? && s' == s.(committing := false, phase := Normal)
  }

  /** Memory is lost; the rebooted machine has read the log header. */
  ghost predicate DoCrash(r: Region, s: State, s': State)
  {
    && r.start < |s.disk| && Word(s.disk[r.start], 0) <= LOGSIZE && s.committed <= |s.writes|
    && s' == State(Targets(s.disk[r.start]), 0, false, Booting(0, s.disk), [], s.nextId,
                   s.disk, s.disk, s.writes[..s.committed], s.committed)
  }

  ghost predicate DoBootInstall(r: Region, s: State, s': State)
  {
    && s.phase.Booting? && s.phase.k < |s.lh|
    && s.lh[s.phase.k] < |s.disk| && r.start + 1 + s.phase.k < |s.disk|
    && var d := s.disk[s.lh[s.phase.k] := s.disk[r.start + 1 + s.phase.k]];
       s' == s.(disk := d, cache := d, phase := Booting(s.phase.k + 1, s.phase.image))
  }

  ghost predicate DoBootErase(r: Region, s: State, h: Block, s': State)
  {
    && s.phase.Booting? && s.phase.k == |s.lh| && r.start < |s.disk| && Word(h, 0) == 0
    && var d := s.disk[r.start := h];
       s' == s.(lh := [], disk := d, cache := d, phase := Normal)
  }

  ghost predicate Next(r: Region, budget: nat, s: State, step: Step, s': State)
  {
    match step
    case Begin => DoBegin(s, s')
    case LogWrite(i, b, d) => DoLogWrite(r, budget, s, i, b, d, s')
    case End(i) => DoEnd(s, i, s')
    case WriteLog => DoWriteLog(r, s, s')
    case WriteHead(h) => DoWriteHead(r, s, h, s')
    case Install => DoInstall(r, s, s')
    case Erase(h) => DoErase(r, s, h, s')
    case SkipCommit => DoSkipCommit(s, s')
    case Done => DoDone(s, s')
    case Crash => DoCrash(r, s, s')
    case BootInstall => DoBootInstall(r, s, s')
    case BootErase(h) => DoBootErase(r, s, h, s')
  }

  ghost predicate Geometry(r: Region, init: seq<Block>)
  {
    0 < r.size <= LOGSIZE && r.start + r.size <= |init|
  }

  /** A disk with an empty log, and no operation yet. */
  ghost predicate Init(r: Region, init: seq<Block>, s: State)
  {
    && Geometry(r, init) && Word(init[r.start], 0) == 0
    && s == State([], 0, false, Normal, [], 0, init, init, [], 0)
  }

  ghost predicate Run(r: Region, budget: nat, init: seq<Block>, states: seq<State>, steps: seq<Step>)
  {
    && |states| == |steps| + 1 && Init(r, init, states[0])
    && forall i :: 0 <= i < |steps| ==> Next(r, budget, states[i], steps[i], states[i + 1])
  }

  // ---- The invariant ----------------------------------------------------

  /** Home blocks that are not in the log list are the same on disk and in the cache. */
  ghost predicate Tracks(r: Region, s: State)
  {
    && |s.cache| == |s.disk|
    && forall b: nat :: b < |s.disk| && !InRegion(r, b) && b !in s.lh ==> s.disk[b] == s.cache[b]
  }

  /** Every write that is not durable yet is in the log list. */
  ghost predicate Pending(s: State)
  {
    forall j :: s.committed <= j < |s.writes| ==> s.writes[j].block in s.lh
  }

  ghost predicate Logged(r: Region, s: State, k: nat)
  {
    && k <= |s.lh| && r.start + |s.lh| < |s.disk| && HomeBlocks(r, s.lh, |s.cache|)
    && forall i: nat :: i < k ==> s.disk[r.start + 1 + i] == s.cache[s.lh[i]]
  }

  ghost predicate Common(r: Region, init: seq<Block>, s: State)
  {
    && Geometry(r, init) && |s.cache| == |s.disk| == |init|
    && |s.lh| < r.size && HomeBlocks(r, s.lh, |init|)
    && s.outstanding == |s.ops| && s.committed <= |s.writes|
    && s.committing == (s.phase.Logging? || s.phase.Installing? || s.phase.Finishing?)
    && (!s.phase.Normal? ==> s.ops == [])
    && WellFormed(r, s.disk) && SameHome(r, Recovered(r, s.disk), Replay(init, s.writes[..s.committed]))
    && (!s.phase.Booting? ==> SameHome(r, s.cache, Replay(init, s.writes)))
  }

  ghost predicate PhaseInv(r: Region, s: State)
  {
    && r.start + r.size <= |s.disk| && 0 < r.size && Distinct(s.lh)
    && match s.phase
       case Normal =>
         Word(s.disk[r.start], 0) == 0 && Tracks(r, s) && Pending(s) && (s.ops == [] ==> s.lh == [])
       case Logging(k) =>
         Word(s.disk[r.start], 0) == 0 && Tracks(r, s) && Pending(s) && Logged(r, s, k)
       case Installing(k, image) =>
         && s.committed == |s.writes| && k <= |s.lh|
         && WellFormed(r, image) && Targets(image[r.start]) == s.lh
         && s.disk == Installed(r, image, s.lh, k) && SameHome(r, Recovered(r, image), s.cache)
       case Finishing =>
         s.committed == |s.writes| && s.lh == [] && Word(s.disk[r.start], 0) == 0 && SameHome(r, s.disk, s.cache)
       case Booting(k, image) =>
         && s.committed == |s.writes| && k <= |s.lh| && s.cache == s.disk
         && WellFormed(r, image) && Targets(image[r.start]) == s.lh
         && s.disk == Installed(r, image, s.lh, k)
  }

  /** Operations have their own names; a running one has nothing durable yet;
      and the durable writes contain all or nothing of every operation. */
  ghost predicate Atomic(s: State)
  {
    && (forall i :: 0 <= i < |s.ops| ==> s.ops[i].id < s.nextId)
    && (forall j :: 0 <= j < |s.writes| ==> s.writes[j].op < s.nextId)
    && (forall i, j :: 0 <= i < |s.ops| && 0 <= j < |s.writes| && s.writes[j].op == s.ops[i].id ==> s.committed <= j)
    && (forall j, k :: 0 <= j < s.committed <= k < |s.writes| ==> s.writes[j].op != s.writes[k].op)
  }

  ghost predicate Inv(r: Region, init: seq<Block>, s: State)
  {
    Common(r, init, s) && PhaseInv(r, s) && Atomic(s)
  }

  lemma InitInv(r: Region, init: seq<Block>, s: State)
    requires Init(r, init, s)
    ensures Inv(r, init, s)
  {
    EmptyRecovers(r, init);
  }

  lemma KeepsBegin(r: Region, init: seq<Block>, s: State, s': State)
    requires Inv(r, init, s) && DoBegin(s, s')
    ensures Inv(r, init, s')
  {
  }

  lemma KeepsLogWrite(r: Region, budget: nat, init: seq<Block>, s: State, i: nat, b: nat, d: Block, s': State)
    requires Inv(r, init, s) && DoLogWrite(r, budget, s, i, b, d, s')
    ensures Inv(r, init, s')
  {
    hide Recovered, Replay;
    assert s.phase.Normal?;
    LogWriteCommon(r, budget, init, s, i, b, d, s');
    hide Common;
    assert forall x :: x in s.lh ==> x in s'.lh;
  }

  lemma LogWriteCommon(r: Region, budget: nat, init: seq<Block>, s: State, i: nat, b: nat, d: Block, s': State)
    requires Inv(r, init, s) && DoLogWrite(r, budget, s, i, b, d, s')
    ensures Common(r, init, s')
  {
    hide Recovered, Atomic;
    assert s'.writes[..|s'.writes| - 1] == s.writes;
    assert s'.writes[..s'.committed] == s.writes[..s.committed];
  }

  lemma KeepsEnd(r: Region, init: seq<Block>, s: State, i: nat, s': State)
    requires Inv(r, init, s) && DoEnd(s, i, s')
    ensures Inv(r, init, s')
  {
    assert s.phase.Normal?;
  }

  lemma KeepsWriteLog(r: Region, init: seq<Block>, s: State, s': State)
    requires Inv(r, init, s) && DoWriteLog(r, s, s')
    ensures Inv(r, init, s')
  {
    var b := r.start + 1 + s.phase.k;
    assert InRegion(r, b);
    EmptyRecovers(r, s.disk);
    EmptyRecovers(r, s'.disk);
    hide Recovered, Word, Targets, Replay;
  }

  lemma KeepsWriteHead(r: Region, init: seq<Block>, s: State, h: Block, s': State)
    requires Inv(r, init, s) && DoWriteHead(r, s, h, s')
    ensures Inv(r, init, s')
  {
    assert s'.writes[..s'.committed] == s.writes;
    CommitPoint(r, s'.disk, s.cache);
  }

  lemma ImageRecovers(r: Region, image: seq<Block>, t: seq<nat>, k: nat)
    requires WellFormed(r, image) && t == Targets(image[r.start]) && k <= |t|
    ensures WellFormed(r, Installed(r, image, t, k))
    ensures SameHome(r, Recovered(r, image), Recovered(r, Installed(r, image, t, k)))
  {
    RecoveryStateKeeps(r, image, Installed(r, image, t, k));
  }

  /** Copying one more block home, from the log as it is on the disk now. */
  lemma InstallNext(r: Region, image: seq<Block>, t: seq<nat>, k: nat)
    requires WellFormed(r, image) && t == Targets(image[r.start]) && k < |t|
    ensures var d := Installed(r, image, t, k);
            d[t[k] := d[r.start + 1 + k]] == Installed(r, image, t, k + 1)
  {
    InstalledRegion(r, image, t, k);
    assert InRegion(r, r.start + 1 + k);
  }

  lemma SameHomeVia(r: Region, a: seq<Block>, b: seq<Block>, c: seq<Block>)
    requires SameHome(r, a, b) && SameHome(r, a, c)
    ensures SameHome(r, b, c)
  {
  }

  lemma KeepsInstall(r: Region, init: seq<Block>, s: State, s': State)
    requires Inv(r, init, s) && DoInstall(r, s, s')
    ensures Inv(r, init, s')
  {
    hide Installed, Recovered;
    var image, k := s.phase.image, s.phase.k;
    ImageRecovers(r, image, s.lh, k);
    InstallNext(r, image, s.lh, k);
    ImageRecovers(r, image, s.lh, k + 1);
    SameHomeVia(r, Recovered(r, s.disk), Recovered(r, image), Replay(init, s.writes[..s.committed]));
    SameHomeVia(r, Recovered(r, image), Recovered(r, s'.disk), Replay(init, s.writes[..s.committed]));
  }

  lemma KeepsErase(r: Region, init: seq<Block>, s: State, h: Block, s': State)
    requires Inv(r, init, s) && DoErase(r, s, h, s')
    ensures Inv(r, init, s')
  {
    hide Installed, Recovered;
    ErasedKeepsAll(r, s.phase.image, s.cache, s'.disk);
    assert s.writes[..s.committed] == s.writes;
  }

  lemma KeepsCrash(r: Region, init: seq<Block>, s: State, s': State)
    requires Inv(r, init, s) && DoCrash(r, s, s')
    ensures Inv(r, init, s')
  {
    assert s'.writes[..s'.committed] == s'.writes;
    HeaderDistinct(r, s);
  }

  /** The header on disk is empty or names the blocks of the list. */
  lemma HeaderDistinct(r: Region, s: State)
    requires PhaseInv(r, s) && Word(s.disk[r.start], 0) <= LOGSIZE
    ensures Distinct(Targets(s.disk[r.start]))
  {
    if s.phase.Installing? || s.phase.Booting? {
      InstalledRegion(r, s.phase.image, s.lh, s.phase.k);
    }
  }

  lemma KeepsBootInstall(r: Region, init: seq<Block>, s: State, s': State)
    requires Inv(r, init, s) && DoBootInstall(r, s, s')
    ensures Inv(r, init, s')
  {
    hide Installed, Recovered;
    var image, k := s.phase.image, s.phase.k;
    ImageRecovers(r, image, s.lh, k);
    InstallNext(r, image, s.lh, k);
    ImageRecovers(r, image, s.lh, k + 1);
    SameHomeVia(r, Recovered(r, s.disk), Recovered(r, image), Replay(init, s.writes[..s.committed]));
    SameHomeVia(r, Recovered(r, image), Recovered(r, s'.disk), Replay(init, s.writes[..s.committed]));
  }

  lemma KeepsBootErase(r: Region, init: seq<Block>, s: State, h: Block, s': State)
    requires Inv(r, init, s) && DoBootErase(r, s, h, s')
    ensures Inv(r, init, s')
  {
    hide Installed, Recovered;
    var image := s.phase.image;
    ImageRecovers(r, image, s.lh, |s.lh|);
    ErasedKeepsAll(r, image, Recovered(r, image), s'.disk);
    assert s.writes[..s.committed] == s.writes;
    SameHomeVia(r, Recovered(r, s.disk), Recovered(r, image), Replay(init, s.writes));
    SameHomeVia(r, Recovered(r, image), s'.disk, Replay(init, s.writes));
    SameHomeVia(r, Recovered(r, image), Recovered(r, s'.disk), Replay(init, s.writes));
  }

  lemma NextInv(r: Region, budget: nat, init: seq<Block>, s: State, step: Step, s': State)
    requires Inv(r, init, s) && Next(r, budget, s, step, s')
    ensures Inv(r, init, s')
  {
    match step
    case Begin => KeepsBegin(r, init, s, s');
    case LogWrite(i, b, d) => KeepsLogWrite(r, budget, init, s, i, b, d, s');
    case End(i) => KeepsEnd(r, init, s, i, s');
    case WriteLog => KeepsWriteLog(r, init, s, s');
    case WriteHead(h) => KeepsWriteHead(r, init, s, h, s');
    case Install => KeepsInstall(r, init, s, s');
    case Erase(h) => KeepsErase(r, init, s, h, s');
    case SkipCommit =>
    case Done =>
    case Crash => KeepsCrash(r, init, s, s');
    case BootInstall => KeepsBootInstall(r, init, s, s');
    case BootErase(h) => KeepsBootErase(r, init, s, h, s');
  }

  // ---- Safety over whole runs -------------------------------------------

  lemma {:induction false} RunInv(r: Region, budget: nat, init: seq<Block>, states: seq<State>, steps: seq<Step>,
                                  i: nat)
    requires Run(r, budget, init, states, steps) && i < |states|
    ensures Inv(r, init, states[i])
  {
    if i == 0 {
      InitInv(r, init, states[0]);
    } else {
      RunInv(r, budget, init, states, steps, i - 1);
      NextInv(r, budget, init, states[i - 1], steps[i - 1], states[i]);
    }
  }

  ghost predicate AllOrNone(s: State, id: nat)
  {
    || (forall j :: 0 <= j < |s.writes| && s.writes[j].op == id ==> j < s.committed)
    || (forall j :: 0 <= j < |s.writes| && s.writes[j].op == id ==> s.committed <= j)
  }

  /** Whenever the machine stops, recovery yields exactly the committed writes,
      and these contain every operation entirely or not at all. */
  lemma OperationsAreAtomic(r: Region, budget: nat, init: seq<Block>, states: seq<State>, steps: seq<Step>, i: nat)
    requires Run(r, budget, init, states, steps) && i < |states|
    ensures var s := states[i];
            && s.committed <= |s.writes| && WellFormed(r, s.disk)
            && SameHome(r, Recovered(r, s.disk), Replay(init, s.writes[..s.committed]))
            && forall id: nat :: AllOrNone(s, id)
  {
    RunInv(r, budget, init, states, steps, i);
    var s := states[i];
    forall id: nat ensures AllOrNone(s, id) {
      if j :| 0 <= j < s.committed && s.writes[j].op == id {
        assert forall k :: s.committed <= k < |s.writes| ==> s.writes[k].op != id;
      }
    }
  }

  /** A commit only runs when no operation does, so end_op's panic is unreachable. */
  lemma EndNeverPanics(r: Region, budget: nat, init: seq<Block>, states: seq<State>, steps: seq<Step>, i: nat, op: nat)
    requires Run(r, budget, init, states, steps) && i < |states|
    ensures states[i].committing ==> states[i].outstanding == 0
    ensures !EndPanics(states[i], op)
  {
    RunInv(r, budget, init, states, steps, i);
  }

  lemma CommitStep(r: Region, budget: nat, init: seq<Block>, s: State, step: Step, s': State)
    requires Inv(r, init, s) && Next(r, budget, s, step, s') && s.committing && !step.Crash?
    ensures s'.cache == s.cache && s'.ops == s.ops == [] && s'.writes == s.writes
    ensures step.Erase? || s'.lh == s.lh
  {
  }

  /** While a commit is under way nobody changes the log list, the cached
      contents or the set of operations; only the commit's own erase empties
      the list, and only a crash ends it early. */
  lemma CommitIsUndisturbed(r: Region, budget: nat, init: seq<Block>, states: seq<State>, steps: seq<Step>, i: nat)
    requires Run(r, budget, init, states, steps) && i < |steps| && states[i].committing && !steps[i].Crash?
    ensures var s, s' := states[i], states[i + 1];
            && s'.cache == s.cache && s'.ops == s.ops == [] && s'.writes == s.writes
            && (steps[i].Erase? || s'.lh == s.lh)
  {
    hide Inv, Next, Init;
    RunInv(r, budget, init, states, steps, i);
    CommitStep(r, budget, init, states[i], steps[i], states[i + 1]);
  }

  lemma DoneStep(r: Region, init: seq<Block>, s: State, s': State)
    requires Inv(r, init, s) && DoDone(s, s')
    ensures s'.committed == |s'.writes| && SameHome(r, s'.disk, Replay(init, s'.writes))
  {
    assert SameHome(r, s.disk, s.cache);
  }

  /** Once the commit is over, everything written so far is durable and home. */
  lemma CommitFinishes(r: Region, budget: nat, init: seq<Block>, states: seq<State>, steps: seq<Step>, i: nat)
    requires Run(r, budget, init, states, steps) && i < |steps| && steps[i].Done?
    ensures var s := states[i + 1]; s.committed == |s.writes| && SameHome(r, s.disk, Replay(init, s.writes))
  {
    assert DoDone(states[i], states[i + 1]) by { assert Next(r, budget, states[i], steps[i], states[i + 1]); }
    hide Inv, Next, Init, DoDone, SameHome;
    RunInv(r, budget, init, states, steps, i);
    DoneStep(r, init, states[i], states[i + 1]);
  }

  // ---- Log reservation --------------------------------------------------

  /** What the running operations may still add to the log list. */
  ghost function Slack(ops: seq<Op>): (n: int)
  {
    if ops == [] then 0 else Slack(ops[..|ops| - 1]) + (MAXOPBLOCKS - ops[|ops| - 1].added)
  }

  lemma {:induction false} SlackUpdate(ops: seq<Op>, i: nat, o: Op)
    requires i < |ops|
    ensures Slack(ops[i := o]) == Slack(ops) + ops[i].added - o.added
  {
    var n := |ops| - 1;
    if i == n {
      assert ops[i := o][..n] == ops[..n];
    } else {
      SlackUpdate(ops[..n], i, o);
      assert ops[i := o][..n] == ops[..n][i := o];
    }
  }

  lemma {:induction false} SlackRemove(ops: seq<Op>, i: nat)
    requires i < |ops|
    ensures Slack(ops[..i] + ops[i + 1..]) == Slack(ops) - (MAXOPBLOCKS - ops[i].added)
  {
    var n := |ops| - 1;
    if i == n {
      assert ops[..i] + ops[i + 1..] == ops[..n];
    } else {
      SlackRemove(ops[..n], i);
      assert (ops[..i] + ops[i + 1..])[..n - 1] == ops[..n][..i] + ops[..n][i + 1..];
    }
  }

  lemma {:induction false} SlackBounds(ops: seq<Op>, budget: nat)
    requires forall i :: 0 <= i < |ops| ==> ops[i].added <= budget
    ensures Slack(ops) <= 10 * |ops| && (budget < MAXOPBLOCKS ==> Slack(ops) >= |ops|)
  {
    if ops != [] {
      SlackBounds(ops[..|ops| - 1], budget);
    }
  }

  /** The list and the reservations of the running operations fit in the log;
      with one block to spare per operation, a lone operation leaves one more. */
  ghost predicate Reserved(budget: nat, s: State)
  {
    && (forall i :: 0 <= i < |s.ops| ==> s.ops[i].added <= budget)
    && |s.lh| + Slack(s.ops) <= LOGSIZE
    && (budget < MAXOPBLOCKS && |s.ops| <= 1 ==> |s.lh| + Slack(s.ops) < LOGSIZE)
  }

  /** The part of the invariant the reservation argument needs. */
  ghost predicate Orderly(s: State)
  {
    && s.outstanding == |s.ops| && |s.lh| < LOGSIZE
    && (!s.phase.Normal? ==> s.ops == []) && (s.phase.Normal? && s.ops == [] ==> s.lh == [])
    && s.committing == (s.phase.Logging? || s.phase.Installing? || s.phase.Finishing?)
  }

  lemma InvOrderly(r: Region, init: seq<Block>, s: State)
    requires Inv(r, init, s)
    ensures Orderly(s)
  {
  }

  lemma BeginReserved(budget: nat, s: State, s': State)
    requires Orderly(s) && Reserved(budget, s) && DoBegin(s, s')
    ensures Reserved(budget, s')
  {
    SlackBounds(s.ops, budget);
    assert s'.ops[..|s.ops|] == s.ops;
    assert Slack(s'.ops) == Slack(s.ops) + 10;
    hide Slack;
    assert s'.ops == [] || |s.ops| == 0 || |s'.ops| >= 2;
  }

  lemma LogWriteReserved(r: Region, budget: nat, s: State, i: nat, b: nat, d: Block, s': State)
    requires Orderly(s) && Reserved(budget, s) && DoLogWrite(r, budget, s, i, b, d, s')
    ensures Reserved(budget, s')
  {
    if b !in s.lh { SlackUpdate(s.ops, i, s.ops[i].(added := s.ops[i].added + 1)); }
    hide Slack;
  }

  lemma EndReserved(budget: nat, s: State, i: nat, s': State)
    requires budget <= MAXOPBLOCKS && Reserved(budget, s) && DoEnd(s, i, s')
    ensures Reserved(budget, s')
  {
    SlackRemove(s.ops, i);
    hide Slack;
  }

  lemma KeepsReserved(r: Region, budget: nat, s: State, step: Step, s': State)
    requires budget <= MAXOPBLOCKS
    requires Orderly(s) && Orderly(s') && Reserved(budget, s) && Next(r, budget, s, step, s')
    ensures Reserved(budget, s')
  {
    hide Word, Targets, Slack;
    match step
    case Begin => BeginReserved(budget, s, s');
    case LogWrite(i, b, d) => LogWriteReserved(r, budget, s, i, b, d, s');
    case End(i) => EndReserved(budget, s, i, s');
    case _ => QuietReserved(r, budget, s, step, s');
  }

  /** During a commit or a reboot no operation runs. */
  lemma QuietReserved(r: Region, budget: nat, s: State, step: Step, s': State)
    requires Orderly(s) && Orderly(s') && Reserved(budget, s) && Next(r, budget, s, step, s')
    requires !step.Begin? && !step.LogWrite? && !step.End?
    ensures Reserved(budget, s')
  {
    hide Word, Targets;
    assert s'.ops == [];
  }

  lemma {:induction false} RunReserved(r: Region, budget: nat, init: seq<Block>, states: seq<State>, steps: seq<Step>,
                                       i: nat)
    requires budget <= MAXOPBLOCKS
    requires Run(r, budget, init, states, steps) && i < |states|
    ensures Reserved(budget, states[i])
  {
    hide Inv, Next;
    RunInv(r, budget, init, states, steps, i);
    if i > 0 {
      RunReserved(r, budget, init, states, steps, i - 1);
      RunInv(r, budget, init, states, steps, i - 1);
      InvOrderly(r, init, states[i - 1]);
      InvOrderly(r, init, states[i]);
      KeepsReserved(r, budget, states[i - 1], steps[i - 1], states[i]);
    }
  }

  /** With at most MAXOPBLOCKS new blocks per operation the list never outgrows
      the log, whatever the interleaving, and names no block twice. */
  lemma Reservation(r: Region, budget: nat, init: seq<Block>, states: seq<State>, steps: seq<Step>, i: nat)
    requires budget <= MAXOPBLOCKS
    requires Run(r, budget, init, states, steps) && i < |states|
    ensures |states[i].lh| <= LOGSIZE
    ensures |states[i].lh| + Slack(states[i].ops) <= LOGSIZE
    ensures Distinct(states[i].lh)
  {
    RunInv(r, budget, init, states, steps, i);
    RunReserved(r, budget, init, states, steps, i);
  }

  lemma WriteFits(r: Region, budget: nat, s: State, i: nat, b: nat)
    requires r.size == LOGSIZE && budget < MAXOPBLOCKS
    requires Reserved(budget, s) && s.outstanding == |s.ops| && MayWrite(r, budget, s, i, b)
    ensures !TooBig(r, s)
  {
    SlackBounds(s.ops, budget);
  }

  // ---- The budget at which log_write can panic --------------------------

  function Consecutive(base: nat, k: nat): (s: seq<nat>)
    ensures |s| == k
    ensures forall b: nat :: b in s <==> base <= b < base + k
  {
    if k == 0 then [] else Consecutive(base, k - 1) + [base + k - 1]
  }

  /** Three running operations have filled the list with k blocks between them, ten at most each. */
  ghost predicate Filled(r: Region, init: seq<Block>, s: State, k: nat)
  {
    && s.phase == Normal && !s.committing && s.outstanding == |s.ops| == 3
    && |s.cache| == |init| && s.lh == Consecutive(r.start + r.size, k)
    && s.ops[0].added == (if k < 10 then k else 10)
    && s.ops[1].added == (if k < 10 then 0 else if k < 20 then k - 10 else 10)
    && s.ops[2].added == (if k < 20 then 0 else k - 20)
  }

  lemma ThreeBegin(r: Region, budget: nat, init: seq<Block>) returns (states: seq<State>, steps: seq<Step>)
    requires Geometry(r, init) && Word(init[r.start], 0) == 0
    ensures Run(r, budget, init, states, steps) && Filled(r, init, states[|steps|], 0)
  {
    var s0 := State([], 0, false, Normal, [], 0, init, init, [], 0);
    var s1 := s0.(outstanding := 1, ops := [Op(0, 0)], nextId := 1);
    var s2 := s1.(outstanding := 2, ops := [Op(0, 0), Op(1, 0)], nextId := 2);
    var s3 := s2.(outstanding := 3, ops := [Op(0, 0), Op(1, 0), Op(2, 0)], nextId := 3);
    states, steps := [s0, s1, s2, s3], [Begin, Begin, Begin];
    assert DoBegin(s0, s1) && DoBegin(s1, s2) && DoBegin(s2, s3);
  }

  lemma RunExtend(r: Region, budget: nat, init: seq<Block>, states: seq<State>, steps: seq<Step>, step: Step, s: State)
    requires Run(r, budget, init, states, steps) && Next(r, budget, states[|steps|], step, s)
    ensures Run(r, budget, init, states + [s], steps + [step])
  {
    hide Next;
  }

  lemma {:induction false} FillUp(r: Region, budget: nat, init: seq<Block>, k: nat)
    returns (states: seq<State>, steps: seq<Step>)
    requires Geometry(r, init) && Word(init[r.start], 0) == 0 && r.size == LOGSIZE
    requires |init| >= r.start + r.size + LOGSIZE && budget >= MAXOPBLOCKS && k < LOGSIZE
    ensures Run(r, budget, init, states, steps) && Filled(r, init, states[|steps|], k)
  {
    if k == 0 {
      states, steps := ThreeBegin(r, budget, init);
    } else {
      states, steps := FillUp(r, budget, init, k - 1);
      var s := states[|steps|];
      var i: nat := if k <= 10 then 0 else if k <= 20 then 1 else 2;
      var b, d: Block := r.start + r.size + k - 1, Zeroes(BSIZE);
      var s' := s.(cache := s.cache[b := d], lh := s.lh + [b],
                   ops := s.ops[i := s.ops[i].(added := s.ops[i].added + 1)],
                   writes := s.writes + [Write(s.ops[i].id, b, d)]);
      assert DoLogWrite(r, budget, s, i, b, d, s');
      RunExtend(r, budget, init, states, steps, LogWrite(i, b, d), s');
      states, steps := states + [s'], steps + [LogWrite(i, b, d)];
    }
  }

  /** Every log_write an operation may issue goes through. */
  ghost predicate PanicFree(r: Region, budget: nat, init: seq<Block>)
  {
    forall states, steps, i, b ::
      Run(r, budget, init, states, steps) && MayWrite(r, budget, states[|steps|], i, b) ==> !TooBig(r, states[|steps|])
  }

  /** On a disk made by mkfs the log region has LOGSIZE blocks, header included.
      Operations may then add one block less than MAXOPBLOCKS, and not
      MAXOPBLOCKS: three operations that use their full reservation make
      log_write panic. */
  lemma PanicFreeIff(r: Region, budget: nat, init: seq<Block>)
    requires Geometry(r, init) && Word(init[r.start], 0) == 0 && r.size == LOGSIZE
    requires |init| >= r.start + r.size + LOGSIZE
    ensures PanicFree(r, budget, init) <==> budget < MAXOPBLOCKS
  {
    hide Inv, Next;
    if budget < MAXOPBLOCKS {
      forall states, steps, i, b | Run(r, budget, init, states, steps) && MayWrite(r, budget, states[|steps|], i, b)
        ensures !TooBig(r, states[|steps|])
      {
        RunInv(r, budget, init, states, steps, |steps|);
        InvOrderly(r, init, states[|steps|]);
        RunReserved(r, budget, init, states, steps, |steps|);
        WriteFits(r, budget, states[|steps|], i, b);
      }
    } else {
      var states, steps := FillUp(r, budget, init, LOGSIZE - 1);
      var s, b := states[|steps|], r.start + r.size + LOGSIZE - 1;
      assert MayWrite(r, budget, s, 2, b) && TooBig(r, s);
    }
  }
}
