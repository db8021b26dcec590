/** Nobody waits in begin_op for nothing: from every state of every run, once the
    operations that have begun end and the commit or the recovery goes on, a
    caller of begin_op is admitted, after a bounded number of steps. */
module LogAdmission {
  import opened Words
  import opened Counting
  import opened BufferCache
  import opened LogSpec
  import opened GroupCommit

  /** begin_op's condition for going on. */
  predicate Admits(s: State)
  {
    !s.committing && !s.phase.Booting? && |s.lh| + (s.outstanding + 1) * MAXOPBLOCKS <= LOGSIZE
  }

  /** Steps that begin nothing, write nothing new and do not lose memory. */
  predicate Settling(step: Step)
  {
    !step.Begin? && !step.LogWrite? && !step.Crash?
  }

  /** How many settling steps there can be. */
  ghost function Work(s: State): (n: int)
  {
    match s.phase
    case Normal => if s.ops == [] then 0 else |s.ops| + 4 + 2 * |s.lh|
    case Logging(k) => 4 + 2 * |s.lh| - k
    case Installing(k, image) => 2 + |s.lh| - k
    case Finishing => 1
    case Booting(k, image) => 1 + |s.lh| - k
  }

  lemma WorkNotNegative(r: Region, init: seq<Block>, s: State)
    requires Inv(r, init, s)
    ensures Work(s) >= 0
  {
  }

  /** What a settling step does to the phase, the list and the operations. */
  ghost predicate Moves(s: State, s': State)
  {
    match s.phase
    case Normal => |s'.ops| == |s.ops| - 1 && s'.lh == s.lh && s'.phase == if s'.ops == [] then Logging(0) else Normal
    case Logging(k) =>
      && s'.ops == s.ops && s'.lh == s.lh
      && (s'.phase.Finishing? || (s'.phase.Logging? && s'.phase.k == k + 1) ||
          (s'.phase.Installing? && s'.phase.k == 0))
    case Installing(k, image) =>
      && s'.ops == s.ops
      && (s'.phase.Finishing? || (s'.phase.Installing? && s'.phase.k == k + 1 && s'.lh == s.lh))
    case Finishing => s'.ops == s.ops && s'.phase == Normal
    case Booting(k, image) =>
      && s'.ops == s.ops
      && (s'.phase.Normal? || (s'.phase.Booting? && s'.phase.k == k + 1 && s'.lh == s.lh))
  }

  lemma EndMoves(s: State, i: nat, s': State)
    requires DoEnd(s, i, s') && s.phase.Normal? && s.outstanding == |s.ops|
    ensures Moves(s, s')
  {
  }

  lemma CommitMoves(r: Region, budget: nat, s: State, step: Step, s': State)
    requires Next(r, budget, s, step, s') && Settling(step) && !step.End?
    ensures Moves(s, s')
  {
    hide Word, Targets;
  }

  lemma SettlingShrinks(r: Region, budget: nat, init: seq<Block>, s: State, step: Step, s': State)
    requires Inv(r, init, s) && Next(r, budget, s, step, s') && Settling(step)
    ensures Work(s') < Work(s)
  {
    InvShape(r, init, s);
    hide Inv;
    if step.End? {
      assert DoEnd(s, step.i, s');
      EndMoves(s, step.i, s');
    } else {
      CommitMoves(r, budget, s, step, s');
    }
    hide Next;
  }

  lemma InvShape(r: Region, init: seq<Block>, s: State)
    requires Inv(r, init, s)
    ensures s.outstanding == |s.ops| && (!s.phase.Normal? ==> s.ops == [])
    ensures s.phase.Logging? ==> s.phase.k <= |s.lh|
    ensures s.committing ==> !s.phase.Normal?
    ensures s.phase.Logging? || s.phase.Installing? || s.phase.Finishing? ==> s.committing
  {
  }

  /** A header block for a list of block numbers. */
  lemma {:induction false} HeaderExists(t: seq<nat>, k: nat) returns (h: Block)
    requires |t| <= LOGSIZE && k <= |t| && forall i :: 0 <= i < |t| ==> t[i] < U32
    ensures Word(h, 0) == |t| && forall i :: 0 <= i < k ==> Word(h, 1 + i) == t[i]
  {
    if k == 0 {
      h := SetWord(Zeroes(BSIZE), 0, |t|);
    } else {
      h := HeaderExists(t, k - 1);
      h := SetWord(h, k, t[k - 1]);
    }
  }

  lemma LoggingCanGoOn(r: Region, budget: nat, init: seq<Block>, s: State) returns (step: Step, s': State)
    requires Inv(r, init, s) && |init| <= U32 && s.phase.Logging?
    ensures Settling(step) && Next(r, budget, s, step, s')
  {
    var k := s.phase.k;
    if s.lh == [] {
      step, s' := SkipCommit, s.(phase := Finishing);
    } else if k < |s.lh| {
      step, s' := WriteLog, s.(disk := s.disk[r.start + 1 + k := s.cache[s.lh[k]]], phase := Logging(k + 1));
    } else {
      var h := HeaderExists(s.lh, |s.lh|);
      assert Targets(h) == s.lh;
      var d := s.disk[r.start := h];
      step, s' := WriteHead(h), s.(disk := d, phase := Installing(0, d), committed := |s.writes|);
    }
  }

  lemma InstallingCanGoOn(r: Region, budget: nat, init: seq<Block>, s: State) returns (step: Step, s': State)
    requires Inv(r, init, s) && s.phase.Installing?
    ensures Settling(step) && Next(r, budget, s, step, s')
  {
    var k := s.phase.k;
    if k < |s.lh| {
      var d := s.disk[s.lh[k] := s.disk[r.start + 1 + k]];
      step, s' := Install, s.(disk := d, phase := Installing(k + 1, s.phase.image));
    } else {
      var h := HeaderExists([], 0);
      step, s' := Erase(h), s.(lh := [], disk := s.disk[r.start := h], phase := Finishing);
    }
  }

  lemma BootCanGoOn(r: Region, budget: nat, init: seq<Block>, s: State) returns (step: Step, s': State)
    requires Inv(r, init, s) && s.phase.Booting?
    ensures Settling(step) && Next(r, budget, s, step, s')
  {
    var k := s.phase.k;
    if k < |s.lh| {
      var d := s.disk[s.lh[k] := s.disk[r.start + 1 + k]];
      step, s' := BootInstall, s.(disk := d, cache := d, phase := Booting(k + 1, s.phase.image));
    } else {
      var h := HeaderExists([], 0);
      var d := s.disk[r.start := h];
      step, s' := BootErase(h), s.(lh := [], disk := d, cache := d, phase := Normal);
    }
  }

  /** A caller that is not admitted waits for somebody who can go on: a running
      operation, the commit or the recovery. */
  lemma WaitsForSomebody(r: Region, budget: nat, init: seq<Block>, s: State) returns (step: Step, s': State)
    requires Inv(r, init, s) && |init| <= U32 && !Admits(s)
    ensures Settling(step) && Next(r, budget, s, step, s')
  {
    match s.phase
    case Logging(_) => step, s' := LoggingCanGoOn(r, budget, init, s);
    case Installing(_, _) => step, s' := InstallingCanGoOn(r, budget, init, s);
    case Finishing => step, s' := Done, s.(committing := false, phase := Normal);
    case Booting(_, _) => step, s' := BootCanGoOn(r, budget, init, s);
    case Normal =>
      var t := s.(outstanding := s.outstanding - 1, ops := s.ops[..0] + s.ops[1..]);
      step, s' := End(0), if t.outstanding == 0 then t.(committing := true, phase := Logging(0)) else t;
  }

  /** Settling steps after some point of a run are bounded by the work left there. */
  lemma {:induction false} SettlingEnds(
    r: Region, budget: nat, init: seq<Block>, states: seq<State>, steps: seq<Step>, i: nat, j: nat)
    requires Run(r, budget, init, states, steps) && i <= j < |states|
    requires forall k :: i <= k < j ==> Settling(steps[k])
    ensures j - i <= Work(states[i]) - Work(states[j]) && Work(states[j]) >= 0
    decreases j
  {
    hide Inv, Next, Work;
    RunInv(r, budget, init, states, steps, j);
    WorkNotNegative(r, init, states[j]);
    if i < j {
      SettlingEnds(r, budget, init, states, steps, i, j - 1);
      RunInv(r, budget, init, states, steps, j - 1);
      SettlingShrinks(r, budget, init, states[j - 1], steps[j - 1], states[j]);
    }
  }

  /** Every run can go on, by settling steps alone, until begin_op admits its caller. */
  lemma {:induction false} EventuallyAdmitted(r: Region, budget: nat, init: seq<Block>, states: seq<State>,
                                              steps: seq<Step>)
    returns (states': seq<State>, steps': seq<Step>)
    requires Run(r, budget, init, states, steps) && |init| <= U32
    ensures Run(r, budget, init, states', steps') && states <= states' && steps <= steps'
    ensures forall k :: |steps| <= k < |steps'| ==> Settling(steps'[k])
    ensures Admits(states'[|steps'|])
    decreases Work(states[|steps|])
  {
    hide Inv, Next, Work, Init;
    var s := states[|steps|];
    RunInv(r, budget, init, states, steps, |steps|);
    WorkNotNegative(r, init, s);
    if Admits(s) {
      states', steps' := states, steps;
    } else {
      var step, s' := WaitsForSomebody(r, budget, init, s);
      SettlingShrinks(r, budget, init, s, step, s');
      RunExtend(r, budget, init, states, steps, step, s');
      states', steps' := EventuallyAdmitted(r, budget, init, states + [s'], steps + [step]);
      assert steps'[|steps|] == step;
    }
  }
}
