/** Whose child a process is: fork, exit's reparent and wait of kernel/proc.c.

    A process is the child of the one that forked it until that one exits, and from then on the
    child of init; wait frees nobody else's children.  `Maker` is read off the steps of a run, not
    off the parent fields.
 */
module ProcessFamily {
  import opened Wrappers
  import opened Processes
  import opened ProcessSteps
  import opened ProcessWakeups

  /** A process that has been started and not yet been freed. */
  predicate Alive(q: Proc)
  {
    q.state != UNUSED && q.state != USED
  }

  /** In exit, from its call on. */
  predicate Leaving(pc: Pc)
  {
    pc.ReparentAt? || pc == ExitD || pc == ExitF || (pc.Waking? && !pc.k.ToPc?) || Gone(pc)
  }

  /** On the last way to the scheduler, or there. */
  predicate Gone(pc: Pc)
  {
    (pc.Sched? || pc.Back?) && pc.why.Exiting?
  }

  /** The slots that reparent has looked at. */
  function Scanned(pc: Pc, n: nat): (k: nat)
  {
    match pc
    case ReparentAt(i) => i
    case Waking(_, _, k) => if k.ToReparent? then k.next else if k.ToExit? then n else 0
    case _ => if pc == ExitD || pc == ExitF || Gone(pc) then n else 0
  }

  /** Among so many slots the process has no child. */
  function Quota(q: Proc, n: nat): (k: nat)
  {
    if q.state == UNUSED || q.state == USED || q.state == ZOMBIE then n else Scanned(q.pc, n)
  }

  ghost predicate Childless(s: State, p: nat, k: nat)
  {
    forall i: nat :: i < k && i < |s.procs| ==> s.procs[i].parent != Some(p)
  }

  ghost predicate KidsInv(s: State, p: nat)
    requires p < |s.procs|
  {
    Childless(s, p, Quota(s.procs[p], |s.procs|))
  }

  /** A process in fork, past the store of the parent, is the parent of what it makes. */
  ghost predicate BirthInv(s: State, p: nat)
    requires p < |s.procs|
  {
    var at := Inner(s.procs[p].pc);
    at.ForkB? ==> at.child < |s.procs| && s.procs[at.child].parent == Some(p)
  }

  ghost predicate SlotInv(s: State, i: nat)
    requires i < |s.procs|
  {
    var q := s.procs[i];
    && (q.parent.Some? ==> q.parent.value < |s.procs|)
    && (q.state == UNUSED ==> q.parent == None)
    && (if i == s.init then q.parent == None else Alive(q) ==> q.parent.Some?)
  }

  ghost predicate InitInv(s: State)
  {
    s.init < |s.procs| && Alive(s.procs[s.init]) && s.procs[s.init].state != ZOMBIE && !Leaving(s.procs[s.init].pc)
  }

  ghost predicate Family(s: State)
  {
    && InitInv(s)
    && (forall p: nat {:trigger KidsInv(s, p)} :: p < |s.procs| ==> KidsInv(s, p))
    && (forall p: nat {:trigger BirthInv(s, p)} :: p < |s.procs| ==> BirthInv(s, p))
    && (forall i: nat {:trigger SlotInv(s, i)} :: i < |s.procs| ==> SlotInv(s, i))
  }

  // ---- Steps that leave families alone ----------------------------------

  /** What a step that is none of fork, reparent and wait's freeproc does to a process. */
  predicate PlainProc(q: Proc, q': Proc, n: nat)
  {
    && q'.parent == q.parent && q'.killed == q.killed
    && (q'.state == UNUSED <==> q.state == UNUSED) && (q'.state == USED <==> q.state == USED)
    && (q'.state == ZOMBIE ==> q.state == ZOMBIE || Leaving(q.pc))
    && Quota(q', n) <= Quota(q, n) && (Inner(q'.pc).ForkB? ==> Inner(q'.pc) == Inner(q.pc))
    && (Leaving(q.pc) ==> Leaving(q'.pc))
  }

  /** How process x came to be where it is in wait. */
  predicate WaitMoves(s: State, x: nat, pc': Pc)
    requires x < |s.procs|
  {
    var pc := s.procs[x].pc;
    pc'.WaitAt? ==>
      || pc' == pc || pc' == WaitAt(0, false)
      || (pc.WaitAt? && pc.i < |s.procs| && pc' == WaitAt(pc.i + 1, pc.kids || s.procs[pc.i].parent == Some(x)))
  }

  /** What may end the sleep of process i: a wakeup on its channel that has come to it, or kill. */
  predicate Rouses(s: State, step: Step, i: nat)
    requires i < |s.procs|
  {
    match step
    case WakeStep(c, p) =>
      && p < |s.procs| && s.procs[p].pc.Waking? && s.procs[p].pc.i == i
      && s.procs[i].chan == Some(s.procs[p].pc.chan)
    case IntrWakeStep(c) =>
      && c < |s.cpus| && s.cpus[c].pc.IntrWaking? && s.cpus[c].pc.i == i
      && s.procs[i].chan == Some(s.cpus[c].pc.chan)
    case Kill(c, p, q) => q == i
    case _ => false
  }

  predicate PlainAt(s: State, step: Step, s': State, x: nat)
    requires x < |s.procs| == |s'.procs|
  {
    && WaitMoves(s, x, s'.procs[x].pc)
    && (s.procs[x].state == SLEEPING && s'.procs[x].state != SLEEPING ==>
          s'.procs[x].state == RUNNABLE && Rouses(s, step, x))
    && PlainProc(s.procs[x], s'.procs[x], |s.procs|)
    && (Leaving(s'.procs[x].pc) ==> Leaving(s.procs[x].pc) || (step.ExitCall? && step.p == x && x != s.init))
  }

  ghost predicate Plain(s: State, step: Step, s': State)
  {
    && |s'.procs| == |s.procs| && s'.init == s.init
    && forall x: nat {:trigger PlainAt(s, step, s', x)} :: x < |s.procs| ==> PlainAt(s, step, s', x)
  }

  lemma PlainKeeps(s: State, step: Step, s': State)
    requires Family(s) && Plain(s, step, s')
    ensures Family(s')
  {
    hide Quota, Leaving, Inner;
    assert PlainAt(s, step, s', s.init);
    forall p: nat | p < |s'.procs| ensures KidsInv(s', p) {
      assert KidsInv(s, p) && PlainAt(s, step, s', p);
      forall i: nat | i < Quota(s'.procs[p], |s'.procs|) && i < |s'.procs| ensures s'.procs[i].parent != Some(p) {
        assert PlainAt(s, step, s', i);
      }
    }
    forall p: nat | p < |s'.procs| ensures BirthInv(s', p) {
      assert BirthInv(s, p) && PlainAt(s, step, s', p);
      var at := Inner(s'.procs[p].pc);
      if at.ForkB? { assert PlainAt(s, step, s', at.child); }
    }
    forall i: nat | i < |s'.procs| ensures SlotInv(s', i) { assert SlotInv(s, i) && PlainAt(s, step, s', i); }
  }

  lemma PlainSame(q: Proc, n: nat)
    ensures PlainProc(q, q, n)
  {
  }

  /** Only process p has changed. */
  lemma PlainOne(s: State, step: Step, s': State, p: nat)
    requires p < |s.procs| == |s'.procs| && s'.procs == s.procs[p := s'.procs[p]] && s'.init == s.init
    requires PlainAt(s, step, s', p)
    ensures Plain(s, step, s')
  {
    hide PlainProc, Leaving;
    forall x: nat | x < |s.procs| ensures PlainAt(s, step, s', x) { PlainSame(s.procs[x], |s.procs|); }
  }

  lemma PlainLocks(s: State, step: Step, s': State)
    requires LockNext(s, step, s')
    ensures Plain(s, step, s')
  {
    assert s'.procs == s.procs && s'.init == s.init;
    hide LockNext, PlainProc, Leaving;
    forall x: nat | x < |s.procs| ensures PlainAt(s, step, s', x) { PlainSame(s.procs[x], |s.procs|); }
  }

  /** One thread has stepped, and neither fork nor exit is what it does. */
  predicate Ordinary(q: Proc, q': Proc)
  {
    && q'.parent == q.parent && q'.killed == q.killed && q.state == RUNNING
    && (q'.state == RUNNING || q'.state == SLEEPING || q'.state == RUNNABLE)
    && !Leaving(q.pc) && !Leaving(q'.pc) && (Inner(q'.pc).ForkB? ==> Inner(q'.pc) == Inner(q.pc))
  }

  lemma OrdinaryPlain(s: State, step: Step, s': State, p: nat)
    requires p < |s.procs| == |s'.procs| && s'.procs == s.procs[p := s'.procs[p]] && s'.init == s.init
    requires Ordinary(s.procs[p], s'.procs[p]) && WaitMoves(s, p, s'.procs[p].pc)
    ensures Plain(s, step, s')
  {
    assert PlainAt(s, step, s', p);
    hide PlainAt, Ordinary;
    PlainOne(s, step, s', p);
  }

  lemma SleepPlain(s: State, step: Step, s': State)
    requires SleepNext(s, step, s') && !step.Yield? && HereOk(s, step.c, step.p)
    ensures Plain(s, step, s')
  {
    var p := step.p;
    assert Executing(s.procs[p]) && ChanOk(p, s.procs[p].pc);
    hide HereOk, HoldsNone, HoldsOnly;
    assert s'.procs == s.procs[p := s'.procs[p]] && s'.init == s.init;
    assert Ordinary(s.procs[p], s'.procs[p]) && WaitMoves(s, p, s'.procs[p].pc);
    hide SleepNext, HereOk, Ordinary, WaitMoves, Plain;
    OrdinaryPlain(s, step, s', p);
  }

  lemma YieldPlain(s: State, step: Step, s': State)
    requires SleepNext(s, step, s') && step.Yield? && HereOk(s, step.c, step.p)
    ensures Plain(s, step, s')
  {
    var p := step.p;
    assert Executing(s.procs[p]) && ChanOk(p, s.procs[p].pc);
    hide HereOk, HoldsNone, HoldsOnly;
    assert s'.procs == s.procs[p := s'.procs[p]] && s'.init == s.init;
    assert Ordinary(s.procs[p], s'.procs[p]) && WaitMoves(s, p, s'.procs[p].pc);
    hide SleepNext, HereOk, Ordinary, WaitMoves, Plain;
    OrdinaryPlain(s, step, s', p);
  }

  lemma PlainSleep(s: State, step: Step, s': State)
    requires Base(s) && SleepNext(s, step, s')
    ensures Plain(s, step, s')
  {
    Here(s, step.c, step.p);
    hide Base, SleepNext, HereOk, Plain;
    if step.Yield? { YieldPlain(s, step, s'); } else { SleepPlain(s, step, s'); }
  }

  lemma WaitPlain(s: State, step: Step, s': State)
    requires WaitNext(s, step, s') && HereOk(s, step.c, step.p)
    ensures Plain(s, step, s')
  {
    var p := step.p;
    assert Executing(s.procs[p]) && ChanOk(p, s.procs[p].pc);
    hide HereOk, HoldsNone, HoldsOnly;
    assert s'.procs == s.procs[p := s'.procs[p]] && s'.init == s.init;
    assert Ordinary(s.procs[p], s'.procs[p]) && WaitMoves(s, p, s'.procs[p].pc);
    hide WaitNext, HereOk, Ordinary, WaitMoves, Plain;
    OrdinaryPlain(s, step, s', p);
  }

  lemma PlainWait(s: State, step: Step, s': State)
    requires Base(s) && WaitNext(s, step, s')
    ensures Plain(s, step, s')
  {
    Here(s, step.c, step.p);
    hide Base, WaitNext, HereOk, Plain;
    WaitPlain(s, step, s');
  }

  lemma ResumePlain(s: State, step: Step, s': State)
    requires ResumeNext(s, step, s') && HereOk(s, step.c, step.p)
    ensures Plain(s, step, s')
  {
    var p := step.p;
    assert Executing(s.procs[p]) && ChanOk(p, s.procs[p].pc);
    hide HereOk, HoldsNone, HoldsOnly;
    assert s'.procs == s.procs[p := s'.procs[p]] && s'.init == s.init;
    if step.WakeReturn? && !s.procs[p].pc.k.ToPc? {
      assert PlainAt(s, step, s', p);
      hide ResumeNext, HereOk, PlainAt, Plain;
      PlainOne(s, step, s', p);
    } else {
      assert Ordinary(s.procs[p], s'.procs[p]) && WaitMoves(s, p, s'.procs[p].pc);
      hide ResumeNext, HereOk, Ordinary, WaitMoves, Plain;
      OrdinaryPlain(s, step, s', p);
    }
  }

  lemma PlainResume(s: State, step: Step, s': State)
    requires Base(s) && ResumeNext(s, step, s')
    ensures Plain(s, step, s')
  {
    Here(s, step.c, step.p);
    hide Base, ResumeNext, HereOk, Plain;
    ResumePlain(s, step, s');
  }

  lemma ExitPlain(s: State, step: Step, s': State)
    requires ExitNext(s, step, s') && !step.ExitCall? && HereOk(s, step.c, step.p)
    ensures Plain(s, step, s')
  {
    var p := step.p;
    assert Executing(s.procs[p]) && ChanOk(p, s.procs[p].pc);
    hide HereOk, HoldsNone, HoldsOnly;
    assert s'.procs == s.procs[p := s'.procs[p]] && s'.init == s.init;
    assert PlainAt(s, step, s', p);
    hide ExitNext, HereOk, PlainAt, Plain;
    PlainOne(s, step, s', p);
  }

  lemma ExitCallPlain(s: State, step: Step, s': State)
    requires ExitNext(s, step, s') && step.ExitCall? && HereOk(s, step.c, step.p)
    ensures Plain(s, step, s')
  {
    var p := step.p;
    assert Executing(s.procs[p]) && ChanOk(p, s.procs[p].pc);
    hide HereOk, HoldsNone, HoldsOnly;
    assert s'.procs == s.procs[p := s'.procs[p]] && s'.init == s.init;
    assert PlainAt(s, step, s', p);
    hide ExitNext, HereOk, PlainAt, Plain;
    PlainOne(s, step, s', p);
  }

  lemma PlainExit(s: State, step: Step, s': State)
    requires Base(s) && ExitNext(s, step, s')
    ensures Plain(s, step, s')
  {
    Here(s, step.c, step.p);
    hide Base, ExitNext, HereOk, Plain;
    if step.ExitCall? { ExitCallPlain(s, step, s'); } else { ExitPlain(s, step, s'); }
  }

  lemma WokenPlain(q: Proc, chan: Chan, n: nat)
    ensures PlainProc(q, Woken(q, chan), n) && Woken(q, chan).pc == q.pc
    ensures q.state == SLEEPING && Woken(q, chan).state != SLEEPING ==>
              Woken(q, chan).state == RUNNABLE && q.chan == Some(chan)
  {
  }

  lemma WakingPlain(q: Proc, n: nat)
    requires q.pc.Waking?
    ensures PlainProc(q, q.(pc := Waking(q.pc.chan, q.pc.i + 1, q.pc.k)), n)
    ensures Leaving(q.pc) == Leaving(Waking(q.pc.chan, q.pc.i + 1, q.pc.k))
  {
  }

  lemma PlainWake(s: State, step: Step, s': State)
    requires WakeNext(s, step, s')
    ensures Plain(s, step, s')
  {
    hide PlainProc, Leaving, Woken;
    forall x: nat | x < |s.procs| ensures PlainAt(s, step, s', x) {
      PlainSame(s.procs[x], |s.procs|);
      if step.WakeStep? {
        WokenPlain(s.procs[x], s.procs[step.p].pc.chan, |s.procs|);
        if x == step.p { WakingPlain(s.procs[x], |s.procs|); }
      } else if step.IntrWakeStep? {
        WokenPlain(s.procs[x], s.cpus[step.c].pc.chan, |s.procs|);
      }
    }
  }

  /** Locks, CPUs, and the two sides of swtch. */
  predicate Switched(q: Proc, q': Proc)
  {
    && q'.parent == q.parent && q'.killed == q.killed
    && (q'.state == q.state || (q.state == RUNNABLE && q'.state == RUNNING))
    && (q'.pc == q.pc || (q.pc.Sched? && q'.pc == Back(q.pc.why)))
  }

  lemma SwitchShape(s: State, step: Step, s': State)
    requires SwitchNext(s, step, s')
    ensures |s'.procs| == |s.procs| && s'.init == s.init
    ensures forall x: nat :: x < |s.procs| ==> Switched(s.procs[x], s'.procs[x])
  {
  }

  lemma PlainSwitch(s: State, step: Step, s': State)
    requires SwitchNext(s, step, s')
    ensures Plain(s, step, s')
  {
    SwitchShape(s, step, s');
    hide SwitchNext, PlainProc, Leaving, Switched, Rouses;
    forall x: nat | x < |s.procs| ensures PlainAt(s, step, s', x) {
      SwitchedPlain(s.procs[x], s'.procs[x], |s.procs|);
    }
  }

  lemma SwitchedPlain(q: Proc, q': Proc, n: nat)
    requires Switched(q, q')
    ensures PlainProc(q, q', n) && Leaving(q'.pc) == Leaving(q.pc) && (q'.pc.WaitAt? ==> q'.pc == q.pc)
    ensures q.state == SLEEPING ==> q'.state == SLEEPING
  {
  }

  // ---- Steps that change families ---------------------------------------

  /** Slot i no longer belongs to p, which has looked at it; nothing else has changed. */
  ghost predicate Handed(s: State, p: nat, i: nat, s': State)
  {
    && |s'.procs| == |s.procs| && p < |s.procs| && i < |s.procs| && s'.procs[i].parent != Some(p)
    && Quota(s.procs[p], |s.procs|) == i && Quota(s'.procs[p], |s.procs|) == i + 1
    && forall x: nat :: x < |s.procs| ==>
         && (s'.procs[x].parent == s.procs[x].parent || (x == i && s'.procs[x].parent == Some(s.init)))
         && (x != p ==> s'.procs[x].state == s.procs[x].state && s'.procs[x].pc == s.procs[x].pc)
  }

  lemma ReparentShape(s: State, step: Step, s': State)
    requires FamilyNext(s, step, s') && step.ReparentStep? && HereOk(s, step.c, step.p) && InitInv(s)
    ensures step.p != s.init && s.procs[step.p].pc.ReparentAt? && Handed(s, step.p, s.procs[step.p].pc.i, s')
  {
    assert Executing(s.procs[step.p]);
    hide HereOk;
  }

  lemma ReparentKids(s: State, step: Step, s': State)
    requires Family(s) && FamilyNext(s, step, s') && step.ReparentStep? && HereOk(s, step.c, step.p)
    ensures |s'.procs| == |s.procs| && forall x: nat {:trigger KidsInv(s', x)} :: x < |s'.procs| ==> KidsInv(s', x)
  {
    ReparentShape(s, step, s');
    hide FamilyNext, HereOk, Inner, SlotInv, BirthInv;
    var n := |s.procs|;
    assert Quota(s.procs[s.init], n) == 0;
    forall x: nat | x < n && x != step.p ensures Quota(s'.procs[x], n) == Quota(s.procs[x], n) { }
    hide Quota;
    forall x: nat | x < n ensures KidsInv(s', x) { assert KidsInv(s, x); }
  }

  lemma ReparentBirths(s: State, step: Step, s': State)
    requires Family(s) && FamilyNext(s, step, s') && step.ReparentStep? && HereOk(s, step.c, step.p)
    ensures |s'.procs| == |s.procs| && forall x: nat {:trigger BirthInv(s', x)} :: x < |s'.procs| ==> BirthInv(s', x)
  {
    hide Quota, SlotInv, KidsInv;
    forall x: nat | x < |s'.procs| ensures BirthInv(s', x) { assert BirthInv(s, x); }
  }

  lemma ReparentSlots(s: State, step: Step, s': State)
    requires Family(s) && FamilyNext(s, step, s') && step.ReparentStep? && HereOk(s, step.c, step.p)
    ensures |s'.procs| == |s.procs| && InitInv(s')
    ensures forall x: nat {:trigger SlotInv(s', x)} :: x < |s'.procs| ==> SlotInv(s', x)
  {
    hide Quota, Inner, BirthInv, KidsInv;
    forall x: nat | x < |s'.procs| ensures SlotInv(s', x) { assert SlotInv(s, x); }
  }

  /** A child goes from the process that exits to init. */
  lemma KeepsReparent(s: State, step: Step, s': State)
    requires Family(s) && FamilyNext(s, step, s') && step.ReparentStep? && HereOk(s, step.c, step.p)
    ensures Family(s')
  {
    hide FamilyNext, HereOk, KidsInv, BirthInv, SlotInv;
    ReparentKids(s, step, s');
    ReparentBirths(s, step, s');
    ReparentSlots(s, step, s');
  }

  lemma ReapKids(s: State, step: Step, s': State)
    requires Base(s) && Family(s) && FamilyNext(s, step, s') && step.Reap? && HereOk(s, step.c, step.p)
    ensures |s'.procs| == |s.procs| && forall x: nat {:trigger KidsInv(s', x)} :: x < |s'.procs| ==> KidsInv(s', x)
  {
    hide Base, Inner, SlotInv, BirthInv;
    forall x: nat | x < |s'.procs| ensures KidsInv(s', x) { assert KidsInv(s, x); }
  }

  lemma ReapBirths(s: State, step: Step, s': State)
    requires Base(s) && Family(s) && FamilyNext(s, step, s') && step.Reap? && HereOk(s, step.c, step.p)
    ensures |s'.procs| == |s.procs| && forall x: nat {:trigger BirthInv(s', x)} :: x < |s'.procs| ==> BirthInv(s', x)
  {
    hide Quota, SlotInv, KidsInv;
    forall x: nat | x < |s'.procs| ensures BirthInv(s', x) { assert BirthInv(s, x) && ForkInv(s, x); }
  }

  lemma ReapSlots(s: State, step: Step, s': State)
    requires Base(s) && Family(s) && FamilyNext(s, step, s') && step.Reap? && HereOk(s, step.c, step.p)
    ensures |s'.procs| == |s.procs| && InitInv(s')
    ensures forall x: nat {:trigger SlotInv(s', x)} :: x < |s'.procs| ==> SlotInv(s', x)
  {
    hide Base, Quota, Inner, BirthInv, KidsInv;
    forall x: nat | x < |s'.procs| ensures SlotInv(s', x) { assert SlotInv(s, x); }
  }

  lemma KeepsReap(s: State, step: Step, s': State)
    requires Base(s) && Family(s) && FamilyNext(s, step, s') && step.Reap? && HereOk(s, step.c, step.p)
    ensures Family(s')
  {
    hide Base, FamilyNext, HereOk, KidsInv, BirthInv, SlotInv;
    ReapKids(s, step, s');
    ReapBirths(s, step, s');
    ReapSlots(s, step, s');
  }

  lemma AllocKids(s: State, step: Step, s': State)
    requires Family(s) && FamilyNext(s, step, s') && (step.ForkAlloc? || step.Kill?) && HereOk(s, step.c, step.p)
    ensures |s'.procs| == |s.procs| && forall x: nat {:trigger KidsInv(s', x)} :: x < |s'.procs| ==> KidsInv(s', x)
  {
    assert Executing(s.procs[step.p]);
    hide HereOk, Inner, SlotInv, BirthInv;
    forall x: nat | x < |s'.procs| ensures KidsInv(s', x) { assert KidsInv(s, x); }
  }

  lemma AllocBirths(s: State, step: Step, s': State)
    requires Family(s) && FamilyNext(s, step, s') && (step.ForkAlloc? || step.Kill?) && HereOk(s, step.c, step.p)
    ensures |s'.procs| == |s.procs| && forall x: nat {:trigger BirthInv(s', x)} :: x < |s'.procs| ==> BirthInv(s', x)
  {
    hide Quota, SlotInv, KidsInv;
    forall x: nat | x < |s'.procs| ensures BirthInv(s', x) { assert BirthInv(s, x); }
  }

  lemma AllocSlots(s: State, step: Step, s': State)
    requires Family(s) && FamilyNext(s, step, s') && (step.ForkAlloc? || step.Kill?) && HereOk(s, step.c, step.p)
    ensures |s'.procs| == |s.procs| && InitInv(s')
    ensures forall x: nat {:trigger SlotInv(s', x)} :: x < |s'.procs| ==> SlotInv(s', x)
  {
    hide Quota, Inner, BirthInv, KidsInv;
    forall x: nat | x < |s'.procs| ensures SlotInv(s', x) { assert SlotInv(s, x); }
  }

  lemma KeepsAlloc(s: State, step: Step, s': State)
    requires Family(s) && FamilyNext(s, step, s') && (step.ForkAlloc? || step.Kill?) && HereOk(s, step.c, step.p)
    ensures Family(s')
  {
    hide FamilyNext, HereOk, KidsInv, BirthInv, SlotInv;
    AllocKids(s, step, s');
    AllocBirths(s, step, s');
    AllocSlots(s, step, s');
  }

  lemma ParentKids(s: State, step: Step, s': State)
    requires Base(s) && Family(s) && FamilyNext(s, step, s') && step.ForkParent? && HereOk(s, step.c, step.p)
    ensures |s'.procs| == |s.procs| && forall x: nat {:trigger KidsInv(s', x)} :: x < |s'.procs| ==> KidsInv(s', x)
  {
    assert ForkInv(s, step.p);
    hide Base, Inner, SlotInv, BirthInv;
    forall x: nat | x < |s'.procs| ensures KidsInv(s', x) { assert KidsInv(s, x); }
  }

  lemma ParentBirths(s: State, step: Step, s': State)
    requires Base(s) && Family(s) && FamilyNext(s, step, s') && step.ForkParent? && HereOk(s, step.c, step.p)
    ensures |s'.procs| == |s.procs| && forall x: nat {:trigger BirthInv(s', x)} :: x < |s'.procs| ==> BirthInv(s', x)
  {
    hide Quota, SlotInv, KidsInv;
    forall x: nat | x < |s'.procs| ensures BirthInv(s', x) {
      assert BirthInv(s, x) && ForkApart(s, x, step.p) && ForkInv(s, step.p);
    }
  }

  lemma ParentSlots(s: State, step: Step, s': State)
    requires Base(s) && Family(s) && FamilyNext(s, step, s') && step.ForkParent? && HereOk(s, step.c, step.p)
    ensures |s'.procs| == |s.procs| && InitInv(s')
    ensures forall x: nat {:trigger SlotInv(s', x)} :: x < |s'.procs| ==> SlotInv(s', x)
  {
    assert ForkInv(s, step.p);
    hide Base, Quota, Inner, BirthInv, KidsInv;
    forall x: nat | x < |s'.procs| ensures SlotInv(s', x) { assert SlotInv(s, x); }
  }

  /** The child that fork makes gets its parent while nobody else can reach it. */
  lemma KeepsParent(s: State, step: Step, s': State)
    requires Base(s) && Family(s) && FamilyNext(s, step, s') && step.ForkParent? && HereOk(s, step.c, step.p)
    ensures Family(s')
  {
    hide Base, FamilyNext, HereOk, KidsInv, BirthInv, SlotInv;
    ParentKids(s, step, s');
    ParentBirths(s, step, s');
    ParentSlots(s, step, s');
  }

  lemma RunKids(s: State, step: Step, s': State)
    requires Base(s) && Family(s) && FamilyNext(s, step, s') && step.ForkRun? && HereOk(s, step.c, step.p)
    ensures |s'.procs| == |s.procs| && forall x: nat {:trigger KidsInv(s', x)} :: x < |s'.procs| ==> KidsInv(s', x)
  {
    assert ForkInv(s, step.p);
    assert ProcInv(s, s.procs[step.p].pc.child);
    hide Base, Inner, SlotInv, BirthInv;
    forall x: nat | x < |s'.procs| ensures KidsInv(s', x) { assert KidsInv(s, x); }
  }

  lemma RunBirths(s: State, step: Step, s': State)
    requires Base(s) && Family(s) && FamilyNext(s, step, s') && step.ForkRun? && HereOk(s, step.c, step.p)
    ensures |s'.procs| == |s.procs| && forall x: nat {:trigger BirthInv(s', x)} :: x < |s'.procs| ==> BirthInv(s', x)
  {
    hide Quota, SlotInv, KidsInv;
    forall x: nat | x < |s'.procs| ensures BirthInv(s', x) {
      assert BirthInv(s, x) && ForkInv(s, step.p) && ProcInv(s, s.procs[step.p].pc.child);
    }
  }

  lemma RunSlots(s: State, step: Step, s': State)
    requires Base(s) && Family(s) && FamilyNext(s, step, s') && step.ForkRun? && HereOk(s, step.c, step.p)
    ensures |s'.procs| == |s.procs| && InitInv(s')
    ensures forall x: nat {:trigger SlotInv(s', x)} :: x < |s'.procs| ==> SlotInv(s', x)
  {
    assert BirthInv(s, step.p) && ForkInv(s, step.p);
    assert ProcInv(s, s.procs[step.p].pc.child);
    hide Base, Quota, Inner, BirthInv, KidsInv;
    forall x: nat | x < |s'.procs| ensures SlotInv(s', x) { assert SlotInv(s, x); }
  }

  lemma KeepsRun(s: State, step: Step, s': State)
    requires Base(s) && Family(s) && FamilyNext(s, step, s') && step.ForkRun? && HereOk(s, step.c, step.p)
    ensures Family(s')
  {
    hide Base, FamilyNext, HereOk, KidsInv, BirthInv, SlotInv;
    RunKids(s, step, s');
    RunBirths(s, step, s');
    RunSlots(s, step, s');
  }

  lemma FamilyKinds(s: State, step: Step, s': State)
    requires FamilyNext(s, step, s')
    ensures At(s, step.c, step.p)
    ensures step.ReparentStep? || step.Reap? || step.ForkAlloc? || step.Kill? || step.ForkParent? || step.ForkRun?
  {
  }

  lemma FamilyKeeps(s: State, step: Step, s': State)
    requires Base(s) && Family(s) && FamilyNext(s, step, s')
    ensures Family(s')
  {
    FamilyKinds(s, step, s');
    Here(s, step.c, step.p);
    hide Base, Family, FamilyNext, HereOk;
    if step.ReparentStep? { KeepsReparent(s, step, s'); }
    else if step.Reap? { KeepsReap(s, step, s'); }
    else if step.ForkParent? { KeepsParent(s, step, s'); }
    else if step.ForkRun? { KeepsRun(s, step, s'); }
    else { KeepsAlloc(s, step, s'); }
  }

  lemma PlainNext(s: State, step: Step, s': State)
    requires Base(s) && Next(s, step, s') && !FamilyNext(s, step, s')
    ensures Plain(s, step, s')
  {
    hide Base, Plain, LockNext, SleepNext, ResumeNext, ExitNext, WaitNext, WakeNext, FamilyNext, SwitchNext;
    if LockNext(s, step, s') { PlainLocks(s, step, s'); }
    else if WakeNext(s, step, s') { PlainWake(s, step, s'); }
    else if SwitchNext(s, step, s') { PlainSwitch(s, step, s'); }
    else if SleepNext(s, step, s') { PlainSleep(s, step, s'); }
    else if ResumeNext(s, step, s') { PlainResume(s, step, s'); }
    else if ExitNext(s, step, s') { PlainExit(s, step, s'); }
    else { PlainWait(s, step, s'); }
  }

  lemma {:induction false} RunFamily(states: seq<State>, steps: seq<Step>, k: nat)
    requires IsRun(states, steps) && k < |states|
    ensures Base(states[k]) && Family(states[k])
  {
    RunInv(states, steps, k);
    if k == 0 {
      assert Init(states[0]);
    } else {
      hide Inv, Next, Family, Base;
      RunFamily(states, steps, k - 1);
      var s, step, s' := states[k - 1], steps[k - 1], states[k];
      if FamilyNext(s, step, s') {
        FamilyKeeps(s, step, s');
      } else {
        PlainNext(s, step, s');
        PlainKeeps(s, step, s');
      }
    }
  }

  // ---- Who made whom ----------------------------------------------------

  /** The end of a fork that filled slot i. */
  predicate Makes(s: State, step: Step, i: nat)
  {
    step.ForkRun? && step.p < |s.procs| && s.procs[step.p].pc == ForkB(i)
  }

  /** The last of the first k steps that ended a fork of slot i; -1 if there is none. */
  ghost function Maker(states: seq<State>, steps: seq<Step>, k: nat, i: nat): (j: int)
    requires k <= |steps| < |states|
    ensures -1 <= j < k && (j >= 0 ==> Makes(states[j], steps[j], i))
    ensures forall m :: j < m < k ==> !Makes(states[m], steps[m], i)
  {
    if k == 0 then -1 else if Makes(states[k - 1], steps[k - 1], i) then k - 1 else Maker(states, steps, k - 1, i)
  }

  /** Process q has called exit after step j and before step k. */
  ghost predicate Exited(steps: seq<Step>, q: nat, j: int, k: nat)
    requires -1 <= j && k <= |steps|
  {
    exists m :: j < m < k && steps[m].ExitCall? && steps[m].p == q
  }

  /** Slot i is a child of its maker, until that has exited; then of init, once the maker's
      reparent has come to it. */
  ghost predicate Heir(states: seq<State>, steps: seq<Step>, k: nat, i: nat)
    requires k <= |steps| < |states|
  {
    var s := states[k];
    i < |s.procs| && Alive(s.procs[i]) && i != s.init ==>
      var j := Maker(states, steps, k, i);
      && j >= 0 && steps[j].p < |s.procs|
      && var q := steps[j].p;
         || (s.procs[i].parent == Some(q) && (Exited(steps, q, j, k) ==> Leaving(s.procs[q].pc)))
         || (s.procs[i].parent == Some(s.init) && Exited(steps, q, j, k))
  }

  lemma FamilyLeaving(s: State, step: Step, s': State, x: nat)
    requires FamilyNext(s, step, s') && HereOk(s, step.c, step.p) && x < |s.procs|
    ensures |s'.procs| == |s.procs| && (Leaving(s'.procs[x].pc) ==> Leaving(s.procs[x].pc))
  {
  }

  lemma ExitLeaves(s: State, step: Step, s': State)
    requires Next(s, step, s') && step.ExitCall?
    ensures step.p < |s'.procs| && Leaving(s'.procs[step.p].pc)
  {
  }

  lemma NotBoth(s: State, step: Step, s': State)
    requires Next(s, step, s') && (step.ForkRun? || step.Reap? || step.ReparentStep?)
    ensures FamilyNext(s, step, s')
  {
  }

  lemma ForkNotLeaving(s: State, step: Step, s': State)
    requires FamilyNext(s, step, s') && step.ForkRun?
    ensures step.p < |s.procs| && !Leaving(s.procs[step.p].pc)
  {
  }

  /** A process that is in exit was there before, or has just called it. */
  lemma LeavingStep(s: State, step: Step, s': State, p: nat)
    requires Base(s) && Next(s, step, s') && |s'.procs| == |s.procs| && p < |s.procs| && Leaving(s'.procs[p].pc)
    ensures Leaving(s.procs[p].pc) || (step.ExitCall? && step.p == p)
    ensures Leaving(s.procs[p].pc) && step.ForkRun? ==> step.p != p
  {
    if step.ForkRun? {
      NotBoth(s, step, s');
      ForkNotLeaving(s, step, s');
    }
    hide Next, Leaving, PlainProc;
    if FamilyNext(s, step, s') {
      FamilyKinds(s, step, s');
      Here(s, step.c, step.p);
      hide FamilyNext, Base;
      FamilyLeaving(s, step, s', p);
    } else {
      PlainNext(s, step, s');
      hide FamilyNext, Base;
      assert PlainAt(s, step, s', p);
    }
  }

  lemma FamilyStays(s: State, step: Step, s': State)
    requires FamilyNext(s, step, s')
    ensures |s'.procs| == |s.procs| && s'.init == s.init
  {
  }

  lemma AllStay(s: State, step: Step, s': State)
    requires Base(s) && Next(s, step, s')
    ensures |s'.procs| == |s.procs| && s'.init == s.init
  {
    hide Base, Next, FamilyNext;
    if FamilyNext(s, step, s') { FamilyStays(s, step, s'); } else { PlainNext(s, step, s'); }
  }

  lemma NobodyLeaving(s: State, p: nat)
    requires Init(s) && p < |s.procs|
    ensures !Leaving(s.procs[p].pc)
  {
  }

  /** A process that is in exit has called it, and has ended no fork since. */
  lemma {:induction false} LeavingSince(states: seq<State>, steps: seq<Step>, k: nat, p: nat) returns (m: nat)
    requires IsRun(states, steps) && k <= |steps| && p < |states[k].procs| && Leaving(states[k].procs[p].pc)
    ensures m < k && steps[m].ExitCall? && steps[m].p == p
    ensures forall n :: m < n < k && steps[n].ForkRun? ==> steps[n].p != p
  {
    hide Next, Leaving, Base, Family, Init;
    if k == 0 {
      NobodyLeaving(states[0], p);
      assert false;
    } else {
      var s, step, s' := states[k - 1], steps[k - 1], states[k];
      RunFamily(states, steps, k - 1);
      AllStay(s, step, s');
      LeavingStep(s, step, s', p);
      if Leaving(s.procs[p].pc) {
        m := LeavingSince(states, steps, k - 1, p);
      } else {
        m := k - 1;
      }
    }
  }

  // ---- Heirs ------------------------------------------------------------

  /** A step that does not touch slot i, nor ends the exit of its maker. */
  lemma HeirFrame(states: seq<State>, steps: seq<Step>, k: nat, i: nat)
    requires IsRun(states, steps) && k < |steps| && Heir(states, steps, k, i) && !Makes(states[k], steps[k], i)
    requires var s, s' := states[k], states[k + 1];
             && |s'.procs| == |s.procs| && s'.init == s.init && i < |s.procs|
             && s'.procs[i].parent == s.procs[i].parent && (Alive(s'.procs[i]) ==> Alive(s.procs[i]))
             && (s.procs[i].parent.Some? && s.procs[i].parent.value < |s.procs| ==>
                   var q := s.procs[i].parent.value; Leaving(s.procs[q].pc) ==> Leaving(s'.procs[q].pc))
    ensures Heir(states, steps, k + 1, i)
  {
    var s, s' := states[k], states[k + 1];
    if Alive(s'.procs[i]) && i != s'.init {
      var j := Maker(states, steps, k, i);
      var q := steps[j].p;
      assert Maker(states, steps, k + 1, i) == j;
      if steps[k].ExitCall? { ExitLeaves(s, steps[k], s'); }
      hide Next, Leaving, Init;
      if Exited(steps, q, j, k) {
        var m :| j < m < k && steps[m].ExitCall? && steps[m].p == q;
        assert j < m < k + 1;
        assert Exited(steps, q, j, k + 1);
      } else if Exited(steps, q, j, k + 1) {
        var m :| j < m < k + 1 && steps[m].ExitCall? && steps[m].p == q;
        assert m == k;
      }
    }
  }

  /** What a step of fork, reparent, wait or kill does to slot i. */
  lemma FamilySlot(s: State, step: Step, s': State, i: nat)
    requires Base(s) && FamilyNext(s, step, s') && i < |s.procs| == |s'.procs|
    ensures || (s'.procs[i].parent == s.procs[i].parent && (Alive(s'.procs[i]) ==> Alive(s.procs[i])))
            || !Alive(s'.procs[i]) || Makes(s, step, i)
            || (step.ReparentStep? && s.procs[i].parent == Some(step.p) && s'.procs[i].parent == Some(s.init)
                && s'.procs[i].state == s.procs[i].state)
  {
    if step.ForkParent? { assert ForkInv(s, step.p); }
    hide Base;
  }

  /** An exit that has begun ends only when a zombie is freed. */
  lemma FamilyExits(s: State, step: Step, s': State, i: nat)
    requires Base(s) && FamilyNext(s, step, s') && i < |s.procs| == |s'.procs| && Leaving(s.procs[i].pc)
    ensures Leaving(s'.procs[i].pc) || (step.Reap? && s.procs[i].state == ZOMBIE)
  {
    Here(s, step.c, step.p);
    hide Base;
  }

  lemma NewHeir(states: seq<State>, steps: seq<Step>, k: nat, i: nat)
    requires IsRun(states, steps) && k < |steps| && Makes(states[k], steps[k], i)
    requires Base(states[k]) && Family(states[k])
    ensures Heir(states, steps, k + 1, i)
  {
    var s, step, s' := states[k], steps[k], states[k + 1];
    NotBoth(s, step, s');
    assert BirthInv(s, step.p);
    FamilyStays(s, step, s');
    hide Base, Family, Init;
    assert s'.procs[i].parent == Some(step.p);
    hide Next, FamilyNext, IsRun;
    assert Maker(states, steps, k + 1, i) == k;
    assert !Exited(steps, step.p, k, k + 1);
  }

  /** The maker has exited, and its reparent gives the child to init. */
  lemma HeirOfInit(states: seq<State>, steps: seq<Step>, k: nat, i: nat)
    requires IsRun(states, steps) && k < |steps| && Heir(states, steps, k, i) && steps[k].ReparentStep?
    requires var s, s' := states[k], states[k + 1];
             && i < |s.procs| == |s'.procs| && s'.init == s.init && steps[k].p != s.init && steps[k].p < |s.procs|
             && Leaving(s.procs[steps[k].p].pc) && s.procs[i].parent == Some(steps[k].p)
             && s'.procs[i].parent == Some(s.init) && s'.procs[i].state == s.procs[i].state
    ensures Heir(states, steps, k + 1, i)
  {
    hide Next, Leaving, Init;
    var s, s', p := states[k], states[k + 1], steps[k].p;
    if Alive(s.procs[i]) && i != s.init {
      var j := Maker(states, steps, k, i);
      assert steps[j].p == p;
      var m := LeavingSince(states, steps, k, p);
      assert Maker(states, steps, k + 1, i) == j;
      assert j < m < k + 1 by { assert steps[j].ForkRun?; }
      assert Exited(steps, p, j, k + 1);
    }
  }

  /** A child of a zombie there is not. */
  lemma ZombieChildless(s: State, f: nat, i: nat)
    requires Family(s) && f < |s.procs| && s.procs[f].state == ZOMBIE && i < |s.procs|
    ensures s.procs[i].parent != Some(f)
  {
    assert KidsInv(s, f);
  }

  lemma ReparentFacts(s: State, step: Step, s': State)
    requires Base(s) && Family(s) && FamilyNext(s, step, s') && step.ReparentStep?
    ensures step.p < |s.procs| && Leaving(s.procs[step.p].pc) && step.p != s.init
  {
  }

  lemma HeirNext(states: seq<State>, steps: seq<Step>, k: nat, i: nat)
    requires IsRun(states, steps) && k < |steps| && i < |states[k].procs| && Heir(states, steps, k, i)
    ensures Heir(states, steps, k + 1, i)
  {
    var s, step, s' := states[k], steps[k], states[k + 1];
    hide Init, Next;
    RunFamily(states, steps, k);
    AllStay(s, step, s');
    hide Heir, Leaving, Base, Family, FamilyNext, Makes;
    if Makes(s, step, i) {
      NewHeir(states, steps, k, i);
    } else if FamilyNext(s, step, s') {
      FamilySlot(s, step, s', i);
      if !Alive(s'.procs[i]) {
        DeadHeir(states, steps, k + 1, i);
      } else if s'.procs[i].parent == s.procs[i].parent {
        if s.procs[i].parent.Some? && s.procs[i].parent.value < |s.procs| {
          var q := s.procs[i].parent.value;
          if Leaving(s.procs[q].pc) { FamilyExits(s, step, s', q); }
          if s.procs[q].state == ZOMBIE { ZombieChildless(s, q, i); }
        }
        HeirFrame(states, steps, k, i);
      } else {
        ReparentFacts(s, step, s');
        HeirOfInit(states, steps, k, i);
      }
    } else {
      PlainNext(s, step, s');
      assert PlainAt(s, step, s', i);
      if s.procs[i].parent.Some? && s.procs[i].parent.value < |s.procs| {
        assert PlainAt(s, step, s', s.procs[i].parent.value);
      }
      HeirFrame(states, steps, k, i);
    }
  }

  lemma DeadHeir(states: seq<State>, steps: seq<Step>, k: nat, i: nat)
    requires k <= |steps| < |states| && i < |states[k].procs| && !Alive(states[k].procs[i])
    ensures Heir(states, steps, k, i)
  {
  }

  lemma {:induction false} RunHeir(states: seq<State>, steps: seq<Step>, k: nat, i: nat)
    requires IsRun(states, steps) && k <= |steps| && i < |states[k].procs|
    ensures Heir(states, steps, k, i)
  {
    hide Next, Heir;
    if k == 0 {
      FirstHeirs(states, steps, i);
    } else {
      RunFamily(states, steps, k - 1);
      hide Base, Family;
      AllStay(states[k - 1], steps[k - 1], states[k]);
      RunHeir(states, steps, k - 1, i);
      HeirNext(states, steps, k - 1, i);
    }
  }

  lemma FirstHeirs(states: seq<State>, steps: seq<Step>, i: nat)
    requires IsRun(states, steps) && i < |states[0].procs|
    ensures Heir(states, steps, 0, i)
  {
  }

  // ---- What wait has seen -----------------------------------------------

  /** A process in wait has noted a child exactly if there is one among the slots it has passed. */
  ghost predicate SeenInv(s: State, p: nat)
    requires p < |s.procs|
  {
    var pc := s.procs[p].pc;
    pc.WaitAt? ==> (pc.kids <==> exists x: nat :: x < pc.i && x < |s.procs| && s.procs[x].parent == Some(p))
  }

  lemma SeenPlain(s: State, step: Step, s': State, p: nat)
    requires Plain(s, step, s') && p < |s.procs| && SeenInv(s, p)
    ensures SeenInv(s', p)
  {
    assert PlainAt(s, step, s', p);
    forall x: nat | x < |s.procs| ensures s'.procs[x].parent == s.procs[x].parent { assert PlainAt(s, step, s', x); }
    hide PlainAt, PlainProc, Leaving, Plain;
    var pc, pc' := s.procs[p].pc, s'.procs[p].pc;
    if pc'.WaitAt? && pc'.kids {
      if pc.WaitAt? && pc.kids && pc'.i >= pc.i {
        var x: nat :| x < pc.i && x < |s.procs| && s.procs[x].parent == Some(p);
        assert s'.procs[x].parent == Some(p);
      }
    }
  }

  lemma StillWaiting(s: State, step: Step, s': State, p: nat)
    requires FamilyNext(s, step, s') && p < |s.procs| == |s'.procs| && s'.procs[p].pc.WaitAt?
    ensures s'.procs[p].pc == s.procs[p].pc && step.p != p
    ensures step.ForkParent? ==> WaitLock !in s.locks
    ensures step.ReparentStep? || step.Reap? ==> MustHold(s.procs[step.p].pc) == Some(WaitLock)
  {
  }

  /** Parents change only under wait_lock, which a process in wait has. */
  lemma WaiterAlone(s: State, step: Step, s': State, p: nat)
    requires Base(s) && FamilyNext(s, step, s') && p < |s.procs| == |s'.procs| && s'.procs[p].pc.WaitAt?
    ensures s'.procs[p].pc == s.procs[p].pc && !step.ForkParent? && !step.ReparentStep? && !step.Reap?
  {
    StillWaiting(s, step, s', p);
    FamilyKinds(s, step, s');
    assert HeldInv(s, p);
    hide Base, FamilyNext;
    if step.ReparentStep? || step.Reap? { OneHolder(s, p, step.p); }
  }

  lemma SameParents(s: State, step: Step, s': State)
    requires FamilyNext(s, step, s') && !step.ForkParent? && !step.ReparentStep? && !step.Reap?
    ensures |s'.procs| == |s.procs| && forall x: nat :: x < |s.procs| ==> s'.procs[x].parent == s.procs[x].parent
  {
  }

  lemma SeenFamily(s: State, step: Step, s': State, p: nat)
    requires Base(s) && FamilyNext(s, step, s') && p < |s.procs| && SeenInv(s, p) && |s'.procs| == |s.procs|
    ensures SeenInv(s', p)
  {
    hide Base, FamilyNext;
    if s'.procs[p].pc.WaitAt? {
      WaiterAlone(s, step, s', p);
      SameParents(s, step, s');
    }
  }

  lemma FirstSeen(s: State, p: nat)
    requires Init(s) && p < |s.procs|
    ensures SeenInv(s, p)
  {
  }

  lemma {:induction false} RunSeen(states: seq<State>, steps: seq<Step>, k: nat, p: nat)
    requires IsRun(states, steps) && k <= |steps| && p < |states[k].procs|
    ensures SeenInv(states[k], p)
  {
    if k == 0 {
      FirstSeen(states[0], p);
    } else {
      hide Init, Next, SeenInv, Family, Base, FamilyNext, Plain;
      var s, step, s' := states[k - 1], steps[k - 1], states[k];
      RunFamily(states, steps, k - 1);
      AllStay(s, step, s');
      RunSeen(states, steps, k - 1, p);
      if FamilyNext(s, step, s') {
        SeenFamily(s, step, s', p);
      } else {
        PlainNext(s, step, s');
        SeenPlain(s, step, s', p);
      }
    }
  }

  // ---- Families over whole runs -----------------------------------------

  /** From the store of the parent on, and wherever it is interrupted, a process in fork is the
      parent of the child it makes. */
  lemma ForkedIsChild(states: seq<State>, steps: seq<Step>, k: nat, p: nat, q: nat)
    requires IsRun(states, steps) && k <= |steps| && p < |states[k].procs| && Inner(states[k].procs[p].pc) == ForkB(q)
    ensures q < |states[k].procs| && states[k].procs[q].parent == Some(p) && states[k].procs[q].state == USED
  {
    RunFamily(states, steps, k);
    assert BirthInv(states[k], p) && ForkInv(states[k], p);
  }

  /** A process other than init was made by somebody's fork.  It is the child of its maker until that
      calls exit; whenever wait_lock is free after that, it is init's. */
  lemma ParentIsMaker(states: seq<State>, steps: seq<Step>, k: nat, i: nat)
    requires IsRun(states, steps) && k <= |steps| && i < |states[k].procs|
    requires Alive(states[k].procs[i]) && i != states[k].init
    ensures var j := Maker(states, steps, k, i);
            && j >= 0
            && var q, parent := steps[j].p, states[k].procs[i].parent;
               && (!Exited(steps, q, j, k) ==> parent == Some(q))
               && (Exited(steps, q, j, k) ==> parent == Some(states[k].init) || parent == Some(q))
               && (Exited(steps, q, j, k) && WaitLock !in states[k].locks ==> parent == Some(states[k].init))
  {
    RunHeir(states, steps, k, i);
    RunFamily(states, steps, k);
    var s, j := states[k], Maker(states, steps, k, i);
    var q := steps[j].p;
    assert KidsInv(s, q) && HeldInv(s, q);
    hide Base, Family, Next;
  }

  /** wait frees a child for the process that forked it and has not exited since, or, once the
      maker has exited, for init. */
  lemma ReapedByMaker(states: seq<State>, steps: seq<Step>, k: nat)
    requires IsRun(states, steps) && k < |steps| && steps[k].Reap?
    ensures var s, p := states[k], steps[k].p;
            && p < |s.procs| && s.procs[p].pc.WaitAt?
            && var j := Maker(states, steps, k, s.procs[p].pc.i);
               && j >= 0
               && if Exited(steps, steps[j].p, j, k) then p == s.init else p == steps[j].p
  {
    var s, step := states[k], steps[k];
    NotBoth(s, step, states[k + 1]);
    var i := s.procs[step.p].pc.i;
    RunHeir(states, steps, k, i);
    RunFamily(states, steps, k);
    assert SlotInv(s, i);
    hide Base, Family, Next;
  }

  /** A process ends only by its parent's wait. */
  lemma OnlyWaitEnds(states: seq<State>, steps: seq<Step>, k: nat, i: nat)
    requires IsRun(states, steps) && k < |steps| && i < |states[k].procs| == |states[k + 1].procs|
    requires Alive(states[k].procs[i]) && !Alive(states[k + 1].procs[i])
    ensures var s, step := states[k], steps[k];
            && step.Reap? && step.copied && step.p < |s.procs| && s.procs[i].parent == Some(step.p)
            && s.procs[i].state == ZOMBIE && s.procs[step.p].pc.WaitAt? && s.procs[step.p].pc.i == i
  {
    var s, step, s' := states[k], steps[k], states[k + 1];
    RunFamily(states, steps, k);
    hide Base, Family, Next, FamilyNext;
    if FamilyNext(s, step, s') {
      FamilyEnds(s, step, s', i);
    } else {
      PlainNext(s, step, s');
      PlainAlive(s, step, s', i);
    }
  }

  lemma FamilyEnds(s: State, step: Step, s': State, i: nat)
    requires FamilyNext(s, step, s') && i < |s.procs| == |s'.procs| && Alive(s.procs[i]) && !Alive(s'.procs[i])
    ensures step.Reap? && step.copied && step.p < |s.procs| && s.procs[i].parent == Some(step.p)
    ensures s.procs[i].state == ZOMBIE && s.procs[step.p].pc.WaitAt? && s.procs[step.p].pc.i == i
  {
  }

  lemma PlainAlive(s: State, step: Step, s': State, i: nat)
    requires Plain(s, step, s') && i < |s.procs|
    ensures Alive(s'.procs[i]) == Alive(s.procs[i])
  {
    assert PlainAt(s, step, s', i);
  }

  /** Parents are alive: free slots, slots that fork is filling and zombies have no children. */
  lemma ParentsLive(states: seq<State>, steps: seq<Step>, k: nat, i: nat)
    requires IsRun(states, steps) && k <= |steps| && i < |states[k].procs| && states[k].procs[i].parent.Some?
    ensures var p := states[k].procs[i].parent.value;
            p < |states[k].procs| && Alive(states[k].procs[p]) && states[k].procs[p].state != ZOMBIE
  {
    RunFamily(states, steps, k);
    var s := states[k];
    assert SlotInv(s, i);
    assert KidsInv(s, s.procs[i].parent.value);
  }

  /** wait goes to sleep only for a child that is still to become a zombie. */
  lemma WaitSleepsForSomebody(states: seq<State>, steps: seq<Step>, k: nat) returns (x: nat)
    requires IsRun(states, steps) && k < |steps| && steps[k].WaitSleep?
    ensures x < |states[k].procs| && states[k].procs[x].parent == Some(steps[k].p)
    ensures states[k].procs[x].state != ZOMBIE && states[k].procs[x].state != UNUSED
  {
    var s, p := states[k], steps[k].p;
    assert Next(s, steps[k], states[k + 1]);
    RunSeen(states, steps, k, p);
    RunFamily(states, steps, k);
    RunInv(states, steps, k);
    assert WaitInv(s, p);
    x :| x < s.procs[p].pc.i && x < |s.procs| && s.procs[x].parent == Some(p);
    assert SlotInv(s, x);
  }

  /** wait gives up only when it has no child at all, or has been killed. */
  lemma WaitGivesUp(states: seq<State>, steps: seq<Step>, k: nat)
    requires IsRun(states, steps) && k < |steps| && steps[k].WaitReturn?
    ensures var s, p := states[k], steps[k].p;
            p < |s.procs| && (s.procs[p].killed || Childless(s, p, |s.procs|))
  {
    var s, p := states[k], steps[k].p;
    assert Next(s, steps[k], states[k + 1]);
    RunSeen(states, steps, k, p);
  }

  // ---- Sleeping and being killed ----------------------------------------

  lemma SleeperFamily(s: State, step: Step, s': State, i: nat)
    requires Base(s) && FamilyNext(s, step, s') && i < |s.procs| == |s'.procs| && s.procs[i].state == SLEEPING
    ensures s'.procs[i].state == SLEEPING || (s'.procs[i].state == RUNNABLE && Rouses(s, step, i))
  {
    Here(s, step.c, step.p);
    if step.ForkRun? { assert ForkInv(s, step.p); }
    hide Base;
  }

  /** A sleeping process goes on sleeping until a wakeup on its channel reaches it or it is killed. */
  lemma SleepsUntilRoused(states: seq<State>, steps: seq<Step>, k: nat, i: nat)
    requires IsRun(states, steps) && k < |steps| && i < |states[k].procs| && states[k].procs[i].state == SLEEPING
    ensures i < |states[k + 1].procs|
    ensures || states[k + 1].procs[i].state == SLEEPING
            || (states[k + 1].procs[i].state == RUNNABLE && Rouses(states[k], steps[k], i))
  {
    var s, step, s' := states[k], steps[k], states[k + 1];
    RunFamily(states, steps, k);
    hide Base, Family, Next, FamilyNext, Rouses, PlainProc;
    AllStay(s, step, s');
    if FamilyNext(s, step, s') {
      SleeperFamily(s, step, s', i);
    } else {
      PlainNext(s, step, s');
      assert PlainAt(s, step, s', i);
    }
  }

  /** kill marks its victim and leaves it awake; nothing else marks anybody. */
  lemma KillMarks(states: seq<State>, steps: seq<Step>, k: nat, i: nat)
    requires IsRun(states, steps) && k < |steps| && i < |states[k].procs| == |states[k + 1].procs|
    ensures steps[k].Kill? && steps[k].q == i ==>
              states[k + 1].procs[i].killed && states[k + 1].procs[i].state != SLEEPING
    ensures states[k + 1].procs[i].killed && !states[k].procs[i].killed ==> steps[k].Kill? && steps[k].q == i
  {
    var s, step, s' := states[k], steps[k], states[k + 1];
    RunFamily(states, steps, k);
    if step.Kill? { KillIsFamily(s, step, s'); }
    hide Base, Family, Next, FamilyNext;
    if FamilyNext(s, step, s') {
      FamilyMarks(s, step, s', i);
    } else {
      PlainNext(s, step, s');
      assert PlainAt(s, step, s', i);
    }
  }

  lemma KillIsFamily(s: State, step: Step, s': State)
    requires Next(s, step, s') && step.Kill?
    ensures FamilyNext(s, step, s')
  {
  }

  lemma FamilyMarks(s: State, step: Step, s': State, i: nat)
    requires FamilyNext(s, step, s') && i < |s.procs| == |s'.procs|
    ensures step.Kill? && step.q == i ==> s'.procs[i].killed && s'.procs[i].state != SLEEPING
    ensures s'.procs[i].killed && !s.procs[i].killed ==> step.Kill? && step.q == i
  {
  }
}
