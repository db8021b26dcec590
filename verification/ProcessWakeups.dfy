/** No wakeup is lost, no zombie's parent sleeps on, and no process is freed
    while a CPU is still on its kernel stack: the safety of kernel/proc.c over
    all runs. */
module ProcessWakeups {
  import opened Processes
  import opened ProcessSteps
  import opened Wrappers

  // ---- Wakeups ----------------------------------------------------------

  /** Nobody has fallen asleep. */
  ghost predicate NoNewSleeper(s: State, s': State)
  {
    && |s'.procs| == |s.procs|
    && forall q: nat, chan {:trigger Asleep(s'.procs[q], chan)} ::
         q < |s.procs| && Asleep(s'.procs[q], chan) ==> Asleep(s.procs[q], chan)
  }

  /** A wakeup in progress has not moved, and holds no lock that it did not hold. */
  ghost predicate WakerOk(s: State, s': State, p: nat)
    requires p < |s.procs| == |s'.procs|
  {
    var q, o := s'.procs[p], s.procs[p];
    q.pc.Waking? && q.pc.i > 0 ==>
      && q.pc == o.pc && q.at == o.at
      && (q.at.Some? && Guard(q.pc.chan) in s'.locks && s'.locks[Guard(q.pc.chan)] == q.at.value ==>
            Guard(q.pc.chan) in s.locks && s.locks[Guard(q.pc.chan)] == q.at.value)
  }

  ghost predicate IntrWakerOk(s: State, s': State, c: nat)
    requires c < |s.cpus| == |s'.cpus|
  {
    var d, o := s'.cpus[c], s.cpus[c];
    d.pc.IntrWaking? && d.pc.i > 0 ==>
      && d.pc == o.pc
      && (Guard(d.pc.chan) in s'.locks && s'.locks[Guard(d.pc.chan)] == c ==>
            Guard(d.pc.chan) in s.locks && s.locks[Guard(d.pc.chan)] == c)
  }

  ghost predicate WakersOk(s: State, s': State)
  {
    && |s'.procs| == |s.procs| && |s'.cpus| == |s.cpus|
    && (forall p: nat {:trigger WakerOk(s, s', p)} :: p < |s.procs| ==> WakerOk(s, s', p))
    && (forall c: nat {:trigger IntrWakerOk(s, s', c)} :: c < |s.cpus| ==> IntrWakerOk(s, s', c))
  }

  lemma WakesFrame(s: State, s': State)
    requires Wakes(s) && NoNewSleeper(s, s') && WakersOk(s, s')
    ensures Wakes(s')
  {
    forall p: nat | p < |s'.procs| ensures WakeInv(s', p) { assert WakeInv(s, p) && WakerOk(s, s', p); }
    forall c: nat | c < |s'.cpus| ensures IntrWakeInv(s', c) { assert IntrWakeInv(s, c) && IntrWakerOk(s, s', c); }
  }

  /** When the thread of p on c steps, wakeups elsewhere go on undisturbed. */
  lemma ThreadWakers(s: State, c: nat, p: nat, s': State)
    requires Base(s) && OwnOk(s, c, p, s')
    ensures forall x: nat {:trigger WakerOk(s, s', x)} :: x < |s.procs| && x != p ==> WakerOk(s, s', x)
    ensures forall x: nat {:trigger IntrWakerOk(s, s', x)} :: x < |s.cpus| ==> IntrWakerOk(s, s', x)
  {
    forall x: nat | x < |s.procs| && x != p ensures WakerOk(s, s', x) { assert ProcInv(s, x); }
    forall x: nat | x < |s.cpus| ensures IntrWakerOk(s, s', x) { }
  }

  /** A step of one thread that neither falls asleep nor moves on in wakeup. */
  lemma ThreadWakes(s: State, c: nat, p: nat, s': State)
    requires Base(s) && Wakes(s) && OwnOk(s, c, p, s')
    requires forall chan {:trigger Asleep(s'.procs[p], chan)} :: Asleep(s'.procs[p], chan) ==> Asleep(s.procs[p], chan)
    requires WakerOk(s, s', p)
    ensures Wakes(s')
  {
    ThreadWakers(s, c, p, s');
    WakesFrame(s, s');
  }

  lemma WakesSleep(s: State, step: Step, s': State)
    requires Base(s) && Wakes(s) && SleepNext(s, step, s') && !step.SleepUnlock?
    ensures Wakes(s')
  {
    SleepOwn(s, step, s');
    hide Base, Wakes, OwnOk;
    Here(s, step.c, step.p);
    ThreadWakes(s, step.c, step.p, s');
  }

  /** Whoever falls asleep on chan releases its lock: no wakeup that holds it is under way. */
  lemma WakesUnlock(s: State, step: Step, s': State)
    requires Base(s) && Wakes(s) && SleepNext(s, step, s') && step.SleepUnlock?
    ensures Wakes(s')
  {
    SleepOwn(s, step, s');
    var c, p := step.c, step.p;
    var chan := s.procs[p].pc.chan;
    ThreadWakers(s, c, p, s');
    forall x: nat | x < |s'.procs| ensures WakeInv(s', x) { assert WakeInv(s, x) && (x != p ==> WakerOk(s, s', x)); }
    forall x: nat | x < |s'.cpus| ensures IntrWakeInv(s', x) { assert IntrWakeInv(s, x) && IntrWakerOk(s, s', x); }
  }

  lemma WakesResume(s: State, step: Step, s': State)
    requires Base(s) && Wakes(s) && ResumeNext(s, step, s')
    ensures Wakes(s')
  {
    ResumeOwn(s, step, s');
    hide Base, Wakes, OwnOk;
    Here(s, step.c, step.p);
    ThreadWakes(s, step.c, step.p, s');
  }

  lemma WakesExit(s: State, step: Step, s': State)
    requires Base(s) && Wakes(s) && ExitNext(s, step, s')
    ensures Wakes(s')
  {
    ExitOwn(s, step, s');
    hide Base, Wakes, OwnOk;
    Here(s, step.c, step.p);
    ThreadWakes(s, step.c, step.p, s');
  }

  lemma WakesWait(s: State, step: Step, s': State)
    requires Base(s) && Wakes(s) && WaitNext(s, step, s')
    ensures Wakes(s')
  {
    WaitOwn(s, step, s');
    hide Base, Wakes, OwnOk;
    Here(s, step.c, step.p);
    ThreadWakes(s, step.c, step.p, s');
  }

  lemma WakesLocks(s: State, step: Step, s': State)
    requires Base(s) && Wakes(s) && LockNext(s, step, s')
    ensures Wakes(s')
  {
    forall x: nat | x < |s.procs| ensures WakerOk(s, s', x) { assert ProcInv(s, x); }
    forall x: nat | x < |s.cpus| ensures IntrWakerOk(s, s', x) { }
    WakesFrame(s, s');
  }

  /** A process whose lock is free is not between the two halves of sleep. */
  lemma NotBetween(s: State, q: nat, chan: Chan)
    requires Base(s) && q < |s.procs| && s.procs[q].lock == None
    ensures !Asleep(Woken(s.procs[q], chan), chan)
  {
    assert ProcInv(s, q);
  }

  lemma WakesWake(s: State, step: Step, s': State)
    requires Base(s) && Wakes(s) && WakeNext(s, step, s') && step.WakeStep?
    ensures Wakes(s')
  {
    var c, p := step.c, step.p;
    Here(s, c, p);
    var i, chan := s.procs[p].pc.i, s.procs[p].pc.chan;
    if i != p { NotBetween(s, i, chan); }
    hide Base;
    assert NoNewSleeper(s, s');
    forall x: nat | x < |s'.procs| ensures WakeInv(s', x) { assert WakeInv(s, x); }
    forall x: nat | x < |s'.cpus| ensures IntrWakeInv(s', x) { assert IntrWakeInv(s, x); }
  }

  lemma WakesIntr(s: State, step: Step, s': State)
    requires Base(s) && Wakes(s) && WakeNext(s, step, s') && !step.WakeStep?
    ensures Wakes(s')
  {
    var c := step.c;
    if step.IntrWakeStep? { NotBetween(s, s.cpus[c].pc.i, s.cpus[c].pc.chan); }
    hide Base;
    assert NoNewSleeper(s, s');
    forall x: nat | x < |s'.procs| ensures WakeInv(s', x) { assert WakeInv(s, x); }
    forall x: nat | x < |s'.cpus| ensures IntrWakeInv(s', x) { assert IntrWakeInv(s, x); }
  }

  lemma WakesFamily(s: State, step: Step, s': State)
    requires Base(s) && Wakes(s) && FamilyNext(s, step, s')
    ensures Wakes(s')
  {
    Here(s, step.c, step.p);
    FamilyQuiet(s, step, s');
    hide Base, FamilyNext, NoNewSleeper, HereOk;
    forall x: nat | x < |s.procs| ensures WakerOk(s, s', x) { assert PcKept(s, s', x); }
    forall x: nat | x < |s.cpus| ensures IntrWakerOk(s, s', x) { }
    WakesFrame(s, s');
  }

  ghost predicate PcKept(s: State, s': State, x: nat)
    requires x < |s.procs| == |s'.procs|
  {
    s'.procs[x].at == s.procs[x].at &&
        (s'.procs[x].pc.Waking? && s'.procs[x].pc.i > 0 ==> s'.procs[x].pc == s.procs[x].pc)
  }

  predicate ForkStep(step: Step)
  {
    step.ForkAlloc? || step.ForkParent? || step.ForkRun?
  }

  lemma ForkQuiet(s: State, step: Step, s': State)
    requires FamilyNext(s, step, s') && HereOk(s, step.c, step.p) && ForkStep(step)
    ensures NoNewSleeper(s, s') && s'.cpus == s.cpus
    ensures forall l :: l in s'.locks ==> l in s.locks && s'.locks[l] == s.locks[l]
    ensures forall x: nat :: x < |s.procs| ==> PcKept(s, s', x)
  {
  }

  lemma ParentQuiet(s: State, step: Step, s': State)
    requires FamilyNext(s, step, s') && HereOk(s, step.c, step.p) && !ForkStep(step)
    ensures NoNewSleeper(s, s') && s'.cpus == s.cpus
    ensures forall l :: l in s'.locks ==> l in s.locks && s'.locks[l] == s.locks[l]
    ensures forall x: nat :: x < |s.procs| ==> PcKept(s, s', x)
  {
  }

  lemma FamilyQuiet(s: State, step: Step, s': State)
    requires FamilyNext(s, step, s') && HereOk(s, step.c, step.p)
    ensures NoNewSleeper(s, s') && s'.cpus == s.cpus
    ensures forall l :: l in s'.locks ==> l in s.locks && s'.locks[l] == s.locks[l]
    ensures forall x: nat :: x < |s.procs| ==> PcKept(s, s', x)
  {
    hide FamilyNext, HereOk, NoNewSleeper, PcKept;
    if ForkStep(step) { ForkQuiet(s, step, s'); } else { ParentQuiet(s, step, s'); }
  }

  lemma WakesSwitch(s: State, step: Step, s': State)
    requires Base(s) && Wakes(s) && SwitchNext(s, step, s')
    ensures Wakes(s')
  {
    assert CpuInv(s, step.c);
    if step.Dispatch? { assert ProcInv(s, s.cpus[step.c].pc.p); }
    hide Base;
    forall x: nat | x < |s.procs| ensures WakerOk(s, s', x) { }
    forall x: nat | x < |s.cpus| ensures IntrWakerOk(s, s', x) { }
    WakesFrame(s, s');
  }

  lemma WakesNext(s: State, step: Step, s': State)
    requires Base(s) && Wakes(s) && Next(s, step, s')
    ensures Wakes(s')
  {
    hide Base, Wakes, LockNext, SleepNext, ResumeNext, ExitNext, WaitNext, WakeNext, FamilyNext, SwitchNext;
    if LockNext(s, step, s') { WakesLocks(s, step, s'); }
    else if SleepNext(s, step, s') {
      if step.SleepUnlock? { WakesUnlock(s, step, s'); } else { WakesSleep(s, step, s'); }
    }
    else if ResumeNext(s, step, s') { WakesResume(s, step, s'); }
    else if ExitNext(s, step, s') { WakesExit(s, step, s'); }
    else if WaitNext(s, step, s') { WakesWait(s, step, s'); }
    else if WakeNext(s, step, s') { if step.WakeStep? { WakesWake(s, step, s'); } else { WakesIntr(s, step, s'); } }
    else if FamilyNext(s, step, s') { WakesFamily(s, step, s'); }
    else { WakesSwitch(s, step, s'); }
  }

  // ---- Waiting for children ---------------------------------------------

  /** No process has become the zombie child of another. */
  ghost predicate NoNewZombie(s: State, s': State)
    requires |s'.procs| == |s.procs|
  {
    forall q: nat {:trigger s'.procs[q]} :: q < |s.procs| && s'.procs[q].parent.Some? && s'.procs[q].state == ZOMBIE ==>
      s.procs[q].parent == s'.procs[q].parent && s.procs[q].state == ZOMBIE
  }

  /** p is no further in wait or exit than it was. */
  ghost predicate WaitPcOk(s: State, s': State, p: nat)
    requires p < |s.procs| == |s'.procs|
  {
    var q, o := s'.procs[p], s.procs[p];
    && (q.pc.WaitAt? && q.pc.i > 0 ==> o.pc.WaitAt? && q.pc.i <= o.pc.i)
    && ((q.pc.SleepA? || q.pc.SleepB?) && q.pc.chan.ProcChan? ==> (o.pc.SleepA? || o.pc.SleepB?) && o.pc.chan.ProcChan?)
    && (q.pc == ExitD ==> o.pc == ExitD && q.parent == o.parent)
    && (q.pc.Waking? && !q.pc.k.ToPc? ==>
          o.pc.Waking? && o.pc.k == q.pc.k && o.pc.chan == q.pc.chan && q.parent == o.parent)
  }

  lemma WaitsFrame(s: State, s': State)
    requires Waits(s) && s'.init == s.init && NoNewSleeper(s, s') && NoNewZombie(s, s') && (Handing(s) ==> Handing(s'))
    requires forall p: nat {:trigger WaitPcOk(s, s', p)} :: p < |s.procs| ==> WaitPcOk(s, s', p) || WaitInv(s', p)
    ensures Waits(s')
  {
    hide Asleep, Handing;
    forall p: nat | p < |s'.procs| ensures WaitInv(s', p) {
      assert WaitInv(s, p) && (WaitPcOk(s, s', p) || WaitInv(s', p));
    }
    forall p: nat, q: nat | p < |s'.procs| && q < |s'.procs| ensures MissInv(s', p, q) { assert MissInv(s, p, q); }
  }

  /** Whoever hands a child to init keeps wait_lock, whatever other threads do. */
  lemma ThreadHanding(s: State, c: nat, p: nat, s': State)
    requires Base(s) && OwnOk(s, c, p, s')
    requires s.procs[p].pc.Waking? && s.procs[p].pc.k.ToReparent? ==>
               s'.procs[p].pc.Waking? && s'.procs[p].pc.k.ToReparent?
    ensures Handing(s) ==> Handing(s')
  {
    if Handing(s) { assert CpuInv(s, s.locks[WaitLock]) && LockInv(s, WaitLock); }
  }

  lemma ThreadWaits(s: State, c: nat, p: nat, s': State)
    requires Base(s) && Waits(s) && OwnOk(s, c, p, s')
    requires NoNewSleeper(s, s') && NoNewZombie(s, s') && (WaitPcOk(s, s', p) || WaitInv(s', p))
    requires s.procs[p].pc.Waking? && s.procs[p].pc.k.ToReparent? ==>
               s'.procs[p].pc.Waking? && s'.procs[p].pc.k.ToReparent?
    ensures Waits(s')
  {
    ThreadHanding(s, c, p, s');
    hide Handing, Base, NoNewZombie, NoNewSleeper, Waits;
    forall x: nat | x < |s.procs| ensures WaitPcOk(s, s', x) || WaitInv(s', x) { }
    WaitsFrame(s, s');
  }

  /** Two threads that hold wait_lock are one. */
  lemma OneHolder(s: State, p: nat, q: nat)
    requires Base(s) && p < |s.procs| && q < |s.procs|
    requires MustHold(s.procs[p].pc) == Some(WaitLock) && MustHold(s.procs[q].pc) == Some(WaitLock)
    ensures p == q
  {
    assert HeldInv(s, p) && HeldInv(s, q) && ProcInv(s, p) && ProcInv(s, q);
  }

  lemma WaitsSleep(s: State, step: Step, s': State)
    requires Base(s) && Waits(s) && SleepNext(s, step, s') && !step.SleepUnlock?
    ensures Waits(s')
  {
    SleepOwn(s, step, s');
    hide Base, Waits, OwnOk;
    Here(s, step.c, step.p);
    ThreadWaits(s, step.c, step.p, s');
  }

  lemma WaitsUnlock(s: State, step: Step, s': State)
    requires Base(s) && Waits(s) && SleepNext(s, step, s') && step.SleepUnlock?
    ensures Waits(s')
  {
    SleepOwn(s, step, s');
    var c, p := step.c, step.p;
    Here(s, c, p);
    ThreadHanding(s, c, p, s');
    assert WaitInv(s, p);
    forall x: nat | x < |s'.procs| ensures WaitInv(s', x) {
      assert WaitInv(s, x);
      if s.procs[x].pc == ExitD && s.procs[p].pc.chan.ProcChan? { OneHolder(s, x, p); }
    }
    hide Base;
    forall x: nat, y: nat | x < |s'.procs| && y < |s'.procs| ensures MissInv(s', x, y) { assert MissInv(s, x, y); }
  }

  lemma WaitsResume(s: State, step: Step, s': State)
    requires Base(s) && Waits(s) && ResumeNext(s, step, s') && !step.WakeReturn?
    ensures Waits(s')
  {
    ResumeOwn(s, step, s');
    hide Base, Waits, OwnOk;
    Here(s, step.c, step.p);
    ThreadWaits(s, step.c, step.p, s');
  }

  /** wakeup has returned: nobody sleeps on the channel any more. */
  lemma WaitsReturn(s: State, step: Step, s': State)
    requires Base(s) && Wakes(s) && Waits(s) && ResumeNext(s, step, s') && step.WakeReturn?
    ensures Waits(s')
  {
    ResumeOwn(s, step, s');
    var c, p := step.c, step.p;
    Here(s, c, p);
    assert WakeInv(s, p) && WaitInv(s, p);
    var toInit := s.procs[p].pc.k.ToReparent?;
    if !toInit { ThreadHanding(s, c, p, s'); }
    hide Base;
    forall x: nat | x < |s'.procs| ensures WaitInv(s', x) { assert WaitInv(s, x); }
    forall x: nat, y: nat | x < |s'.procs| && y < |s'.procs| ensures MissInv(s', x, y) { assert MissInv(s, x, y); }
  }

  lemma WaitsExit(s: State, step: Step, s': State)
    requires Base(s) && Waits(s) && ExitNext(s, step, s') && (step.ExitCall? || step.ExitUnlock?)
    ensures Waits(s')
  {
    ExitOwn(s, step, s');
    hide Base, Waits, OwnOk;
    Here(s, step.c, step.p);
    ThreadWaits(s, step.c, step.p, s');
  }

  lemma WaitsTell(s: State, step: Step, s': State)
    requires Base(s) && Waits(s) && ExitNext(s, step, s') && step.ExitTell?
    ensures Waits(s')
  {
    ExitOwn(s, step, s');
    var c, p := step.c, step.p;
    Here(s, c, p);
    ThreadHanding(s, c, p, s');
    hide Base;
    forall x: nat | x < |s'.procs| ensures WaitInv(s', x) { assert WaitInv(s, x); }
    forall x: nat, y: nat | x < |s'.procs| && y < |s'.procs| ensures MissInv(s', x, y) { assert MissInv(s, x, y); }
  }

  /** The parent was woken under wait_lock, so it does not sleep when its child becomes a zombie. */
  lemma WaitsZombie(s: State, step: Step, s': State)
    requires Base(s) && Waits(s) && ExitNext(s, step, s') && step.ExitZombie?
    ensures Waits(s')
  {
    ExitOwn(s, step, s');
    var c, p := step.c, step.p;
    Here(s, c, p);
    ThreadHanding(s, c, p, s');
    assert WaitInv(s, p);
    forall x: nat | x < |s'.procs| ensures WaitInv(s', x) {
      assert WaitInv(s, x);
      if MustHold(s.procs[x].pc) == Some(WaitLock) { OneHolder(s, x, p); }
    }
    hide Base;
    forall x: nat, y: nat | x < |s'.procs| && y < |s'.procs| ensures MissInv(s', x, y) { assert MissInv(s, x, y); }
  }

  lemma WaitsWait(s: State, step: Step, s': State)
    requires Base(s) && Waits(s) && WaitNext(s, step, s')
    ensures Waits(s')
  {
    WaitOwn(s, step, s');
    var c, p := step.c, step.p;
    Here(s, c, p);
    if step.WaitCall? || step.WaitReturn? {
      hide Base, Waits, OwnOk;
      ThreadWaits(s, c, p, s');
    } else {
      WaitsScan(s, step, s');
    }
  }

  /** wait has looked at one more child, or at all of them. */
  lemma WaitsScan(s: State, step: Step, s': State)
    requires Base(s) && Waits(s) && WaitNext(s, step, s') && (step.WaitStep? || step.WaitSleep?)
    requires HereOk(s, step.c, step.p) && OwnOk(s, step.c, step.p, s')
    ensures Waits(s')
  {
    var c, p := step.c, step.p;
    assert WaitInv(s, p);
    hide Base, Waits, OwnOk;
    ScanFacts(s, step, s');
    hide WaitInv, WaitNext, HereOk, NoNewSleeper, NoNewZombie;
    ThreadWaits(s, c, p, s');
  }

  lemma ScanFacts(s: State, step: Step, s': State)
    requires WaitNext(s, step, s') && (step.WaitStep? || step.WaitSleep?) && HereOk(s, step.c, step.p)
    requires WaitInv(s, step.p)
    ensures |s'.procs| == |s.procs| && WaitInv(s', step.p) && NoNewSleeper(s, s') && NoNewZombie(s, s')
    ensures !s.procs[step.p].pc.Waking?
  {
  }

  lemma WaitsLocks(s: State, step: Step, s': State)
    requires Waits(s) && LockNext(s, step, s')
    ensures Waits(s')
  {
    forall x: nat | x < |s.procs| ensures WaitPcOk(s, s', x) { }
    WaitsFrame(s, s');
  }

  lemma WaitsWake(s: State, step: Step, s': State)
    requires Base(s) && Waits(s) && WakeNext(s, step, s')
    ensures Waits(s')
  {
    WakeHanding(s, step, s');
    hide Base, Handing;
    WakeFacts(s, step, s');
    hide WakeNext, NoNewSleeper, NoNewZombie, WaitPcOk;
    WaitsFrame(s, s');
  }

  lemma WakeHanding(s: State, step: Step, s': State)
    requires Base(s) && WakeNext(s, step, s')
    ensures Handing(s) ==> Handing(s')
  {
    if Handing(s) { assert CpuInv(s, s.locks[WaitLock]) && LockInv(s, WaitLock); }
    hide Base;
  }

  lemma WakeFacts(s: State, step: Step, s': State)
    requires WakeNext(s, step, s')
    ensures |s'.procs| == |s.procs| && s'.init == s.init && NoNewSleeper(s, s') && NoNewZombie(s, s')
    ensures forall x: nat {:trigger WaitPcOk(s, s', x)} :: x < |s.procs| ==> WaitPcOk(s, s', x)
  {
    forall x: nat | x < |s.procs| ensures WaitPcOk(s, s', x) { }
  }

  lemma WaitsFamily(s: State, step: Step, s': State)
    requires Base(s) && Waits(s) && FamilyNext(s, step, s') && !step.ReparentStep?
    ensures Waits(s')
  {
    Here(s, step.c, step.p);
    FamilyQuiet(s, step, s');
    FamilyHanding(s, step, s');
    if step.ForkParent? { ChildUnborn(s, step.p); }
    FamilyWaitPc(s, step, s');
    hide Base, Handing, FamilyNext, HereOk, NoNewSleeper, NoNewZombie, WaitPcOk;
    WaitsFrame(s, s');
  }

  lemma ChildUnborn(s: State, p: nat)
    requires Base(s) && p < |s.procs| && s.procs[p].pc.ForkA?
    ensures var q := s.procs[p].pc.child; q < |s.procs| && s.procs[q].state == USED && s.procs[q].pc.Unborn?
  {
    assert ForkInv(s, p) && ProcInv(s, s.procs[p].pc.child);
  }

  lemma ForkWaitPc(s: State, step: Step, s': State)
    requires FamilyNext(s, step, s') && HereOk(s, step.c, step.p) && ForkStep(step)
    requires step.ForkParent? ==>
               var q := s.procs[s.procs[step.p].pc.child]; q.state == USED && q.pc.Unborn?
    ensures |s'.procs| == |s.procs| && s'.init == s.init && NoNewZombie(s, s')
    ensures forall x: nat {:trigger WaitPcOk(s, s', x)} :: x < |s.procs| ==> WaitPcOk(s, s', x)
  {
    forall x: nat | x < |s.procs| ensures WaitPcOk(s, s', x) { }
  }

  lemma OtherWaitPc(s: State, step: Step, s': State)
    requires FamilyNext(s, step, s') && HereOk(s, step.c, step.p) && !step.ReparentStep? && !ForkStep(step)
    ensures |s'.procs| == |s.procs| && s'.init == s.init && NoNewZombie(s, s')
    ensures forall x: nat {:trigger WaitPcOk(s, s', x)} :: x < |s.procs| ==> WaitPcOk(s, s', x)
  {
    forall x: nat | x < |s.procs| ensures WaitPcOk(s, s', x) { }
  }

  lemma FamilyWaitPc(s: State, step: Step, s': State)
    requires FamilyNext(s, step, s') && HereOk(s, step.c, step.p) && !step.ReparentStep?
    requires step.ForkParent? ==>
               var q := s.procs[s.procs[step.p].pc.child]; q.state == USED && q.pc.Unborn?
    ensures |s'.procs| == |s.procs| && s'.init == s.init && NoNewZombie(s, s')
    ensures forall x: nat {:trigger WaitPcOk(s, s', x)} :: x < |s.procs| ==> WaitPcOk(s, s', x)
  {
    hide FamilyNext, HereOk, NoNewZombie, WaitPcOk;
    if ForkStep(step) { ForkWaitPc(s, step, s'); } else { OtherWaitPc(s, step, s'); }
  }

  lemma FamilyHanding(s: State, step: Step, s': State)
    requires Base(s) && FamilyNext(s, step, s') && !step.ReparentStep?
    ensures Handing(s) ==> Handing(s')
  {
    Here(s, step.c, step.p);
    if Handing(s) {
      var c := s.locks[WaitLock];
      assert CpuInv(s, c) && LockInv(s, WaitLock) && ProcInv(s, s.cpus[c].pc.p);
    }
  }

  /** A child given to init may be a zombie: init is woken before wait_lock is released. */
  lemma WaitsReparent(s: State, step: Step, s': State)
    requires Base(s) && Waits(s) && FamilyNext(s, step, s') && step.ReparentStep?
    ensures Waits(s')
  {
    var c, p := step.c, step.p;
    Here(s, c, p);
    forall x: nat | x < |s'.procs| ensures WaitInv(s', x) {
      assert WaitInv(s, x);
      if MustHold(s.procs[x].pc) == Some(WaitLock) { OneHolder(s, x, p); }
    }
    hide Base;
    forall x: nat, y: nat | x < |s'.procs| && y < |s'.procs| ensures MissInv(s', x, y) { assert MissInv(s, x, y); }
  }

  lemma WaitsSwitch(s: State, step: Step, s': State)
    requires Base(s) && Waits(s) && SwitchNext(s, step, s')
    ensures Waits(s')
  {
    SwitchHanding(s, step, s');
    SwitchFacts(s, step, s');
    hide Base, Handing, SwitchNext, NoNewSleeper, NoNewZombie, WaitPcOk;
    WaitsFrame(s, s');
  }

  lemma SwitchHanding(s: State, step: Step, s': State)
    requires Base(s) && SwitchNext(s, step, s')
    ensures Handing(s) ==> Handing(s')
  {
    if Handing(s) { assert CpuInv(s, s.locks[WaitLock]) && LockInv(s, WaitLock); }
    if step.Pick? || step.Dispatch? { assert CpuInv(s, step.c) && ProcInv(s, s.cpus[step.c].pc.p); }
    hide Base;
  }

  lemma SwitchFacts(s: State, step: Step, s': State)
    requires Base(s) && SwitchNext(s, step, s')
    ensures |s'.procs| == |s.procs| && s'.init == s.init && NoNewSleeper(s, s') && NoNewZombie(s, s')
    ensures forall x: nat {:trigger WaitPcOk(s, s', x)} :: x < |s.procs| ==> WaitPcOk(s, s', x)
  {
    if step.Pick? || step.Dispatch? { assert CpuInv(s, step.c) && ProcInv(s, s.cpus[step.c].pc.p); }
    hide Base;
    forall x: nat | x < |s.procs| ensures WaitPcOk(s, s', x) { }
  }

  lemma WaitsNext(s: State, step: Step, s': State)
    requires Inv(s) && Next(s, step, s')
    ensures Waits(s')
  {
    hide Base, Wakes, Waits, LockNext, SleepNext, ResumeNext, ExitNext, WaitNext, WakeNext, FamilyNext, SwitchNext;
    if LockNext(s, step, s') { WaitsLocks(s, step, s'); }
    else if SleepNext(s, step, s') {
      if step.SleepUnlock? { WaitsUnlock(s, step, s'); } else { WaitsSleep(s, step, s'); }
    }
    else if ResumeNext(s, step, s') {
      if step.WakeReturn? { WaitsReturn(s, step, s'); } else { WaitsResume(s, step, s'); }
    }
    else if ExitNext(s, step, s') {
      if step.ExitTell? { WaitsTell(s, step, s'); }
      else if step.ExitZombie? { WaitsZombie(s, step, s'); }
      else { ExitRest(s, step, s'); WaitsExit(s, step, s'); }
    }
    else if WaitNext(s, step, s') { WaitsWait(s, step, s'); }
    else if WakeNext(s, step, s') { WaitsWake(s, step, s'); }
    else if FamilyNext(s, step, s') {
      if step.ReparentStep? { WaitsReparent(s, step, s'); } else { WaitsFamily(s, step, s'); }
    }
    else { WaitsSwitch(s, step, s'); }
  }

  lemma ExitRest(s: State, step: Step, s': State)
    requires ExitNext(s, step, s') && !step.ExitTell? && !step.ExitZombie?
    ensures step.ExitCall? || step.ExitUnlock?
  {
  }

  // ---- Every run --------------------------------------------------------

  lemma NextInv(s: State, step: Step, s': State)
    requires Inv(s) && Next(s, step, s')
    ensures Inv(s')
  {
    hide Base, Wakes, Waits, Next;
    BaseNext(s, step, s');
    WakesNext(s, step, s');
    WaitsNext(s, step, s');
  }

  ghost predicate IsRun(states: seq<State>, steps: seq<Step>)
  {
    && |states| == |steps| + 1 && Init(states[0])
    && forall k :: 0 <= k < |steps| ==> Next(states[k], steps[k], states[k + 1])
  }

  lemma {:induction false} RunInv(states: seq<State>, steps: seq<Step>, k: nat)
    requires IsRun(states, steps) && k < |states|
    ensures Inv(states[k])
  {
    hide Inv, Next;
    if k == 0 {
      InitInv(states[0]);
    } else {
      RunInv(states, steps, k - 1);
      NextInv(states[k - 1], steps[k - 1], states[k]);
    }
  }

  /** When wakeup(chan) returns to a caller that holds the channel's lock, no process is
      asleep, or on its way to sleep, on chan. */
  lemma NoLostWakeup(states: seq<State>, steps: seq<Step>, k: nat, c: nat, chan: Chan)
    requires IsRun(states, steps) && k < |states| && c < |states[k].cpus|
    requires Guard(chan) in states[k].locks && states[k].locks[Guard(chan)] == c
    requires var s := states[k];
             || (s.cpus[c].pc.Away? && s.cpus[c].pc.p < |s.procs|
                 && s.procs[s.cpus[c].pc.p].pc.Waking? && s.procs[s.cpus[c].pc.p].pc.chan == chan
                 && s.procs[s.cpus[c].pc.p].pc.i == |s.procs|)
             || s.cpus[c].pc == IntrWaking(chan, |s.procs|)
    ensures forall q: nat :: q < |states[k].procs| ==> !Asleep(states[k].procs[q], chan)
  {
    var s := states[k];
    RunInv(states, steps, k);
    assert CpuInv(s, c) && IntrWakeInv(s, c);
    if s.cpus[c].pc.Away? { assert WakeInv(s, s.cpus[c].pc.p); }
  }

  /** Whenever wait_lock is free, no process sleeps in wait while it has a zombie child. */
  lemma NoForgottenZombie(states: seq<State>, steps: seq<Step>, k: nat, p: nat, q: nat)
    requires IsRun(states, steps) && k < |states| && p < |states[k].procs| && q < |states[k].procs|
    requires WaitLock !in states[k].locks
    ensures !Missed(states[k], p, q)
  {
    RunInv(states, steps, k);
    assert MissInv(states[k], p, q);
  }

  /** A process is the current process of at most one CPU. */
  lemma OneCpu(states: seq<State>, steps: seq<Step>, k: nat, c: nat, d: nat)
    requires IsRun(states, steps) && k < |states| && c < |states[k].cpus| && d < |states[k].cpus|
    requires states[k].cpus[c].cur.Some? && states[k].cpus[c].cur == states[k].cpus[d].cur
    ensures c == d
  {
    RunInv(states, steps, k);
    assert CpuInv(states[k], c) && CpuInv(states[k], d);
  }

  /** While its lock is free, a process is RUNNING if and only if some CPU has it as its current process. */
  lemma RunningIffCurrent(states: seq<State>, steps: seq<Step>, k: nat, p: nat)
    requires IsRun(states, steps) && k < |states| && p < |states[k].procs| && states[k].procs[p].lock == None
    ensures states[k].procs[p].state == RUNNING <==>
            exists c: nat :: c < |states[k].cpus| && states[k].cpus[c].cur == Some(p)
  {
    var s := states[k];
    RunInv(states, steps, k);
    assert ProcInv(s, p);
    if s.procs[p].state == RUNNING {
      var c := s.procs[p].at.value;
      assert CpuInv(s, c);
    }
    forall c: nat | c < |s.cpus| && s.cpus[c].cur == Some(p) ensures s.procs[p].state == RUNNING {
      assert CpuInv(s, c);
    }
  }

  /** wait frees a child only when no CPU is on its kernel stack or has it as its current process. */
  lemma FreedOffCpu(states: seq<State>, steps: seq<Step>, k: nat)
    requires IsRun(states, steps) && k < |steps| && steps[k].Reap?
    ensures var s := states[k];
            && steps[k].p < |s.procs| && s.procs[steps[k].p].pc.WaitAt?
            && forall d: nat :: d < |s.cpus| ==>
                 s.cpus[d].pc != Away(s.procs[steps[k].p].pc.i) && s.cpus[d].cur != Some(s.procs[steps[k].p].pc.i)
  {
    var s, step := states[k], steps[k];
    RunInv(states, steps, k);
    assert Next(s, step, states[k + 1]);
    var i := s.procs[step.p].pc.i;
    assert ProcInv(s, i);
    forall d: nat | d < |s.cpus| ensures s.cpus[d].pc != Away(i) && s.cpus[d].cur != Some(i) { assert CpuInv(s, d); }
  }

  /** A thread that calls sched holds its own lock, no other process's lock and no other
      spinlock, and is not RUNNING; a zombie never runs again. */
  lemma SchedNeverPanics(states: seq<State>, steps: seq<Step>, k: nat, c: nat, p: nat)
    requires IsRun(states, steps) && k < |states| && At(states[k], c, p)
    ensures states[k].procs[p].pc.Sched? ==>
              && states[k].procs[p].lock == Some(c) && HoldsNone(states[k], c) && states[k].procs[p].state != RUNNING
              && forall q: nat :: q < |states[k].procs| && q != p ==> states[k].procs[q].lock != Some(c)
    ensures states[k].procs[p].pc != Back(Exiting)
  {
    RunInv(states, steps, k);
    Here(states[k], c, p);
    forall q: nat | q < |states[k].procs| && q != p ensures states[k].procs[q].lock != Some(c) {
      assert ProcInv(states[k], q);
    }
  }
}
