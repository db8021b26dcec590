/** Every step of the process state machine keeps the invariant. */
module ProcessSteps {
  import opened Processes
  import opened Wrappers

  // ---- Kinds of steps ---------------------------------------------------

  /** Other CPUs keep their locks. */
  ghost predicate LocksMove(locks: map<Lock, nat>, locks': map<Lock, nat>, c: nat)
  {
    && (forall l :: l in locks' && locks'[l] != c ==> l in locks && locks[l] == locks'[l])
    && (forall l :: l in locks && locks[l] != c ==> l in locks' && locks'[l] == locks[l])
  }

  /** The thread of p, on CPU c, changes its own record and the locks of its CPU. */
  ghost predicate ThreadOk(s: State, c: nat, p: nat, q: Proc, locks': map<Lock, nat>)
  {
    && At(s, c, p) && q.at == Some(c)
    && Executing(q) && ChanOk(p, q.pc) && (OwnLock(q.pc) <==> q.lock == Some(c))
    && (q.lock != s.procs[p].lock ==>
        (if q.lock.None? then s.procs[p].lock == Some(c) else q.lock == Some(c) && s.procs[p].lock == None))
    && LocksMove(s.locks, locks', c)
    && (forall l :: l in locks' && locks'[l] == c ==> MayHold(q.pc, l))
    && (MustHold(q.pc).Some? ==> MustHold(q.pc).value in locks' && locks'[MustHold(q.pc).value] == c)
    && (Making(q.pc).Some? ==> Making(q.pc) == Making(s.procs[p].pc))
  }

  lemma ThreadStep(s: State, c: nat, p: nat, q: Proc, locks': map<Lock, nat>)
    requires Base(s) && ThreadOk(s, c, p, q, locks')
    ensures Base(s.(procs := s.procs[p := q], locks := locks'))
  {
    var s' := s.(procs := s.procs[p := q], locks := locks');
    assert CpuInv(s, c) && ProcInv(s, p) && ForkInv(s, p);
    forall x: nat | x < |s'.procs| ensures ProcInv(s', x) { assert ProcInv(s, x); }
    forall x: nat | x < |s'.cpus| ensures CpuInv(s', x) { assert CpuInv(s, x); }
    forall l | l in s'.locks ensures LockInv(s', l) {
      if locks'[l] != c { assert LockInv(s, l) && CpuInv(s, locks'[l]); }
    }
    forall x: nat | x < |s'.procs| ensures HeldInv(s', x) { assert HeldInv(s, x) && ProcInv(s, x); }
    forall x: nat | x < |s'.procs| ensures ForkInv(s', x) { assert ForkInv(s, x); if x != p { MakesOther(s, x, p); } }
    forall x: nat, y: nat | x < |s'.procs| && y < |s'.procs| ensures ForkApart(s', x, y) { assert ForkApart(s, x, y); }
  }

  lemma MakesOther(s: State, x: nat, p: nat)
    requires Base(s) && x < |s.procs| && p < |s.procs| && s.procs[p].at.Some?
    ensures Making(s.procs[x].pc) != Some(p)
  {
    assert ForkInv(s, x) && ProcInv(s, p);
  }

  /** The record of a process changes while its lock is free: its parent or its mark only, or the state
      of a process that is on no CPU. */
  ghost predicate OtherOk(s: State, p: nat, q: Proc)
  {
    && p < |s.procs|
    && var o := s.procs[p];
       && q.at == o.at && q.lock == o.lock
       && (q == o.(parent := q.parent, killed := q.killed)
           || (o.at == None && o.lock == None && Parked(q) && q.state != RUNNING && ChanOk(p, q.pc)
               && (Making(q.pc).None? || Making(q.pc) == Making(o.pc))))
  }

  lemma OtherStep(s: State, p: nat, q: Proc)
    requires Base(s) && OtherOk(s, p, q)
    requires s.procs[p].state == USED && q.state != USED ==> forall x: nat ::
               x < |s.procs| ==> Making(s.procs[x].pc) != Some(p)
    ensures Base(SetProc(s, p, q))
  {
    var s' := SetProc(s, p, q);
    assert ProcInv(s, p) && HeldInv(s, p) && ForkInv(s, p);
    forall x: nat | x < |s'.procs| ensures ProcInv(s', x) { assert ProcInv(s, x); }
    forall x: nat | x < |s'.cpus| ensures CpuInv(s', x) { assert CpuInv(s, x); }
    forall l | l in s'.locks ensures LockInv(s', l) { assert LockInv(s, l) && CpuInv(s, s.locks[l]); }
    forall x: nat | x < |s'.procs| ensures HeldInv(s', x) { assert HeldInv(s, x); }
    forall x: nat | x < |s'.procs| ensures ForkInv(s', x) { assert ForkInv(s, x); }
    forall x: nat, y: nat | x < |s'.procs| && y < |s'.procs| ensures ForkApart(s', x, y) { assert ForkApart(s, x, y); }
  }

  /** The scheduler of CPU c, or an interrupt handler on it, changes its own pc and the locks of its CPU. */
  lemma HandlerStep(s: State, c: nat, pc: SchedPc, locks': map<Lock, nat>)
    requires Base(s) && c < |s.cpus| && (s.cpus[c].pc.Idle? || s.cpus[c].pc.IntrWaking?) && (pc.Idle? || pc.IntrWaking?)
    requires LocksMove(s.locks, locks', c) && forall l :: l in locks' && locks'[l] == c ==> l != WaitLock
    ensures Base(s.(cpus := s.cpus[c := s.cpus[c].(pc := pc)], locks := locks'))
  {
    var s' := s.(cpus := s.cpus[c := s.cpus[c].(pc := pc)], locks := locks');
    assert CpuInv(s, c);
    forall x: nat | x < |s'.procs| ensures ProcInv(s', x) { assert ProcInv(s, x); }
    forall x: nat | x < |s'.cpus| ensures CpuInv(s', x) { assert CpuInv(s, x); }
    forall l | l in s'.locks ensures LockInv(s', l) { if locks'[l] != c { assert LockInv(s, l); } }
    forall x: nat | x < |s'.procs| ensures HeldInv(s', x) { assert HeldInv(s, x) && ProcInv(s, x); }
    forall x: nat | x < |s'.procs| ensures ForkInv(s', x) { assert ForkInv(s, x); }
    forall x: nat, y: nat | x < |s'.procs| && y < |s'.procs| ensures ForkApart(s', x, y) { assert ForkApart(s, x, y); }
  }

  /** The scheduler of CPU c and the process p that it handles move together. */
  ghost predicate HandOk(s: State, c: nat, d: Cpu, p: nat, q: Proc)
  {
    && c < |s.cpus| && p < |s.procs|
    && (s.cpus[c].pc == Idle || Handling(s.cpus[c].pc, p) || s.cpus[c].pc == Away(p))
    && (d.pc == Idle || Handling(d.pc, p) || d.pc == Away(p))
    && (s.procs[p].lock == None || s.procs[p].lock == Some(c)) && (q.lock == None || q.lock == Some(c))
    && (s.procs[p].at == None || s.procs[p].at == Some(c) ||
        (q.at == s.procs[p].at && q.state == s.procs[p].state && q.pc == s.procs[p].pc))
    && (q.at == None || q.at == Some(c) || q.at == s.procs[p].at)
    && ((q.pc == s.procs[p].pc && q.at == s.procs[p].at) ||
        (MustHold(q.pc).None? && (Making(q.pc).None? || Making(q.pc) == Making(s.procs[p].pc))))
  }

  ghost predicate HandedOver(s: State, c: nat, d: Cpu, p: nat, q: Proc, s': State)
  {
    && HandOk(s, c, d, p, q) && HoldsNone(s, c) && s' == s.(procs := s.procs[p := q], cpus := s.cpus[c := d])
    && ProcInv(s', p) && CpuInv(s', c) && (s.procs[p].state == USED ==> q.state == USED)
  }

  lemma HandStep(s: State, c: nat, d: Cpu, p: nat, q: Proc, s': State)
    requires Base(s) && HandedOver(s, c, d, p, q, s')
    ensures Base(s')
  {
    HandProcs(s, c, d, p, q, s');
    HandLocks(s, c, d, p, q, s');
  }

  lemma HandProcs(s: State, c: nat, d: Cpu, p: nat, q: Proc, s': State)
    requires Base(s) && HandedOver(s, c, d, p, q, s')
    ensures forall x: nat {:trigger ProcInv(s', x)} :: x < |s'.procs| ==> ProcInv(s', x)
    ensures forall x: nat {:trigger CpuInv(s', x)} :: x < |s'.cpus| ==> CpuInv(s', x)
  {
    assert CpuInv(s, c) && ProcInv(s, p);
    forall x: nat | x < |s'.procs| ensures ProcInv(s', x) { assert ProcInv(s, x); }
    forall x: nat | x < |s'.cpus| ensures CpuInv(s', x) { assert CpuInv(s, x); }
  }

  lemma HandLocks(s: State, c: nat, d: Cpu, p: nat, q: Proc, s': State)
    requires Base(s) && HandedOver(s, c, d, p, q, s')
    ensures s'.init < |s'.procs|
    ensures forall l {:trigger LockInv(s', l)} :: l in s'.locks ==> LockInv(s', l)
    ensures forall x: nat {:trigger HeldInv(s', x)} :: x < |s'.procs| ==> HeldInv(s', x)
    ensures forall x: nat {:trigger ForkInv(s', x)} :: x < |s'.procs| ==> ForkInv(s', x)
    ensures forall x: nat, y: nat {:trigger ForkApart(s', x, y)} ::
              x < |s'.procs| && y < |s'.procs| ==> ForkApart(s', x, y)
  {
    assert CpuInv(s, c) && ProcInv(s, p);
    forall l | l in s'.locks ensures LockInv(s', l) { assert LockInv(s, l) && CpuInv(s, s.locks[l]); }
    forall x: nat | x < |s'.procs| ensures HeldInv(s', x) { assert HeldInv(s, x) && ProcInv(s, x); }
    forall x: nat | x < |s'.procs| ensures ForkInv(s', x) { assert ForkInv(s, x); }
    forall x: nat, y: nat | x < |s'.procs| && y < |s'.procs| ensures ForkApart(s', x, y) { assert ForkApart(s, x, y); }
  }

  // ---- The steps, one kind at a time ------------------------------------

  lemma BaseLocks(s: State, step: Step, s': State)
    requires Base(s) && LockNext(s, step, s')
    ensures Base(s')
  {
    hide Base;
    if step.Acquire? || step.Release? {
      Here(s, step.c, step.p);
      assert s' == s.(procs := s.procs[step.p := s.procs[step.p]], locks := s'.locks);
      ThreadStep(s, step.c, step.p, s.procs[step.p], s'.locks);
    } else {
      HandlerHolds(s, step.c);
      assert s' == s.(cpus := s.cpus[step.c := s.cpus[step.c].(pc := Idle)], locks := s'.locks);
      HandlerStep(s, step.c, Idle, s'.locks);
    }
  }

  /** What the invariant says of the process that runs on c. */
  ghost predicate HereOk(s: State, c: nat, p: nat)
  {
    && At(s, c, p)
    && var q := s.procs[p];
       && q.at == Some(c) && Executing(q) && ChanOk(p, q.pc) && (OwnLock(q.pc) <==> q.lock == Some(c))
       && (forall l :: l in s.locks && s.locks[l] == c ==> MayHold(q.pc, l))
       && (MustHold(q.pc).Some? ==> MustHold(q.pc).value in s.locks && s.locks[MustHold(q.pc).value] == c)
  }

  lemma Here(s: State, c: nat, p: nat)
    requires Base(s) && At(s, c, p)
    ensures HereOk(s, c, p)
  {
    assert CpuInv(s, c) && ProcInv(s, p) && HeldInv(s, p);
    forall l | l in s.locks && s.locks[l] == c ensures MayHold(s.procs[p].pc, l) { assert LockInv(s, l); }
  }

  lemma HandlerHolds(s: State, c: nat)
    requires Base(s) && c < |s.cpus| && (s.cpus[c].pc.Idle? || s.cpus[c].pc.IntrWaking?)
    ensures forall l :: l in s.locks && s.locks[l] == c ==> l != WaitLock
  {
    forall l | l in s.locks && s.locks[l] == c ensures l != WaitLock { assert LockInv(s, l); }
  }

  /** A thread changes only its own record and the locks of its CPU. */
  ghost predicate OwnOk(s: State, c: nat, p: nat, s': State)
  {
    && p < |s.procs| && |s'.procs| == |s.procs| && ThreadOk(s, c, p, s'.procs[p], s'.locks)
    && s' == s.(procs := s.procs[p := s'.procs[p]], locks := s'.locks)
  }

  lemma BaseOwn(s: State, c: nat, p: nat, s': State)
    requires Base(s) && OwnOk(s, c, p, s')
    ensures Base(s')
  {
    ThreadStep(s, c, p, s'.procs[p], s'.locks);
  }

  lemma SleepOwn(s: State, step: Step, s': State)
    requires Base(s) && SleepNext(s, step, s')
    ensures OwnOk(s, step.c, step.p, s')
  {
    Here(s, step.c, step.p);
    hide Base, HereOk, OwnOk, SleepNext;
    if step.SleepUnlock? || step.SleepSet? { SleepOwnB(s, step, s'); } else { SleepOwnA(s, step, s'); }
  }

  lemma SleepOwnA(s: State, step: Step, s': State)
    requires SleepNext(s, step, s') && HereOk(s, step.c, step.p) && !(step.SleepUnlock? || step.SleepSet?)
    ensures OwnOk(s, step.c, step.p, s')
  {
  }

  lemma SleepOwnB(s: State, step: Step, s': State)
    requires SleepNext(s, step, s') && HereOk(s, step.c, step.p) && (step.SleepUnlock? || step.SleepSet?)
    ensures OwnOk(s, step.c, step.p, s')
  {
  }

  lemma BaseSleep(s: State, step: Step, s': State)
    requires Base(s) && SleepNext(s, step, s')
    ensures Base(s')
  {
    SleepOwn(s, step, s');
    hide Base, OwnOk, SleepNext;
    BaseOwn(s, step.c, step.p, s');
  }

  lemma ResumeOwn(s: State, step: Step, s': State)
    requires Base(s) && ResumeNext(s, step, s')
    ensures OwnOk(s, step.c, step.p, s')
  {
    Here(s, step.c, step.p);
    hide Base, HereOk, OwnOk, ResumeNext;
    if step.SleepRelock? || step.WakeReturn? { ResumeOwnB(s, step, s'); } else { ResumeOwnA(s, step, s'); }
  }

  lemma ResumeOwnA(s: State, step: Step, s': State)
    requires ResumeNext(s, step, s') && HereOk(s, step.c, step.p) && !(step.SleepRelock? || step.WakeReturn?)
    ensures OwnOk(s, step.c, step.p, s')
  {
  }

  lemma ResumeOwnB(s: State, step: Step, s': State)
    requires ResumeNext(s, step, s') && HereOk(s, step.c, step.p) && (step.SleepRelock? || step.WakeReturn?)
    ensures OwnOk(s, step.c, step.p, s')
  {
  }

  lemma BaseResume(s: State, step: Step, s': State)
    requires Base(s) && ResumeNext(s, step, s')
    ensures Base(s')
  {
    ResumeOwn(s, step, s');
    hide Base, OwnOk, ResumeNext;
    BaseOwn(s, step.c, step.p, s');
  }

  lemma ExitOwn(s: State, step: Step, s': State)
    requires Base(s) && ExitNext(s, step, s')
    ensures OwnOk(s, step.c, step.p, s')
  {
    Here(s, step.c, step.p);
    hide Base, HereOk, OwnOk, ExitNext;
    if step.ExitCall? || step.ExitUnlock? { ExitOwnB(s, step, s'); } else { ExitOwnA(s, step, s'); }
  }

  lemma ExitOwnA(s: State, step: Step, s': State)
    requires ExitNext(s, step, s') && HereOk(s, step.c, step.p) && !(step.ExitCall? || step.ExitUnlock?)
    ensures OwnOk(s, step.c, step.p, s')
  {
  }

  lemma ExitOwnB(s: State, step: Step, s': State)
    requires ExitNext(s, step, s') && HereOk(s, step.c, step.p) && (step.ExitCall? || step.ExitUnlock?)
    ensures OwnOk(s, step.c, step.p, s')
  {
  }

  lemma BaseExit(s: State, step: Step, s': State)
    requires Base(s) && ExitNext(s, step, s')
    ensures Base(s')
  {
    ExitOwn(s, step, s');
    hide Base, OwnOk, ExitNext;
    BaseOwn(s, step.c, step.p, s');
  }

  lemma WaitOwn(s: State, step: Step, s': State)
    requires Base(s) && WaitNext(s, step, s')
    ensures OwnOk(s, step.c, step.p, s')
  {
    Here(s, step.c, step.p);
    hide Base, HereOk, OwnOk, WaitNext;
    if step.WaitCall? || step.WaitReturn? { WaitOwnB(s, step, s'); } else { WaitOwnA(s, step, s'); }
  }

  lemma WaitOwnA(s: State, step: Step, s': State)
    requires WaitNext(s, step, s') && HereOk(s, step.c, step.p) && !(step.WaitCall? || step.WaitReturn?)
    ensures OwnOk(s, step.c, step.p, s')
  {
  }

  lemma WaitOwnB(s: State, step: Step, s': State)
    requires WaitNext(s, step, s') && HereOk(s, step.c, step.p) && (step.WaitCall? || step.WaitReturn?)
    ensures OwnOk(s, step.c, step.p, s')
  {
  }

  lemma BaseWait(s: State, step: Step, s': State)
    requires Base(s) && WaitNext(s, step, s')
    ensures Base(s')
  {
    WaitOwn(s, step, s');
    hide Base, OwnOk, WaitNext;
    BaseOwn(s, step.c, step.p, s');
  }

  // Steps that also change the record of another process.

  /** Moving on to pc after another process was changed. */
  lemma ThenPc(s: State, c: nat, p: nat, pc: Pc, locks': map<Lock, nat>)
    requires Base(s) && At(s, c, p) && ThreadOk(s, c, p, s.procs[p].(pc := pc), locks')
    ensures Base(SetPc(s, p, pc).(locks := locks'))
  {
    ThreadStep(s, c, p, s.procs[p].(pc := pc), locks');
  }

  lemma UnlockedParked(s: State, p: nat)
    requires Base(s) && p < |s.procs| && s.procs[p].lock == None
    ensures s.procs[p].at == None ==> Parked(s.procs[p]) && s.procs[p].state != RUNNING && ChanOk(p, s.procs[p].pc)
    ensures s.procs[p].at != None ==> s.procs[p].state == RUNNING
  {
    assert ProcInv(s, p);
  }

  lemma BaseWake(s: State, step: Step, s': State)
    requires Base(s) && WakeNext(s, step, s') && step.WakeStep?
    ensures Base(s')
  {
    hide Base;
    var c, p := step.c, step.p;
    Here(s, c, p);
    var i := s.procs[p].pc.i;
    var chan, k := s.procs[p].pc.chan, s.procs[p].pc.k;
    var s1 := if i == p then s else SetProc(s, i, Woken(s.procs[i], chan));
    if i != p {
      UnlockedParked(s, i);
      OtherStep(s, i, Woken(s.procs[i], chan));
    }
    ThenPc(s1, c, p, Waking(chan, i + 1, k), s.locks);
  }

  lemma BaseReparent(s: State, step: Step, s': State)
    requires Base(s) && FamilyNext(s, step, s') && step.ReparentStep?
    ensures Base(s')
  {
    hide Base;
    var c, p := step.c, step.p;
    Here(s, c, p);
    var i := s.procs[p].pc.i;
    if s.procs[i].parent == Some(p) {
      OtherStep(s, i, s.procs[i].(parent := Some(s.init)));
      var s1 := SetProc(s, i, s.procs[i].(parent := Some(s.init)));
      ThenPc(s1, c, p, Waking(ProcChan(s.init), 0, ToReparent(i + 1)), s.locks);
    } else {
      ThenPc(s, c, p, ReparentAt(i + 1), s.locks);
    }
  }

  lemma BaseReap(s: State, step: Step, s': State)
    requires Base(s) && FamilyNext(s, step, s') && step.Reap?
    ensures Base(s')
  {
    hide Base;
    var c, p := step.c, step.p;
    Here(s, c, p);
    var i := s.procs[p].pc.i;
    UnlockedParked(s, i);
    if step.copied { OtherStep(s, i, Freed(s.procs[i])); }
    var s1 := if step.copied then SetProc(s, i, Freed(s.procs[i])) else s;
    ThenPc(s1, c, p, Run, s.locks - {WaitLock});
  }

  lemma BaseKill(s: State, step: Step, s': State)
    requires Base(s) && FamilyNext(s, step, s') && step.Kill?
    ensures Base(s')
  {
    hide Base;
    UnlockedParked(s, step.q);
    OtherStep(s, step.q, s'.procs[step.q]);
  }

  lemma BaseIntrWake(s: State, step: Step, s': State)
    requires Base(s) && WakeNext(s, step, s') && !step.WakeStep?
    ensures Base(s')
  {
    hide Base;
    var c := step.c;
    HandlerHolds(s, c);
    if step.IntrWakeStep? {
      var i := s.cpus[c].pc.i;
      UnlockedParked(s, i);
      OtherStep(s, i, Woken(s.procs[i], s.cpus[c].pc.chan));
      var s1 := SetProc(s, i, Woken(s.procs[i], s.cpus[c].pc.chan));
      HandlerStep(s1, c, s'.cpus[c].pc, s.locks);
    } else {
      HandlerStep(s, c, s'.cpus[c].pc, s.locks);
    }
  }

  /** fork takes charge of a slot that nobody else is filling. */
  lemma TakeSlot(s: State, c: nat, p: nat, child: nat)
    requires Base(s) && AtPc(s, c, p, Run) && child < |s.procs| && s.procs[child].state == USED
    requires forall x: nat :: x < |s.procs| ==> Making(s.procs[x].pc) != Some(child)
    ensures Base(SetPc(s, p, ForkA(child)))
  {
    var s' := SetPc(s, p, ForkA(child));
    Here(s, c, p);
    assert CpuInv(s, c);
    forall x: nat | x < |s'.procs| ensures ProcInv(s', x) { assert ProcInv(s, x); }
    forall x: nat | x < |s'.cpus| ensures CpuInv(s', x) { assert CpuInv(s, x); }
    forall l | l in s'.locks ensures LockInv(s', l) { assert LockInv(s, l); }
    forall x: nat | x < |s'.procs| ensures HeldInv(s', x) { assert HeldInv(s, x); }
    forall x: nat | x < |s'.procs| ensures ForkInv(s', x) { assert ForkInv(s, x); }
    forall x: nat, y: nat | x < |s'.procs| && y < |s'.procs| ensures ForkApart(s', x, y) { assert ForkApart(s, x, y); }
  }

  lemma NoMaker(s: State, q: nat)
    requires Base(s) && q < |s.procs| && s.procs[q].state != USED
    ensures forall x: nat :: x < |s.procs| ==> Making(s.procs[x].pc) != Some(q)
  {
    forall x: nat | x < |s.procs| ensures Making(s.procs[x].pc) != Some(q) { assert ForkInv(s, x); }
  }

  lemma BaseForkAlloc(s: State, step: Step, s': State)
    requires Base(s) && FamilyNext(s, step, s') && step.ForkAlloc?
    ensures Base(s')
  {
    hide Base;
    var c, p, q := step.c, step.p, step.q;
    UnlockedParked(s, q);
    NoMaker(s, q);
    OtherStep(s, q, s.procs[q].(state := USED));
    TakeSlot(SetProc(s, q, s.procs[q].(state := USED)), c, p, q);
  }

  lemma OnlyMaker(s: State, p: nat)
    requires Base(s) && p < |s.procs| && Making(s.procs[p].pc).Some?
    ensures var q := Making(s.procs[p].pc).value;
            && q < |s.procs| && s.procs[q].state == USED
            && forall x: nat :: x < |s.procs| && x != p ==> Making(s.procs[x].pc) != Some(q)
  {
    assert ForkInv(s, p);
    forall x: nat | x < |s.procs| && x != p ensures Making(s.procs[x].pc) != Making(s.procs[p].pc) {
      assert ForkApart(s, p, x);
    }
  }

  lemma BaseForkRun(s: State, step: Step, s': State)
    requires Base(s) && FamilyNext(s, step, s') && step.ForkRun?
    ensures Base(s')
  {
    hide Base;
    var c, p := step.c, step.p;
    var q := s.procs[p].pc.child;
    Here(s, c, p);
    OnlyMaker(s, p);
    UnlockedParked(s, q);
    ThenPc(s, c, p, Run, s.locks);
    var s1 := SetPc(s, p, Run).(locks := s.locks);
    OtherStep(s1, q, s.procs[q].(state := RUNNABLE));
    assert s' == SetProc(s1, q, s.procs[q].(state := RUNNABLE));
  }

  lemma BaseForkParent(s: State, step: Step, s': State)
    requires Base(s) && FamilyNext(s, step, s') && step.ForkParent?
    ensures Base(s')
  {
    hide Base;
    var c, p := step.c, step.p;
    var q := s.procs[p].pc.child;
    Here(s, c, p);
    OnlyMaker(s, p);
    OtherStep(s, q, s.procs[q].(parent := Some(p)));
    ThenPc(SetProc(s, q, s.procs[q].(parent := Some(p))), c, p, ForkB(q), s.locks);
  }

  lemma SchedulerHoldsNone(s: State, c: nat)
    requires Base(s) && c < |s.cpus|
    requires !s.cpus[c].pc.Idle? && !s.cpus[c].pc.IntrWaking? && !s.cpus[c].pc.Away?
    ensures HoldsNone(s, c)
  {
    forall l | l in s.locks ensures s.locks[l] != c { assert LockInv(s, l); }
  }

  lemma BaseSwtch(s: State, step: Step, s': State)
    requires Base(s) && SwitchNext(s, step, s') && (step.Swtch? || step.SchedLock?)
    ensures Base(s')
  {
    var c, p := step.c, step.p;
    assert ProcInv(s, p) && CpuInv(s, c);
    if step.Swtch? { Here(s, c, p); }
    HandStep(s, c, s'.cpus[c], p, s'.procs[p], s');
  }

  lemma BaseScheduler(s: State, step: Step, s': State)
    requires Base(s) && SwitchNext(s, step, s') && !step.Swtch? && !step.SchedLock?
    ensures Base(s')
  {
    var c := step.c;
    var p := s.cpus[c].pc.p;
    assert CpuInv(s, c) && ProcInv(s, p);
    SchedulerHoldsNone(s, c);
    assert s' == s.(procs := s.procs[p := s'.procs[p]], cpus := s.cpus[c := s'.cpus[c]]);
    HandStep(s, c, s'.cpus[c], p, s'.procs[p], s');
  }

  lemma BaseNext(s: State, step: Step, s': State)
    requires Base(s) && Next(s, step, s')
    ensures Base(s')
  {
    hide Base, LockNext, SleepNext, ResumeNext, ExitNext, WaitNext, WakeNext, FamilyNext, SwitchNext;
    if LockNext(s, step, s') { BaseLocks(s, step, s'); }
    else if SleepNext(s, step, s') { BaseSleep(s, step, s'); }
    else if ResumeNext(s, step, s') { BaseResume(s, step, s'); }
    else if ExitNext(s, step, s') { BaseExit(s, step, s'); }
    else if WaitNext(s, step, s') { BaseWait(s, step, s'); }
    else if WakeNext(s, step, s') { if step.WakeStep? { BaseWake(s, step, s'); } else { BaseIntrWake(s, step, s'); } }
    else if FamilyNext(s, step, s') { BaseFamily(s, step, s'); }
    else if step.Swtch? || step.SchedLock? { BaseSwtch(s, step, s'); }
    else { BaseScheduler(s, step, s'); }
  }

  lemma BaseFamily(s: State, step: Step, s': State)
    requires Base(s) && FamilyNext(s, step, s')
    ensures Base(s')
  {
    hide Base;
    match step {
      case ReparentStep(_, _) => BaseReparent(s, step, s');
      case Reap(_, _, _) => BaseReap(s, step, s');
      case ForkAlloc(_, _, _) => BaseForkAlloc(s, step, s');
      case ForkParent(_, _) => BaseForkParent(s, step, s');
      case ForkRun(_, _) => BaseForkRun(s, step, s');
      case _ => BaseKill(s, step, s');
    }
  }
}
