/** The process state machine of kernel/proc.c.

    Any number of CPUs run the threads of any number of processes.  Locks are
    held by CPUs.  A process lock is held across swtch: the thread that gives
    up its CPU takes it and the scheduler of that CPU releases it, and the other
    way round.  A critical section that another thread's operation runs under
    a single process lock (one iteration of wakeup, kill, or wait's look at a child) is
    one step, enabled when that lock is free.

    Where a thread holds no lock it may be interrupted: a handler then acquires and
    releases locks and calls wakeup in its place, or it is preempted and goes on at the
    same point later.
 */
module Processes {
  import opened Wrappers

  datatype RunState = UNUSED | USED | SLEEPING | RUNNABLE | RUNNING | ZOMBIE

  datatype Lock = WaitLock | Lk(id: nat)

  /** What a process sleeps on: a process address (in wait), or anything else, which
      carries the lock that its sleepers pass to sleep. */
  datatype Chan = ProcChan(p: nat) | Other(lk: nat, id: nat)

  function Guard(chan: Chan): (l: Lock)
  {
    if chan.ProcChan? then WaitLock else Lk(chan.lk)
  }

  /** Where a call of wakeup returns to: ToPc(to) is a call at `to`, also by an interrupt
      handler that came at that point. */
  datatype Caller = ToPc(to: Pc) | ToReparent(next: nat) | ToExit

  /** Why a thread calls sched; a preempted one goes on at `to`. */
  datatype Why = Sleeping(chan: Chan) | Yielding(to: Pc) | Exiting

  /** Where the kernel thread of a process is. */
  datatype Pc =
    | Unborn                                    // has not run yet: will start in forkret
    | Run                                       // outside the operations below
    | SleepA(chan: Chan)                        // in sleep, before it takes its own lock
    | SleepB(chan: Chan)                        // before release(lk)
    | SleepC(chan: Chan)                        // before it marks itself SLEEPING
    | Sched(why: Why)                           // before swtch
    | Back(why: Why)                            // behind swtch
    | Relock(chan: Chan)                        // before acquire(lk)
    | Waking(chan: Chan, i: nat, k: Caller)     // in wakeup, at slot i
    | ReparentAt(i: nat)                        // in exit, at slot i of reparent
    | ExitD                                     // in exit, before it takes its own lock
    | ExitF                                     // before release(&wait_lock)
    | WaitAt(i: nat, kids: bool)                // in wait, at slot i
    | ForkA(child: nat)                         // in fork, before acquire(&wait_lock)
    | ForkB(child: nat)                         // before the child is made RUNNABLE

  /** Points where interrupts may be enabled: no lock of the operations below is held. */
  predicate Interruptible(pc: Pc)
  {
    pc.Run? || pc.Relock? || pc.ForkA? || pc.ForkB?
  }

  datatype Proc = Proc(state: RunState, chan: Option<Chan>, parent: Option<nat>,
                       lock: Option<nat>, at: Option<nat>, pc: Pc, killed: bool)

  /** Where the scheduler thread of a CPU is; Away while the CPU runs a process. */
  datatype SchedPc =
    | Idle
    | Hold(p: nat)                // holds the lock of p
    | Picked(p: nat)              // before swtch to p
    | Away(p: nat)                // the CPU is on the kernel stack of p
    | Returned(p: nat)            // behind swtch, still recorded as running p
    | Drop(p: nat)                // before release of the lock of p
    | IntrWaking(chan: Chan, i: nat)  // an interrupt handler in wakeup

  datatype Cpu = Cpu(cur: Option<nat>, pc: SchedPc)

  datatype State = State(procs: seq<Proc>, cpus: seq<Cpu>, locks: map<Lock, nat>, init: nat)

  datatype Step =
    | Acquire(c: nat, p: nat, l: nat) | Release(c: nat, p: nat, l: nat)
    | IntrAcquire(c: nat, l: nat) | IntrRelease(c: nat, l: nat)
    | SleepCall(c: nat, p: nat, chan: Chan) | SleepLock(c: nat, p: nat) | SleepUnlock(c: nat, p: nat)
    | SleepSet(c: nat, p: nat) | Swtch(c: nat, p: nat) | Resume(c: nat, p: nat) | SleepRelock(c: nat, p: nat)
    | WakeCall(c: nat, p: nat, chan: Chan) | WakeStep(c: nat, p: nat) | WakeReturn(c: nat, p: nat)
    | IntrWake(c: nat, chan: Chan) | IntrWakeStep(c: nat) | IntrWakeReturn(c: nat)
    | Yield(c: nat, p: nat)
    | ExitCall(c: nat, p: nat) | ReparentStep(c: nat, p: nat) | ExitTell(c: nat, p: nat)
    | ExitZombie(c: nat, p: nat) | ExitUnlock(c: nat, p: nat)
    | WaitCall(c: nat, p: nat) | WaitStep(c: nat, p: nat) | Reap(c: nat, p: nat, copied: bool)
    | WaitReturn(c: nat, p: nat) | WaitSleep(c: nat, p: nat)
    | ForkAlloc(c: nat, p: nat, q: nat) | ForkParent(c: nat, p: nat) | ForkRun(c: nat, p: nat)
    | Kill(c: nat, p: nat, q: nat)
    | SchedLock(c: nat, p: nat) | Pick(c: nat) | Pass(c: nat) | Dispatch(c: nat) | ClearCur(c: nat)
    | SchedUnlock(c: nat)

  /** CPU c runs process p. */
  predicate At(s: State, c: nat, p: nat)
  {
    c < |s.cpus| && p < |s.procs| && s.cpus[c].pc == Away(p)
  }

  predicate AtPc(s: State, c: nat, p: nat, pc: Pc)
  {
    At(s, c, p) && s.procs[p].pc == pc
  }

  predicate Sched0(s: State, c: nat)
  {
    c < |s.cpus| && s.cpus[c].pc == Idle
  }

  ghost predicate HoldsNone(s: State, c: nat)
  {
    forall l :: l in s.locks ==> s.locks[l] != c
  }

  ghost predicate HoldsOnly(s: State, c: nat, l: Lock)
  {
    l in s.locks && s.locks[l] == c && forall m :: m in s.locks && m != l ==> s.locks[m] != c
  }

  function SetProc(s: State, p: nat, q: Proc): (r: State)
    requires p < |s.procs|
  {
    s.(procs := s.procs[p := q])
  }

  function SetPc(s: State, p: nat, pc: Pc): (r: State)
    requires p < |s.procs|
  {
    s.(procs := s.procs[p := s.procs[p].(pc := pc)])
  }

  function SetCpu(s: State, c: nat, d: Cpu): (r: State)
    requires c < |s.cpus|
  {
    s.(cpus := s.cpus[c := d])
  }

  /** What one iteration of wakeup makes of a process: a sleeper on chan may run again. */
  function Woken(q: Proc, chan: Chan): (r: Proc)
  {
    if q.state == SLEEPING && q.chan == Some(chan) then q.(state := RUNNABLE) else q
  }

  /** What freeproc leaves. */
  function Freed(q: Proc): (r: Proc)
  {
    q.(state := UNUSED, chan := None, parent := None, pc := Unborn, killed := false)
  }

  function Return(k: Caller): (pc: Pc)
  {
    match k
    case ToPc(to) => to
    case ToReparent(i) => ReparentAt(i)
    case ToExit => ExitD
  }

  /** acquire and release of any spinlock but wait_lock, by a thread, by an interrupt handler
      that came while it ran, or by one that came to an idle CPU */
  ghost predicate LockNext(s: State, step: Step, s': State)
  {
    match step
    case Acquire(c, p, l) =>
      At(s, c, p) && Interruptible(s.procs[p].pc) && Lk(l) !in s.locks && s' == s.(locks := s.locks[Lk(l) := c])
    case Release(c, p, l) =>
      && At(s, c, p) && Interruptible(s.procs[p].pc) && Lk(l) in s.locks && s.locks[Lk(l)] == c
      && s' == s.(locks := s.locks - {Lk(l)})
    case IntrAcquire(c, l) =>
      Sched0(s, c) && Lk(l) !in s.locks && s' == s.(locks := s.locks[Lk(l) := c])
    case IntrRelease(c, l) =>
      Sched0(s, c) && Lk(l) in s.locks && s.locks[Lk(l)] == c && s' == s.(locks := s.locks - {Lk(l)})
    case _ => false
  }

  /** sleep up to the call of swtch, and yield */
  ghost predicate SleepNext(s: State, step: Step, s': State)
  {
    match step
    case SleepCall(c, p, chan) =>
      AtPc(s, c, p, Run) && chan.Other? && HoldsOnly(s, c, Guard(chan)) && s' == SetPc(s, p, SleepA(chan))
    case SleepLock(c, p) =>
      && At(s, c, p) && s.procs[p].pc.SleepA? && s.procs[p].lock == None
      && s' == SetProc(s, p, s.procs[p].(lock := Some(c), pc := SleepB(s.procs[p].pc.chan)))
    case SleepUnlock(c, p) =>
      && At(s, c, p) && s.procs[p].pc.SleepB?
      && s' == SetPc(s, p, SleepC(s.procs[p].pc.chan)).(locks := s.locks - {Guard(s.procs[p].pc.chan)})
    case SleepSet(c, p) =>
      && At(s, c, p) && s.procs[p].pc.SleepC?
      && var chan := s.procs[p].pc.chan;
         s' == SetProc(s, p, s.procs[p].(state := SLEEPING, chan := Some(chan), pc := Sched(Sleeping(chan))))
    case Yield(c, p) =>
      && At(s, c, p) && Interruptible(s.procs[p].pc) && HoldsNone(s, c) && s.procs[p].lock == None
      && s' == SetProc(s, p, s.procs[p].(lock := Some(c), state := RUNNABLE, pc := Sched(Yielding(s.procs[p].pc))))
    case _ => false
  }

  /** behind swtch, and around wakeup */
  ghost predicate ResumeNext(s: State, step: Step, s': State)
  {
    match step
    case Resume(c, p) =>
      && At(s, c, p)
      && var q := s.procs[p];
         && (q.pc.Unborn? || (q.pc.Back? && !q.pc.why.Exiting?))
         && s' == SetProc(s, p,
                    if q.pc.Unborn? then q.(lock := None, pc := Run)
                    else if q.pc.why.Sleeping? then q.(lock := None, chan := None, pc := Relock(q.pc.why.chan))
                    else q.(lock := None, pc := q.pc.why.to))
    case SleepRelock(c, p) =>
      && At(s, c, p) && s.procs[p].pc.Relock? && HoldsNone(s, c) && Guard(s.procs[p].pc.chan) !in s.locks
      && s' == SetPc(s, p, if s.procs[p].pc.chan.ProcChan? then WaitAt(0, false) else Run)
               .(locks := s.locks[Guard(s.procs[p].pc.chan) := c])
    case WakeCall(c, p, chan) =>
      && At(s, c, p) && Interruptible(s.procs[p].pc) && chan.Other?
      && s' == SetPc(s, p, Waking(chan, 0, ToPc(s.procs[p].pc)))
    case WakeReturn(c, p) =>
      && At(s, c, p) && s.procs[p].pc.Waking? && s.procs[p].pc.i == |s.procs|
      && s' == SetPc(s, p, Return(s.procs[p].pc.k))
    case _ => false
  }

  /** one iteration of wakeup, by a thread or by an interrupt handler */
  ghost predicate WakeNext(s: State, step: Step, s': State)
  {
    match step
    case WakeStep(c, p) =>
      && At(s, c, p) && s.procs[p].pc.Waking? && s.procs[p].pc.i < |s.procs|
      && var i := s.procs[p].pc.i;
         var next := Waking(s.procs[p].pc.chan, i + 1, s.procs[p].pc.k);
         if i == p then s' == SetPc(s, p, next)
         else s.procs[i].lock == None && s' == SetPc(SetProc(s, i, Woken(s.procs[i], s.procs[p].pc.chan)), p, next)
    case IntrWake(c, chan) =>
      Sched0(s, c) && chan.Other? && s' == SetCpu(s, c, s.cpus[c].(pc := IntrWaking(chan, 0)))
    case IntrWakeStep(c) =>
      && c < |s.cpus| && s.cpus[c].pc.IntrWaking? && s.cpus[c].pc.i < |s.procs|
      && var i := s.cpus[c].pc.i;
         && s.procs[i].lock == None
         && s' == SetCpu(SetProc(s, i, Woken(s.procs[i], s.cpus[c].pc.chan)), c,
                         s.cpus[c].(pc := IntrWaking(s.cpus[c].pc.chan, i + 1)))
    case IntrWakeReturn(c) =>
      && c < |s.cpus| && s.cpus[c].pc.IntrWaking? && s.cpus[c].pc.i == |s.procs|
      && s' == SetCpu(s, c, s.cpus[c].(pc := Idle))
    case _ => false
  }

  /** exit */
  ghost predicate ExitNext(s: State, step: Step, s': State)
  {
    match step
    case ExitCall(c, p) =>
      && AtPc(s, c, p, Run) && p != s.init && HoldsNone(s, c) && WaitLock !in s.locks
      && s' == SetPc(s, p, ReparentAt(0)).(locks := s.locks[WaitLock := c])
    case ExitTell(c, p) =>
      && At(s, c, p) && s.procs[p].pc.ReparentAt? && s.procs[p].pc.i == |s.procs|
      && s' == SetPc(s, p, if s.procs[p].parent.Some?
                           then Waking(ProcChan(s.procs[p].parent.value), 0, ToExit)
                           else ExitD)
    case ExitZombie(c, p) =>
      && AtPc(s, c, p, ExitD) && s.procs[p].lock == None
      && s' == SetProc(s, p, s.procs[p].(lock := Some(c), state := ZOMBIE, pc := ExitF))
    case ExitUnlock(c, p) =>
      && AtPc(s, c, p, ExitF)
      && s' == SetPc(s, p, Sched(Exiting)).(locks := s.locks - {WaitLock})
    case _ => false
  }

  /** wait */
  ghost predicate WaitNext(s: State, step: Step, s': State)
  {
    match step
    case WaitCall(c, p) =>
      && AtPc(s, c, p, Run) && HoldsNone(s, c) && WaitLock !in s.locks
      && s' == SetPc(s, p, WaitAt(0, false)).(locks := s.locks[WaitLock := c])
    case WaitStep(c, p) =>
      && At(s, c, p) && s.procs[p].pc.WaitAt? && s.procs[p].pc.i < |s.procs|
      && var i := s.procs[p].pc.i;
         if s.procs[i].parent == Some(p)
         then s.procs[i].lock == None && s.procs[i].state != ZOMBIE && s' == SetPc(s, p, WaitAt(i + 1, true))
         else s' == SetPc(s, p, WaitAt(i + 1, s.procs[p].pc.kids))
    case WaitReturn(c, p) =>
      && At(s, c, p) && s.procs[p].pc.WaitAt? && s.procs[p].pc.i == |s.procs|
      && (!s.procs[p].pc.kids || s.procs[p].killed)
      && s' == SetPc(s, p, Run).(locks := s.locks - {WaitLock})
    case WaitSleep(c, p) =>
      && At(s, c, p) && s.procs[p].pc.WaitAt? && s.procs[p].pc.i == |s.procs|
      && s.procs[p].pc.kids && !s.procs[p].killed
      && s' == SetPc(s, p, SleepA(ProcChan(p)))
    case _ => false
  }

  /** steps that change another process: reparent, wait's freeproc, fork and kill */
  ghost predicate FamilyNext(s: State, step: Step, s': State)
  {
    match step
    case ReparentStep(c, p) =>
      && At(s, c, p) && s.procs[p].pc.ReparentAt? && s.procs[p].pc.i < |s.procs|
      && var i := s.procs[p].pc.i;
         if s.procs[i].parent == Some(p)
         then s' == SetPc(SetProc(s, i, s.procs[i].(parent := Some(s.init))), p,
             Waking(ProcChan(s.init), 0, ToReparent(i + 1)))
         else s' == SetPc(s, p, ReparentAt(i + 1))
    case Reap(c, p, copied) =>
      && At(s, c, p) && s.procs[p].pc.WaitAt? && s.procs[p].pc.i < |s.procs|
      && var i := s.procs[p].pc.i;
         && s.procs[i].parent == Some(p) && s.procs[i].lock == None && s.procs[i].state == ZOMBIE
         && s' == SetPc(if copied then SetProc(s, i, Freed(s.procs[i])) else s, p, Run).(locks := s.locks - {WaitLock})
    case ForkAlloc(c, p, q) =>
      && AtPc(s, c, p, Run) && q < |s.procs| && q != p && s.procs[q].lock == None && s.procs[q].state == UNUSED
      && s' == SetPc(SetProc(s, q, s.procs[q].(state := USED)), p, ForkA(q))
    case ForkParent(c, p) =>
      && At(s, c, p) && s.procs[p].pc.ForkA? && WaitLock !in s.locks && s.procs[p].pc.child < |s.procs|
      && var q := s.procs[p].pc.child;
         s' == SetPc(SetProc(s, q, s.procs[q].(parent := Some(p))), p, ForkB(q))
    case ForkRun(c, p) =>
      && At(s, c, p) && s.procs[p].pc.ForkB? && s.procs[p].pc.child < |s.procs|
      && var q := s.procs[p].pc.child;
         s.procs[q].lock == None && s' == SetPc(SetProc(s, q, s.procs[q].(state := RUNNABLE)), p, Run)
    case Kill(c, p, q) =>
      && AtPc(s, c, p, Run) && q < |s.procs| && s.procs[q].lock == None
      && s' == SetProc(s, q, s.procs[q].(killed := true,
                                         state := if s.procs[q].state == SLEEPING then RUNNABLE else s.procs[q].state))
    case _ => false
  }

  /** scheduler and the two directions of swtch */
  ghost predicate SwitchNext(s: State, step: Step, s': State)
  {
    match step
    case Swtch(c, p) =>
      && At(s, c, p) && s.procs[p].pc.Sched?
      && s' == SetCpu(SetProc(s, p, s.procs[p].(at := None, pc := Back(s.procs[p].pc.why))), c,
          s.cpus[c].(pc := Returned(p)))
    case SchedLock(c, p) =>
      && Sched0(s, c) && HoldsNone(s, c) && p < |s.procs| && s.procs[p].lock == None
      && s' == SetCpu(SetProc(s, p, s.procs[p].(lock := Some(c))), c, s.cpus[c].(pc := Hold(p)))
    case Pick(c) =>
      && c < |s.cpus| && s.cpus[c].pc.Hold? && s.cpus[c].pc.p < |s.procs|
      && var p := s.cpus[c].pc.p;
         && s.procs[p].state == RUNNABLE
         && s' == SetCpu(SetProc(s, p, s.procs[p].(state := RUNNING)), c, Cpu(Some(p), Picked(p)))
    case Pass(c) =>
      && c < |s.cpus| && s.cpus[c].pc.Hold? && s.cpus[c].pc.p < |s.procs|
      && var p := s.cpus[c].pc.p;
         && s.procs[p].state != RUNNABLE
         && s' == SetCpu(SetProc(s, p, s.procs[p].(lock := None)), c, s.cpus[c].(pc := Idle))
    case Dispatch(c) =>
      && c < |s.cpus| && s.cpus[c].pc.Picked? && s.cpus[c].pc.p < |s.procs|
      && var p := s.cpus[c].pc.p;
         s' == SetCpu(SetProc(s, p, s.procs[p].(at := Some(c))), c, s.cpus[c].(pc := Away(p)))
    case ClearCur(c) =>
      && c < |s.cpus| && s.cpus[c].pc.Returned?
      && s' == SetCpu(s, c, Cpu(None, Drop(s.cpus[c].pc.p)))
    case SchedUnlock(c) =>
      && c < |s.cpus| && s.cpus[c].pc.Drop? && s.cpus[c].pc.p < |s.procs|
      && var p := s.cpus[c].pc.p;
         s' == SetCpu(SetProc(s, p, s.procs[p].(lock := None)), c, s.cpus[c].(pc := Idle))
    case _ => false
  }

  ghost predicate Next(s: State, step: Step, s': State)
  {
    LockNext(s, step, s')
    || SleepNext(s, step, s')
    || ResumeNext(s, step, s')
    || WakeNext(s, step, s')
    || ExitNext(s, step, s')
    || WaitNext(s, step, s')
    || FamilyNext(s, step, s')
    || SwitchNext(s, step, s')
  }

  /** userinit: one process, ready to run for the first time; every CPU in its scheduler. */
  ghost predicate Init(s: State)
  {
    && s.init < |s.procs| && s.locks == map[]
    && (forall c :: 0 <= c < |s.cpus| ==> s.cpus[c] == Cpu(None, Idle))
    && (forall p :: 0 <= p < |s.procs| ==>
          s.procs[p] == Proc(if p == s.init then RUNNABLE else UNUSED, None, None, None, None, Unborn, false))
  }

  // ---- The invariant ----------------------------------------------------

  /** Asleep on chan, or past the point in sleep where the channel's lock is released. */
  predicate Asleep(q: Proc, chan: Chan)
  {
    q.pc == SleepC(chan) || (q.state == SLEEPING && q.chan == Some(chan))
  }

  /** The thread itself holds its process lock here. */
  predicate OwnLock(pc: Pc)
  {
    pc.SleepB? || pc.SleepC? || pc.Sched? || pc.Back? || pc.Unborn? || pc.ExitF?
  }

  /** What a thread that has left its CPU may be waiting to do. */
  predicate Parked(q: Proc)
  {
    && (q.pc.Unborn? || q.pc.Back?)
    && match q.state
       case UNUSED => q.pc.Unborn?
       case USED => q.pc.Unborn?
       case SLEEPING => q.pc.Back? && q.pc.why.Sleeping? && q.chan == Some(q.pc.why.chan)
       case ZOMBIE => q.pc == Back(Exiting)
       case RUNNABLE => q.pc != Back(Exiting)
       case RUNNING => q.pc != Back(Exiting)
  }

  /** What a thread on a CPU may be doing in which state. */
  predicate Executing(q: Proc)
  {
    && (q.pc.Sched? ==>
          match q.pc.why
          case Sleeping(chan) => q.state == SLEEPING && q.chan == Some(chan)
          case Yielding(_) => q.state == RUNNABLE
          case Exiting => q.state == ZOMBIE)
    && (q.pc == ExitF ==> q.state == ZOMBIE)
    && (!q.pc.Sched? && q.pc != ExitF ==> q.state == RUNNING)
    && (q.pc.Back? ==> q.pc.why != Exiting)
  }

  /** A process waits only for its own children, and is interrupted only where it may be. */
  predicate ChanOk(p: nat, pc: Pc)
  {
    && (ChanOf(pc).Some? && ChanOf(pc).value.ProcChan? ==> ChanOf(pc).value.p == p)
    && ((pc.Sched? || pc.Back?) && pc.why.Yielding? ==> Interruptible(pc.why.to))
    && (pc.Waking? && pc.k.ToPc? ==> Interruptible(pc.k.to))
  }

  /** Where a thread is, or goes on after an interruption. */
  function Inner(pc: Pc): (r: Pc)
  {
    if (pc.Sched? || pc.Back?) && pc.why.Yielding? then pc.why.to else if pc.Waking? && pc.k.ToPc? then pc.k.to else pc
  }

  /** The channel in the pc of a thread in sleep. */
  function ChanOf(pc: Pc): (r: Option<Chan>)
  {
    var at := Inner(pc);
    if at.SleepA? || at.SleepB? || at.SleepC? || at.Relock? then Some(at.chan)
    else if (at.Sched? || at.Back?) && at.why.Sleeping? then Some(at.why.chan)
    else None
  }

  /** A scheduler that holds the lock of p. */
  predicate Handling(pc: SchedPc, p: nat)
  {
    pc == Hold(p) || pc == Picked(p) || pc == Returned(p) || pc == Drop(p)
  }

  ghost predicate ProcInv(s: State, p: nat)
    requires p < |s.procs|
  {
    var q := s.procs[p];
    && ChanOk(p, q.pc)
    && (q.at.None? ==> Parked(q))
    && (q.at.Some? ==>
          && q.at.value < |s.cpus| && s.cpus[q.at.value].pc == Away(p)
          && Executing(q) && (OwnLock(q.pc) <==> q.lock == q.at))
    && (q.lock.Some? && q.lock != q.at ==>
          q.lock.value < |s.cpus| && Handling(s.cpus[q.lock.value].pc, p))
    && (q.state == RUNNING && q.at.None? ==> q.lock.Some? && s.cpus[q.lock.value].pc == Picked(p))
  }

  ghost predicate CpuInv(s: State, c: nat)
    requires c < |s.cpus|
  {
    var d := s.cpus[c];
    match d.pc
    case Idle => d.cur == None
    case IntrWaking(_, _) => d.cur == None
    case Hold(p) => d.cur == None && p < |s.procs| && s.procs[p].lock == Some(c) && s.procs[p].at != Some(c)
    case Picked(p) =>
      && d.cur == Some(p) && p < |s.procs| && s.procs[p].lock == Some(c) && s.procs[p].at == None
      && s.procs[p].state == RUNNING
    case Away(p) => d.cur == Some(p) && p < |s.procs| && s.procs[p].at == Some(c)
    case Returned(p) =>
      && d.cur == Some(p) && p < |s.procs| && s.procs[p].lock == Some(c) && s.procs[p].at == None
      && s.procs[p].state != RUNNING
    case Drop(p) => d.cur == None && p < |s.procs| && s.procs[p].lock == Some(c) && s.procs[p].at == None
  }

  /** The locks that a thread at pc may hold. */
  predicate MayHold(pc: Pc, l: Lock)
  {
    match pc
    case Run => l != WaitLock
    case ForkA(_) => l != WaitLock
    case ForkB(_) => l != WaitLock
    case Relock(_) => l != WaitLock
    case SleepA(chan) => l == Guard(chan)
    case SleepB(chan) => l == Guard(chan)
    case Waking(_, _, k) => if k.ToPc? then l != WaitLock else l == WaitLock
    case ReparentAt(_) => l == WaitLock
    case ExitD => l == WaitLock
    case ExitF => l == WaitLock
    case WaitAt(_, _) => l == WaitLock
    case _ => false
  }

  /** A lock that a thread at pc holds for certain. */
  function MustHold(pc: Pc): (r: Option<Lock>)
  {
    match pc
    case SleepA(chan) => Some(Guard(chan))
    case SleepB(chan) => Some(Guard(chan))
    case Waking(_, _, k) => if k.ToPc? then None else Some(WaitLock)
    case ReparentAt(_) => Some(WaitLock)
    case ExitD => Some(WaitLock)
    case ExitF => Some(WaitLock)
    case WaitAt(_, _) => Some(WaitLock)
    case _ => None
  }

  ghost predicate LockInv(s: State, l: Lock)
    requires l in s.locks
  {
    var c := s.locks[l];
    && c < |s.cpus|
    && match s.cpus[c].pc
       case Idle => l != WaitLock
       case IntrWaking(_, _) => l != WaitLock
       case Away(p) => p < |s.procs| && MayHold(s.procs[p].pc, l)
       case _ => false
  }

  ghost predicate HeldInv(s: State, p: nat)
    requires p < |s.procs|
  {
    var q := s.procs[p];
    MustHold(q.pc).Some? ==>
      MustHold(q.pc).value in s.locks && q.at == Some(s.locks[MustHold(q.pc).value])
  }

  /** No process below i is asleep on chan. */
  ghost predicate AwakeBelow(s: State, chan: Chan, i: nat)
  {
    forall q: nat :: q < i && q < |s.procs| ==> !Asleep(s.procs[q], chan)
  }

  /** A wakeup whose caller holds the channel's lock has left nobody asleep behind it. */
  ghost predicate WakeInv(s: State, p: nat)
    requires p < |s.procs|
  {
    var q := s.procs[p];
    q.pc.Waking? && q.at.Some? && Guard(q.pc.chan) in s.locks && s.locks[Guard(q.pc.chan)] == q.at.value ==>
      AwakeBelow(s, q.pc.chan, q.pc.i)
  }

  ghost predicate IntrWakeInv(s: State, c: nat)
    requires c < |s.cpus|
  {
    var d := s.cpus[c];
    d.pc.IntrWaking? && Guard(d.pc.chan) in s.locks && s.locks[Guard(d.pc.chan)] == c ==>
      AwakeBelow(s, d.pc.chan, d.pc.i)
  }

  /** No child of p below i is a zombie. */
  ghost predicate NoZombieBelow(s: State, p: nat, i: nat)
  {
    forall q: nat :: q < i && q < |s.procs| ==> !(s.procs[q].parent == Some(p) && s.procs[q].state == ZOMBIE)
  }

  ghost predicate WaitInv(s: State, p: nat)
    requires p < |s.procs|
  {
    var q := s.procs[p];
    && (q.pc.WaitAt? ==> NoZombieBelow(s, p, q.pc.i))
    && ((q.pc.SleepA? || q.pc.SleepB?) && q.pc.chan.ProcChan? ==> NoZombieBelow(s, p, |s.procs|))
    && (q.pc == ExitD && q.parent.Some? && q.parent.value < |s.procs| ==>
          !Asleep(s.procs[q.parent.value], ProcChan(q.parent.value)))
    && (q.pc.Waking? && q.pc.k.ToExit? ==> q.pc.chan.ProcChan? && q.parent == Some(q.pc.chan.p))
    && (q.pc.Waking? && q.pc.k.ToReparent? ==> q.pc.chan == ProcChan(s.init))
  }

  /** wait_lock is held by a process that is waking up init for a child it just gave to it. */
  ghost predicate Handing(s: State)
  {
    && WaitLock in s.locks && s.locks[WaitLock] < |s.cpus|
    && var c := s.locks[WaitLock];
       && s.cpus[c].pc.Away? && s.cpus[c].pc.p < |s.procs|
       && var x := s.procs[s.cpus[c].pc.p]; x.pc.Waking? && x.pc.k.ToReparent?
  }

  /** p sleeps in wait (or is about to) although its child q is a zombie. */
  predicate Missed(s: State, p: nat, q: nat)
    requires p < |s.procs| && q < |s.procs|
  {
    Asleep(s.procs[p], ProcChan(p)) && s.procs[q].parent == Some(p) && s.procs[q].state == ZOMBIE
  }

  ghost predicate MissInv(s: State, p: nat, q: nat)
    requires p < |s.procs| && q < |s.procs|
  {
    Missed(s, p, q) ==> p == s.init && Handing(s)
  }

  /** Only its maker touches a child that fork has not finished. */
  ghost predicate ForkInv(s: State, p: nat)
    requires p < |s.procs|
  {
    var child := Making(s.procs[p].pc);
    child.Some? ==> child.value < |s.procs| && s.procs[child.value].state == USED
  }

  /** The slot that a thread in fork is filling. */
  function Making(pc: Pc): (r: Option<nat>)
  {
    var at := Inner(pc);
    if at.ForkA? || at.ForkB? then Some(at.child) else None
  }

  ghost predicate ForkApart(s: State, p: nat, q: nat)
    requires p < |s.procs| && q < |s.procs|
  {
    p != q && Making(s.procs[p].pc).Some? ==> Making(s.procs[p].pc) != Making(s.procs[q].pc)
  }

  /** Who holds what, and which thread is where. */
  ghost predicate Base(s: State)
  {
    && s.init < |s.procs|
    && (forall p: nat {:trigger ProcInv(s, p)} :: p < |s.procs| ==> ProcInv(s, p))
    && (forall c: nat {:trigger CpuInv(s, c)} :: c < |s.cpus| ==> CpuInv(s, c))
    && (forall l {:trigger LockInv(s, l)} :: l in s.locks ==> LockInv(s, l))
    && (forall p: nat {:trigger HeldInv(s, p)} :: p < |s.procs| ==> HeldInv(s, p))
    && (forall p: nat {:trigger ForkInv(s, p)} :: p < |s.procs| ==> ForkInv(s, p))
    && (forall p: nat, q: nat {:trigger ForkApart(s, p, q)} :: p < |s.procs| && q < |s.procs| ==> ForkApart(s, p, q))
  }

  ghost predicate Wakes(s: State)
  {
    && (forall p: nat {:trigger WakeInv(s, p)} :: p < |s.procs| ==> WakeInv(s, p))
    && (forall c: nat {:trigger IntrWakeInv(s, c)} :: c < |s.cpus| ==> IntrWakeInv(s, c))
  }

  ghost predicate Waits(s: State)
  {
    && (forall p: nat {:trigger WaitInv(s, p)} :: p < |s.procs| ==> WaitInv(s, p))
    && (forall p: nat, q: nat {:trigger MissInv(s, p, q)} :: p < |s.procs| && q < |s.procs| ==> MissInv(s, p, q))
  }

  ghost predicate Inv(s: State)
  {
    Base(s) && Wakes(s) && Waits(s)
  }

  lemma InitInv(s: State)
    requires Init(s)
    ensures Inv(s)
  {
  }
}
