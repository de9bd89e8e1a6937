/**
 Sleep and wakeup (kernel/proc.c), sleeplocks (kernel/sleeplock.c), and exit and
 wait, as one machine of interleaved steps.  Spinlocks give mutual exclusion.  A
 critical section that takes and drops one lock without blocking is one step; the
 places where a lock is held across a point at which others run are separate
 steps.  Any number of processes, any number of sleeplocks.
 */
module Proc {

  type Pid = nat   // slot in the process table
  type Lock = nat  // a sleeplock
  type Spin = nat  // 0 is wait_lock, l + 1 is the inner spinlock of sleeplock l

  const WAIT: Spin := 0

  datatype Chan = LockChan(l: Lock) | ProcChan(p: Pid)

  /** The spinlock that goes with a channel. */
  function Guard(c: Chan): (s: Spin) {
    match c case LockChan(l) => l + 1 case ProcChan(_) => WAIT
  }

  datatype PState = Unused | Used | Sleeping | Runnable | Running | Zombie

  /** Where a process stands in sleep(), wakeup(), or the scheduler. */
  datatype Mode =
    | Absent                         // no thread in this slot
    | Run                            // in client code
    | ToSleep(stage: nat, c: Chan)   // 0: entered; 1: has p->lock; 2: released the guard; 3: marked SLEEPING
    | Asleep(c: Chan)                // switched out
    | Resumed(c: Chan)               // switched in, has p->lock
    | Relock(c: Chan)                // wants the guard back
    | Waking(c: Chan, i: nat)        // in wakeup's loop
    | Dying                          // ZOMBIE, still has p->lock
    | Gone                           // switched out for ever

  /** What the client code is doing. */
  datatype Job =
    | Nothing
    | Acquiring(l: Lock)             // acquiresleep, at the test of `locked`
    | Releasing(l: Lock)             // releasesleep, before clearing `locked`
    | Released(l: Lock)              // releasesleep, wakeup called
    | Scan(i: nat, kids: bool)       // kwait's scan
    | Reparent(i: nat)               // kexit: handing children to init
    | Die                            // kexit: parent woken
    | Forked(child: Pid)             // kfork: child allocated
    | Parented(child: Pid)           // kfork: child's parent set

  datatype Process = Process(
    state: PState, chan: Chan, parent: int, killed: bool, held: set<Lock>, mode: Mode, job: Job)

  datatype Sys = Sys(procs: seq<Process>, spin: map<Spin, Pid>, locked: map<Lock, Pid>, init: Pid)

  /** p->lock is held across steps only by its own process. */
  predicate HasOwnLock(pr: Process) {
    (pr.mode.ToSleep? && pr.mode.stage >= 1) || pr.mode.Resumed? || pr.mode.Dying?
  }

  /** Released the guard and not yet made runnable again: asleep on c, or bound to be. */
  predicate Committed(pr: Process, c: Chan) {
    || (pr.mode.ToSleep? && pr.mode.stage >= 2 && pr.mode.c == c)
    || (pr.mode == Asleep(c) && pr.state.Sleeping?)
  }

  function Set(s: Sys, p: Pid, pr: Process): (s': Sys)
    requires p < |s.procs|
  {
    s.(procs := s.procs[p := pr])
  }

  datatype Event =
    // sleep, wakeup, scheduler
    | SleepLock(p: Pid) | SleepRelease(p: Pid) | SleepMark(p: Pid) | SwitchOut(p: Pid)
    | SwitchIn(p: Pid) | Tidy(p: Pid) | Reacquire(p: Pid)
    | WakeSelf(p: Pid) | WakeOther(p: Pid) | WakeDone(p: Pid)
    // sleeplocks
    | AcquireSleep(p: Pid, l: Lock) | FindBusy(p: Pid) | FindFree(p: Pid)
    | ReleaseSleep(p: Pid, l: Lock) | Clear(p: Pid) | Unlock(p: Pid)
    // fork, wait, exit, kill
    | Fork(p: Pid, child: Pid) | ForkFails(p: Pid) | ForkParent(p: Pid) | ForkStart(p: Pid)
    | Wait(p: Pid) | ScanOther(p: Pid) | ScanChild(p: Pid) | Reap(p: Pid) | ReapFails(p: Pid)
    | NoWait(p: Pid) | WaitSleep(p: Pid)
    | Exit(p: Pid) | KeepParent(p: Pid) | GiveChild(p: Pid) | WakeParent(p: Pid) | BecomeZombie(p: Pid) | LastSwitch(p: Pid)
    | Kill(p: Pid, victim: Pid)

  /** sleep() and the switches it makes. */
  predicate SleepStep(s: Sys, e: Event, s': Sys)
    requires e.p < |s.procs|
  {
    var p, pr := e.p, s.procs[e.p];
    match e
    case SleepLock(_) =>
      pr.mode.ToSleep? && pr.mode.stage == 0 && s' == Set(s, p, pr.(mode := ToSleep(1, pr.mode.c)))
    case SleepRelease(_) =>
      && pr.mode.ToSleep? && pr.mode.stage == 1
      && s' == Set(s, p, pr.(mode := ToSleep(2, pr.mode.c))).(spin := s.spin - {Guard(pr.mode.c)})
    case SleepMark(_) =>
      && pr.mode.ToSleep? && pr.mode.stage == 2
      && s' == Set(s, p, pr.(mode := ToSleep(3, pr.mode.c), chan := pr.mode.c, state := Sleeping))
    case SwitchOut(_) =>
      pr.mode.ToSleep? && pr.mode.stage == 3 && s' == Set(s, p, pr.(mode := Asleep(pr.mode.c)))
    case SwitchIn(_) =>
      && pr.mode.Asleep? && pr.state.Runnable?
      && s' == Set(s, p, pr.(mode := Resumed(pr.mode.c), state := Running))
    case Tidy(_) =>
      pr.mode.Resumed? && s' == Set(s, p, pr.(mode := Relock(pr.mode.c)))
    case Reacquire(_) =>
      && pr.mode.Relock? && Guard(pr.mode.c) !in s.spin
      && s' == Set(s, p, pr.(mode := Run)).(spin := s.spin[Guard(pr.mode.c) := p])
    case _ => false
  }

  /** What wakeup(c) does to one process. */
  function Woken(pr: Process, c: Chan): (r: Process) {
    if pr.state.Sleeping? && pr.chan == c then pr.(state := Runnable) else pr
  }

  /** wakeup(): look at every other process in turn, under its lock. */
  predicate WakeStep(s: Sys, e: Event, s': Sys)
    requires e.p < |s.procs|
  {
    var p, pr := e.p, s.procs[e.p];
    match e
    case WakeSelf(_) =>
      pr.mode.Waking? && pr.mode.i == p && s' == Set(s, p, pr.(mode := Waking(pr.mode.c, p + 1)))
    case WakeOther(_) =>
      && pr.mode.Waking? && pr.mode.i < |s.procs| && pr.mode.i != p && !HasOwnLock(s.procs[pr.mode.i])
      && var i := pr.mode.i;
      s' == Set(Set(s, p, pr.(mode := Waking(pr.mode.c, i + 1))), i, Woken(s.procs[i], pr.mode.c))
    case WakeDone(_) =>
      pr.mode.Waking? && pr.mode.i >= |s.procs| && s' == Set(s, p, pr.(mode := Run))
    case _ => false
  }

  /** acquiresleep and releasesleep. */
  predicate LockStep(s: Sys, e: Event, s': Sys)
    requires e.p < |s.procs|
  {
    var p, pr := e.p, s.procs[e.p];
    && pr.mode.Run?
    && match e
       case AcquireSleep(_, l) =>
         && pr.job.Nothing? && l !in pr.held && l + 1 !in s.spin
         && s' == Set(s, p, pr.(job := Acquiring(l))).(spin := s.spin[l + 1 := p])
       case FindBusy(_) =>
         && pr.job.Acquiring? && pr.job.l in s.locked
         && s' == Set(s, p, pr.(mode := ToSleep(0, LockChan(pr.job.l))))
       case FindFree(_) =>
         && pr.job.Acquiring? && pr.job.l !in s.locked
         && s' == Set(s, p, pr.(job := Nothing, held := pr.held + {pr.job.l}))
                  .(locked := s.locked[pr.job.l := p], spin := s.spin - {pr.job.l + 1})
       case ReleaseSleep(_, l) =>
         && pr.job.Nothing? && l in pr.held && l + 1 !in s.spin
         && s' == Set(s, p, pr.(job := Releasing(l))).(spin := s.spin[l + 1 := p])
       case Clear(_) =>
         && pr.job.Releasing?
         && s' == Set(s, p, pr.(job := Released(pr.job.l), held := pr.held - {pr.job.l}, mode := Waking(LockChan(pr.job.l), 0)))
                  .(locked := s.locked - {pr.job.l})
       case Unlock(_) =>
         && pr.job.Released?
         && s' == Set(s, p, pr.(job := Nothing)).(spin := s.spin - {pr.job.l + 1})
       case _ => false
  }

  /** freeproc. */
  function FreeSlot(): (pr: Process) {
    Process(Unused, ProcChan(0), -1, false, {}, Absent, Nothing)
  }

  /** kfork.  A child's start is one step: it begins with no work. */
  predicate ForkStep(s: Sys, e: Event, s': Sys)
    requires e.p < |s.procs|
  {
    var p, pr := e.p, s.procs[e.p];
    && pr.mode.Run?
    && match e
       case Fork(_, x) =>
         && pr.job.Nothing? && x < |s.procs| && x != p && s.procs[x].state.Unused?
         && s' == Set(Set(s, x, s.procs[x].(state := Used)), p, pr.(job := Forked(x)))
       case ForkFails(_) =>
         && pr.job.Forked? && pr.job.child < |s.procs| && pr.job.child != p
         && s' == Set(Set(s, pr.job.child, FreeSlot()), p, pr.(job := Nothing))
       case ForkParent(_) =>
         && pr.job.Forked? && pr.job.child < |s.procs| && pr.job.child != p && WAIT !in s.spin
         && s' == Set(Set(s, pr.job.child, s.procs[pr.job.child].(parent := p)), p, pr.(job := Parented(pr.job.child)))
       case ForkStart(_) =>
         && pr.job.Parented? && pr.job.child < |s.procs| && pr.job.child != p
         && s' == Set(Set(s, pr.job.child, s.procs[pr.job.child].(state := Runnable, mode := Run)), p, pr.(job := Nothing))
       case _ => false
  }

  /** kwait: scan for a zombie child under wait_lock, else sleep. */
  predicate WaitStep(s: Sys, e: Event, s': Sys)
    requires e.p < |s.procs|
  {
    var p, pr := e.p, s.procs[e.p];
    && pr.mode.Run?
    && match e
       case Wait(_) =>
         && pr.job.Nothing? && WAIT !in s.spin
         && s' == Set(s, p, pr.(job := Scan(0, false))).(spin := s.spin[WAIT := p])
       case ScanOther(_) =>
         && pr.job.Scan? && pr.job.i < |s.procs| && s.procs[pr.job.i].parent != p
         && s' == Set(s, p, pr.(job := Scan(pr.job.i + 1, pr.job.kids)))
       case ScanChild(_) =>
         && pr.job.Scan? && pr.job.i < |s.procs| && s.procs[pr.job.i].parent == p && !HasOwnLock(s.procs[pr.job.i])
         && !s.procs[pr.job.i].state.Zombie?
         && s' == Set(s, p, pr.(job := Scan(pr.job.i + 1, true)))
       case Reap(_) =>
         && pr.job.Scan? && pr.job.i < |s.procs| && s.procs[pr.job.i].parent == p && !HasOwnLock(s.procs[pr.job.i])
         && s.procs[pr.job.i].state.Zombie? && pr.job.i != p
         && s' == Set(Set(s, pr.job.i, FreeSlot()), p, pr.(job := Nothing)).(spin := s.spin - {WAIT})
       case ReapFails(_) => // copyout of the exit status failed
         && pr.job.Scan? && pr.job.i < |s.procs| && s.procs[pr.job.i].parent == p && !HasOwnLock(s.procs[pr.job.i])
         && s.procs[pr.job.i].state.Zombie?
         && s' == Set(s, p, pr.(job := Nothing)).(spin := s.spin - {WAIT})
       case NoWait(_) =>
         && pr.job.Scan? && pr.job.i >= |s.procs| && (!pr.job.kids || pr.killed)
         && s' == Set(s, p, pr.(job := Nothing)).(spin := s.spin - {WAIT})
       case WaitSleep(_) =>
         && pr.job.Scan? && pr.job.i >= |s.procs| && pr.job.kids && !pr.killed
         && s' == Set(s, p, pr.(job := Scan(0, false), mode := ToSleep(0, ProcChan(p))))
       case _ => false
  }

  /** kexit: hand children to init, wake the parent, become a zombie, switch away for good. */
  predicate ExitStep(s: Sys, e: Event, s': Sys)
    requires e.p < |s.procs|
  {
    var p, pr := e.p, s.procs[e.p];
    && pr.mode.Run?
    && match e
       case Exit(_) =>
         && pr.job.Nothing? && p != s.init && pr.held == {} && WAIT !in s.spin
         && s' == Set(s, p, pr.(job := Reparent(0))).(spin := s.spin[WAIT := p])
       case KeepParent(_) =>
         && pr.job.Reparent? && pr.job.i < |s.procs| && s.procs[pr.job.i].parent != p
         && s' == Set(s, p, pr.(job := Reparent(pr.job.i + 1)))
       case GiveChild(_) =>
         && pr.job.Reparent? && pr.job.i < |s.procs| && s.procs[pr.job.i].parent == p && pr.job.i != p
         && s' == Set(Set(s, pr.job.i, s.procs[pr.job.i].(parent := s.init)), p,
                      pr.(job := Reparent(pr.job.i + 1), mode := Waking(ProcChan(s.init), 0)))
       case WakeParent(_) =>
         && pr.job.Reparent? && pr.job.i >= |s.procs| && pr.parent >= 0
         && s' == Set(s, p, pr.(job := Die, mode := Waking(ProcChan(pr.parent), 0)))
       case BecomeZombie(_) =>
         && pr.job.Die?
         && s' == Set(s, p, pr.(state := Zombie, mode := Dying)).(spin := s.spin - {WAIT})
       case _ => false
  }

  /** kkill; and the scheduler's taking a zombie off the CPU. */
  predicate EndStep(s: Sys, e: Event, s': Sys)
    requires e.p < |s.procs|
  {
    var p, pr := e.p, s.procs[e.p];
    match e
    case Kill(_, v) =>
      && pr.mode.Run? && pr.job.Nothing? && v < |s.procs| && !HasOwnLock(s.procs[v]) && !s.procs[v].state.Unused?
      && s' == Set(s, v, s.procs[v].(killed := true, state := if s.procs[v].state.Sleeping? then Runnable else s.procs[v].state))
    case LastSwitch(_) =>
      pr.mode.Dying? && s' == Set(s, p, pr.(mode := Gone))
    case _ => false
  }

  predicate Next(s: Sys, e: Event, s': Sys) {
    && e.p < |s.procs|
    && (|| SleepStep(s, e, s') || WakeStep(s, e, s') || LockStep(s, e, s') || ForkStep(s, e, s')
        || WaitStep(s, e, s') || ExitStep(s, e, s') || EndStep(s, e, s'))
  }

  // ---- The invariant ----

  /** The spinlocks a process holds follow from where it stands. */
  predicate HoldsSpin(pr: Process, g: Spin) {
    match pr.job
    case Acquiring(l) => g == l + 1 && (pr.mode.Run? || (pr.mode.ToSleep? && pr.mode.stage <= 1))
    case Releasing(l) => g == l + 1
    case Released(l) => g == l + 1
    case Scan(_, _) => g == WAIT && (pr.mode.Run? || (pr.mode.ToSleep? && pr.mode.stage <= 1))
    case Reparent(_) => g == WAIT
    case Die => g == WAIT && !pr.mode.Dying? && !pr.mode.Gone?
    case _ => false
  }

  /** In acquiresleep's loop, or in kwait's sleep: the two places that sleep. */
  predicate Sleeper(pr: Process) {
    pr.job.Acquiring? || pr.job == Scan(0, false)
  }

  predicate OnCpu(pr: Process) {
    pr.state.Running? || pr.state.Runnable?
  }

  /** Job, mode, state and channel of one process fit together. */
  predicate ModeOk(pr: Process, p: Pid, init: Pid) {
    && (match pr.mode
        case Absent => pr.job.Nothing? && (pr.state.Unused? || pr.state.Used?) && pr.held == {} && p != init
        case Run => OnCpu(pr)
        case ToSleep(stage, c) => stage <= 3 && Sleeper(pr) && (if stage == 3 then pr.state.Sleeping? && pr.chan == c else OnCpu(pr))
        case Asleep(c) => (pr.state.Sleeping? || pr.state.Runnable?) && pr.chan == c && Sleeper(pr)
        case Resumed(c) => OnCpu(pr) && Sleeper(pr)
        case Relock(c) => OnCpu(pr) && Sleeper(pr)
        case Waking(c, i) => OnCpu(pr) && (pr.job.Released? || pr.job.Reparent? || pr.job.Die?)
        case Dying => pr.state.Zombie? && pr.job.Die?
        case Gone => pr.state.Zombie? && pr.job.Die?)
    && (pr.mode.ToSleep? || pr.mode.Asleep? || pr.mode.Resumed? || pr.mode.Relock? ==>
          pr.mode.c == if pr.job.Acquiring? then LockChan(pr.job.l) else ProcChan(p))
    && (pr.mode.Waking? ==>
          && (pr.job.Released? ==> pr.mode.c == LockChan(pr.job.l))
          && (pr.job.Reparent? ==> pr.mode.c == ProcChan(init))
          && (pr.job.Die? ==> 0 <= pr.parent && pr.mode.c == ProcChan(pr.parent)))
    && (pr.job.Releasing? ==> pr.mode.Run? && pr.job.l in pr.held)
    && (pr.job.Released? || pr.job.Reparent? ==> pr.mode.Run? || pr.mode.Waking?)
    && (pr.job.Reparent? || pr.job.Die? ==> p != init && pr.held == {})
    && (pr.job.Die? ==> 0 <= pr.parent)
    && (pr.job.Forked? || pr.job.Parented? ==> pr.mode.Run?)
  }

  /** A process's parent and the slot it is forking. */
  predicate LinkOk(s: Sys, p: Pid)
    requires p < |s.procs|
  {
    var pr := s.procs[p];
    && -1 <= pr.parent < |s.procs| && pr.parent != p
    && (p == s.init ==> pr.parent == -1)
    && (p != s.init && !pr.mode.Absent? ==> pr.parent >= 0)
    && (pr.job.Forked? || pr.job.Parented? ==>
          && pr.job.child < |s.procs| && pr.job.child != p
          && s.procs[pr.job.child].mode.Absent? && s.procs[pr.job.child].state.Used?)
    && (pr.job.Parented? ==> s.procs[pr.job.child].parent == p)
  }

  predicate Coherent(s: Sys, p: Pid)
    requires p < |s.procs|
  {
    ModeOk(s.procs[p], p, s.init) && LinkOk(s, p)
  }

  ghost predicate AllCoherent(s: Sys) {
    s.init < |s.procs| && forall p :: 0 <= p < |s.procs| ==> Coherent(s, p)
  }

  /** Spinlock g is recorded as p's exactly when p stands inside its critical section. */
  predicate SpinOk(s: Sys, p: Pid, g: Spin) {
    p < |s.procs| ==> (HoldsSpin(s.procs[p], g) <==> g in s.spin && s.spin[g] == p)
  }

  /** A sleeplock's `locked` and `pid` fields name p exactly when p is past acquiresleep. */
  predicate HeldOk(s: Sys, p: Pid, l: Lock) {
    p < |s.procs| ==>
      && (l in s.procs[p].held <==> l in s.locked && s.locked[l] == p)
      && (s.procs[p].job == Acquiring(l) && s.procs[p].mode.ToSleep? && s.procs[p].mode.stage <= 1 ==> l in s.locked)
  }

  /** The holder of c's guard is in wakeup(c) and has yet to look at q. */
  predicate Pending(s: Sys, q: Pid, c: Chan) {
    && Guard(c) in s.spin && s.spin[Guard(c)] < |s.procs|
    && var e := s.procs[s.spin[Guard(c)]];
    e.mode.Waking? && e.mode.c == c && e.mode.i <= q
  }

  /** If q is committed to sleep on a free lock, it is about to be woken. */
  predicate UnlockOk(s: Sys, q: Pid, l: Lock) {
    q < |s.procs| && Committed(s.procs[q], LockChan(l)) ==> l in s.locked || Pending(s, q, LockChan(l))
  }

  /** If x is in wakeup and has passed q, then q is not committed to that channel. */
  predicate PassedOk(s: Sys, x: Pid, q: Pid) {
    x < |s.procs| && q < |s.procs| && q != x && s.procs[x].mode.Waking? && q < s.procs[x].mode.i ==>
      !Committed(s.procs[q], s.procs[x].mode.c)
  }

  /** If p holds wait_lock in kwait and has passed its child x, then x is no zombie. */
  predicate ScanOk(s: Sys, p: Pid, x: Pid) {
    p < |s.procs| && x < |s.procs| && s.procs[x].parent == p && s.procs[p].job.Scan? && HoldsSpin(s.procs[p], WAIT) ==>
      s.procs[p].mode.ToSleep? || x < s.procs[p].job.i ==> !s.procs[x].state.Zombie?
  }

  /** If x is about to become a zombie, its parent is awake. */
  predicate DieOk(s: Sys, x: Pid) {
    x < |s.procs| && s.procs[x].job.Die? && s.procs[x].mode.Run? && 0 <= s.procs[x].parent < |s.procs| ==>
      !Committed(s.procs[s.procs[x].parent], ProcChan(s.procs[x].parent))
  }

  /** If q is committed to sleep in kwait and its child x is a zombie, q is about to be woken. */
  predicate ExitOk(s: Sys, q: Pid, x: Pid) {
    q < |s.procs| && x < |s.procs| && Committed(s.procs[q], ProcChan(q)) && s.procs[x].parent == q ==>
      s.procs[x].state.Zombie? ==> Pending(s, q, ProcChan(q))
  }

  predicate Forking(pr: Process, x: Pid) {
    (pr.job.Forked? || pr.job.Parented?) && pr.job.child == x
  }

  /** No slot is being set up by two forks. */
  predicate ForkOk(s: Sys, p: Pid, q: Pid) {
    p < |s.procs| && q < |s.procs| && (s.procs[p].job.Forked? || s.procs[p].job.Parented?) ==>
      Forking(s.procs[q], s.procs[p].job.child) ==> p == q
  }

  ghost predicate SpinInv(s: Sys) {
    (forall p, g :: SpinOk(s, p, g)) && forall g :: g in s.spin ==> s.spin[g] < |s.procs|
  }

  ghost predicate HeldInv(s: Sys) {
    (forall p, l :: HeldOk(s, p, l)) && forall l :: l in s.locked ==> s.locked[l] < |s.procs|
  }

  ghost predicate Inv(s: Sys) {
    && AllCoherent(s) && SpinInv(s) && HeldInv(s)
    && (forall q, l :: UnlockOk(s, q, l))
    && (forall x, q :: PassedOk(s, x, q))
    && (forall p, x :: ScanOk(s, p, x))
    && (forall x :: DieOk(s, x))
    && (forall q, x :: ExitOk(s, q, x))
    && (forall p, q :: ForkOk(s, p, q))
  }

  /** All processes idle, nothing locked: a freshly booted machine with only init. */
  ghost predicate Init(s: Sys) {
    && s.init < |s.procs| && s.spin == map[] && s.locked == map[]
    && forall p :: 0 <= p < |s.procs| ==>
         s.procs[p] == if p == s.init then FreeSlot().(state := Runnable, mode := Run) else FreeSlot()
  }

  lemma InitInv(s: Sys)
    requires Init(s)
    ensures Inv(s)
  {
    assert forall p :: 0 <= p < |s.procs| ==> Coherent(s, p);
  }
}
