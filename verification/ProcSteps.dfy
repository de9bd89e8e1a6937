/**
 What every step of the process machine keeps, clause by clause: the step changes
 its own process and at most one other, so each clause about a process p, or about
 two processes p and q, follows from the same clause, and from who holds the
 spinlocks, before the step.
 */
module ProcSteps {
  import opened Proc

  /** The other process a step may change. */
  function Touched(s: Sys, e: Event): (x: Pid)
    requires e.p < |s.procs|
    ensures x < |s.procs|
  {
    var pr := s.procs[e.p];
    var x := match e
      case WakeOther(_) => if pr.mode.Waking? then pr.mode.i else e.p
      case Fork(_, c) => c
      case ForkFails(_) => if pr.job.Forked? then pr.job.child else e.p
      case ForkParent(_) => if pr.job.Forked? then pr.job.child else e.p
      case ForkStart(_) => if pr.job.Parented? then pr.job.child else e.p
      case ScanChild(_) => if pr.job.Scan? then pr.job.i else e.p
      case Reap(_) => if pr.job.Scan? then pr.job.i else e.p
      case GiveChild(_) => if pr.job.Reparent? then pr.job.i else e.p
      case Kill(_, v) => v
      case _ => e.p;
    if x < |s.procs| then x else e.p
  }

  /** The step's own process, the one it touches and p are in order. */
  predicate Near(s: Sys, e: Event, p: Pid) {
    && e.p < |s.procs| && p < |s.procs| && s.init < |s.procs|
    && Coherent(s, e.p) && Coherent(s, Touched(s, e)) && Coherent(s, p)
  }

  predicate Around(s: Sys, e: Event, p: Pid, q: Pid) {
    Near(s, e, p) && q < |s.procs| && Coherent(s, q)
  }

  /** The guard of the channel a process is waking. */
  function WakeGuard(pr: Process): (g: Spin) {
    if pr.mode.Waking? then Guard(pr.mode.c) else WAIT
  }

  // ---- Job, mode, state and parent of a process stay in step ----

  lemma SchedKeepsShape(s: Sys, e: Event, s': Sys, p: Pid)
    requires Near(s, e, p) && (SleepStep(s, e, s') || EndStep(s, e, s'))
    requires SpinOk(s, p, WAIT) && SpinOk(s, e.p, WAIT)
    requires ForkOk(s, e.p, p) && ForkOk(s, p, e.p)
    ensures |s'.procs| == |s.procs| && s'.init == s.init && ModeOk(s'.procs[p], p, s.init) && LinkOk(s', p)
  {
  }

  lemma WakeKeepsShape(s: Sys, e: Event, s': Sys, p: Pid)
    requires Near(s, e, p) && WakeStep(s, e, s')
    requires SpinOk(s, p, WAIT) && SpinOk(s, e.p, WAIT)
    requires ForkOk(s, e.p, p) && ForkOk(s, p, e.p)
    ensures |s'.procs| == |s.procs| && s'.init == s.init && ModeOk(s'.procs[p], p, s.init) && LinkOk(s', p)
  {
  }

  lemma LockKeepsShape(s: Sys, e: Event, s': Sys, p: Pid)
    requires Near(s, e, p) && LockStep(s, e, s')
    requires SpinOk(s, p, WAIT) && SpinOk(s, e.p, WAIT)
    requires ForkOk(s, e.p, p) && ForkOk(s, p, e.p)
    ensures |s'.procs| == |s.procs| && s'.init == s.init && ModeOk(s'.procs[p], p, s.init) && LinkOk(s', p)
  {
  }

  lemma ForkKeepsShape(s: Sys, e: Event, s': Sys, p: Pid)
    requires Near(s, e, p) && ForkStep(s, e, s')
    requires SpinOk(s, p, WAIT) && SpinOk(s, e.p, WAIT)
    requires ForkOk(s, e.p, p) && ForkOk(s, p, e.p)
    ensures |s'.procs| == |s.procs| && s'.init == s.init && ModeOk(s'.procs[p], p, s.init) && LinkOk(s', p)
  {
  }

  lemma WaitKeepsShape(s: Sys, e: Event, s': Sys, p: Pid)
    requires Near(s, e, p) && WaitStep(s, e, s')
    requires SpinOk(s, p, WAIT) && SpinOk(s, e.p, WAIT)
    requires ForkOk(s, e.p, p) && ForkOk(s, p, e.p)
    ensures |s'.procs| == |s.procs| && s'.init == s.init && ModeOk(s'.procs[p], p, s.init) && LinkOk(s', p)
  {
  }

  lemma ExitKeepsShape(s: Sys, e: Event, s': Sys, p: Pid)
    requires Near(s, e, p) && ExitStep(s, e, s')
    requires SpinOk(s, p, WAIT) && SpinOk(s, e.p, WAIT)
    requires ForkOk(s, e.p, p) && ForkOk(s, p, e.p)
    ensures |s'.procs| == |s.procs| && s'.init == s.init && ModeOk(s'.procs[p], p, s.init) && LinkOk(s', p)
  {
  }

  lemma KeepsShape(s: Sys, e: Event, s': Sys, p: Pid)
    requires Near(s, e, p) && Next(s, e, s')
    requires SpinOk(s, p, WAIT) && SpinOk(s, e.p, WAIT)
    requires ForkOk(s, e.p, p) && ForkOk(s, p, e.p)
    ensures |s'.procs| == |s.procs| && s'.init == s.init && ModeOk(s'.procs[p], p, s.init) && LinkOk(s', p)
  {
    if SleepStep(s, e, s') || EndStep(s, e, s') {
      SchedKeepsShape(s, e, s', p);
    } else if WakeStep(s, e, s') {
      WakeKeepsShape(s, e, s', p);
    } else if LockStep(s, e, s') {
      LockKeepsShape(s, e, s', p);
    } else if ForkStep(s, e, s') {
      ForkKeepsShape(s, e, s', p);
    } else if WaitStep(s, e, s') {
      WaitKeepsShape(s, e, s', p);
    } else {
      ExitKeepsShape(s, e, s', p);
    }
  }

  // ---- Spinlocks are held where the code says ----

  lemma SchedKeepsSpin(s: Sys, e: Event, s': Sys, p: Pid, g: Spin)
    requires Near(s, e, p) && (SleepStep(s, e, s') || EndStep(s, e, s'))
    requires SpinOk(s, p, g) && SpinOk(s, e.p, g)
    ensures SpinOk(s', p, g)
  {
  }

  lemma SyncKeepsSpin(s: Sys, e: Event, s': Sys, p: Pid, g: Spin)
    requires Near(s, e, p) && (WakeStep(s, e, s') || LockStep(s, e, s'))
    requires SpinOk(s, p, g) && SpinOk(s, e.p, g)
    ensures SpinOk(s', p, g)
  {
  }

  lemma KinKeepsSpin(s: Sys, e: Event, s': Sys, p: Pid, g: Spin)
    requires Near(s, e, p) && (ForkStep(s, e, s') || WaitStep(s, e, s'))
    requires SpinOk(s, p, g) && SpinOk(s, e.p, g)
    ensures SpinOk(s', p, g)
  {
  }

  lemma ExitKeepsSpin(s: Sys, e: Event, s': Sys, p: Pid, g: Spin)
    requires Near(s, e, p) && ExitStep(s, e, s')
    requires SpinOk(s, p, g) && SpinOk(s, e.p, g)
    ensures SpinOk(s', p, g)
  {
  }

  lemma KeepsSpin(s: Sys, e: Event, s': Sys, p: Pid, g: Spin)
    requires Near(s, e, p) && Next(s, e, s')
    requires SpinOk(s, p, g) && SpinOk(s, e.p, g)
    ensures SpinOk(s', p, g)
  {
    if SleepStep(s, e, s') || EndStep(s, e, s') {
      SchedKeepsSpin(s, e, s', p, g);
    } else if WakeStep(s, e, s') || LockStep(s, e, s') {
      SyncKeepsSpin(s, e, s', p, g);
    } else if ForkStep(s, e, s') || WaitStep(s, e, s') {
      KinKeepsSpin(s, e, s', p, g);
    } else {
      ExitKeepsSpin(s, e, s', p, g);
    }
  }

  // ---- The lock fields name the holder, and no unlock is missed ----

  lemma SchedKeepsLock(s: Sys, e: Event, s': Sys, p: Pid, l: Lock)
    requires Near(s, e, p) && (SleepStep(s, e, s') || EndStep(s, e, s'))
    requires HeldOk(s, p, l) && HeldOk(s, e.p, l) && SpinOk(s, p, l + 1) && SpinOk(s, e.p, l + 1)
    requires UnlockOk(s, p, l)
    ensures HeldOk(s', p, l) && UnlockOk(s', p, l)
  {
  }

  lemma WakeKeepsLock(s: Sys, e: Event, s': Sys, p: Pid, l: Lock)
    requires Near(s, e, p) && WakeStep(s, e, s')
    requires HeldOk(s, p, l) && HeldOk(s, e.p, l) && SpinOk(s, p, l + 1) && SpinOk(s, e.p, l + 1)
    requires UnlockOk(s, p, l)
    ensures HeldOk(s', p, l) && UnlockOk(s', p, l)
  {
  }

  lemma LockKeepsLock(s: Sys, e: Event, s': Sys, p: Pid, l: Lock)
    requires Near(s, e, p) && LockStep(s, e, s')
    requires HeldOk(s, p, l) && HeldOk(s, e.p, l) && SpinOk(s, p, l + 1) && SpinOk(s, e.p, l + 1)
    requires UnlockOk(s, p, l)
    ensures HeldOk(s', p, l) && UnlockOk(s', p, l)
  {
  }

  lemma ForkKeepsLock(s: Sys, e: Event, s': Sys, p: Pid, l: Lock)
    requires Near(s, e, p) && ForkStep(s, e, s')
    requires HeldOk(s, p, l) && HeldOk(s, e.p, l) && SpinOk(s, p, l + 1) && SpinOk(s, e.p, l + 1)
    requires UnlockOk(s, p, l)
    ensures HeldOk(s', p, l) && UnlockOk(s', p, l)
  {
  }

  lemma WaitKeepsLock(s: Sys, e: Event, s': Sys, p: Pid, l: Lock)
    requires Near(s, e, p) && WaitStep(s, e, s')
    requires HeldOk(s, p, l) && HeldOk(s, e.p, l) && SpinOk(s, p, l + 1) && SpinOk(s, e.p, l + 1)
    requires UnlockOk(s, p, l)
    ensures HeldOk(s', p, l) && UnlockOk(s', p, l)
  {
  }

  lemma ExitKeepsLock(s: Sys, e: Event, s': Sys, p: Pid, l: Lock)
    requires Near(s, e, p) && ExitStep(s, e, s')
    requires HeldOk(s, p, l) && HeldOk(s, e.p, l) && SpinOk(s, p, l + 1) && SpinOk(s, e.p, l + 1)
    requires UnlockOk(s, p, l)
    ensures HeldOk(s', p, l) && UnlockOk(s', p, l)
  {
  }

  lemma KeepsLock(s: Sys, e: Event, s': Sys, p: Pid, l: Lock)
    requires Near(s, e, p) && Next(s, e, s')
    requires HeldOk(s, p, l) && HeldOk(s, e.p, l) && SpinOk(s, p, l + 1) && SpinOk(s, e.p, l + 1)
    requires UnlockOk(s, p, l)
    ensures HeldOk(s', p, l) && UnlockOk(s', p, l)
  {
    if SleepStep(s, e, s') || EndStep(s, e, s') {
      SchedKeepsLock(s, e, s', p, l);
    } else if WakeStep(s, e, s') {
      WakeKeepsLock(s, e, s', p, l);
    } else if LockStep(s, e, s') {
      LockKeepsLock(s, e, s', p, l);
    } else if ForkStep(s, e, s') {
      ForkKeepsLock(s, e, s', p, l);
    } else if WaitStep(s, e, s') {
      WaitKeepsLock(s, e, s', p, l);
    } else {
      ExitKeepsLock(s, e, s', p, l);
    }
  }

  // ---- wakeup leaves nobody behind it ----

  lemma SchedKeepsPassed(s: Sys, e: Event, s': Sys, p: Pid, q: Pid)
    requires Around(s, e, p, q) && (SleepStep(s, e, s') || EndStep(s, e, s'))
    requires PassedOk(s, p, q) && SpinOk(s, p, WakeGuard(s.procs[p])) && SpinOk(s, q, WakeGuard(s.procs[p]))
    ensures PassedOk(s', p, q)
  {
  }

  lemma SyncKeepsPassed(s: Sys, e: Event, s': Sys, p: Pid, q: Pid)
    requires Around(s, e, p, q) && (WakeStep(s, e, s') || LockStep(s, e, s'))
    requires PassedOk(s, p, q) && SpinOk(s, p, WakeGuard(s.procs[p])) && SpinOk(s, q, WakeGuard(s.procs[p]))
    ensures PassedOk(s', p, q)
  {
  }

  lemma KinKeepsPassed(s: Sys, e: Event, s': Sys, p: Pid, q: Pid)
    requires Around(s, e, p, q) && (ForkStep(s, e, s') || WaitStep(s, e, s'))
    requires PassedOk(s, p, q) && SpinOk(s, p, WakeGuard(s.procs[p])) && SpinOk(s, q, WakeGuard(s.procs[p]))
    ensures PassedOk(s', p, q)
  {
  }

  lemma ExitKeepsPassed(s: Sys, e: Event, s': Sys, p: Pid, q: Pid)
    requires Around(s, e, p, q) && ExitStep(s, e, s')
    requires PassedOk(s, p, q) && SpinOk(s, p, WakeGuard(s.procs[p])) && SpinOk(s, q, WakeGuard(s.procs[p]))
    ensures PassedOk(s', p, q)
  {
  }

  lemma KeepsPassed(s: Sys, e: Event, s': Sys, p: Pid, q: Pid)
    requires Around(s, e, p, q) && Next(s, e, s')
    requires PassedOk(s, p, q) && SpinOk(s, p, WakeGuard(s.procs[p])) && SpinOk(s, q, WakeGuard(s.procs[p]))
    ensures PassedOk(s', p, q)
  {
    if SleepStep(s, e, s') || EndStep(s, e, s') {
      SchedKeepsPassed(s, e, s', p, q);
    } else if WakeStep(s, e, s') || LockStep(s, e, s') {
      SyncKeepsPassed(s, e, s', p, q);
    } else if ForkStep(s, e, s') || WaitStep(s, e, s') {
      KinKeepsPassed(s, e, s', p, q);
    } else {
      ExitKeepsPassed(s, e, s', p, q);
    }
  }

  // ---- A dying process leaves its parent awake ----

  lemma SchedKeepsDie(s: Sys, e: Event, s': Sys, p: Pid, q: Pid)
    requires Around(s, e, p, q) && (SleepStep(s, e, s') || EndStep(s, e, s'))
    requires DieOk(s, p) && (s.procs[p].parent >= 0 ==> q == s.procs[p].parent) && PassedOk(s, p, q)
    requires SpinOk(s, p, WAIT) && SpinOk(s, q, WAIT) && SpinOk(s, e.p, WAIT)
    ensures DieOk(s', p)
  {
  }

  lemma WakeKeepsDie(s: Sys, e: Event, s': Sys, p: Pid, q: Pid)
    requires Around(s, e, p, q) && WakeStep(s, e, s')
    requires DieOk(s, p) && (s.procs[p].parent >= 0 ==> q == s.procs[p].parent) && PassedOk(s, p, q)
    requires SpinOk(s, p, WAIT) && SpinOk(s, q, WAIT) && SpinOk(s, e.p, WAIT)
    ensures DieOk(s', p)
  {
  }

  lemma LockKeepsDie(s: Sys, e: Event, s': Sys, p: Pid, q: Pid)
    requires Around(s, e, p, q) && LockStep(s, e, s')
    requires DieOk(s, p) && (s.procs[p].parent >= 0 ==> q == s.procs[p].parent) && PassedOk(s, p, q)
    requires SpinOk(s, p, WAIT) && SpinOk(s, q, WAIT) && SpinOk(s, e.p, WAIT)
    ensures DieOk(s', p)
  {
  }

  lemma ForkKeepsDie(s: Sys, e: Event, s': Sys, p: Pid, q: Pid)
    requires Around(s, e, p, q) && ForkStep(s, e, s')
    requires DieOk(s, p) && (s.procs[p].parent >= 0 ==> q == s.procs[p].parent) && PassedOk(s, p, q)
    requires SpinOk(s, p, WAIT) && SpinOk(s, q, WAIT) && SpinOk(s, e.p, WAIT)
    ensures DieOk(s', p)
  {
  }

  lemma WaitKeepsDie(s: Sys, e: Event, s': Sys, p: Pid, q: Pid)
    requires Around(s, e, p, q) && WaitStep(s, e, s')
    requires DieOk(s, p) && (s.procs[p].parent >= 0 ==> q == s.procs[p].parent) && PassedOk(s, p, q)
    requires SpinOk(s, p, WAIT) && SpinOk(s, q, WAIT) && SpinOk(s, e.p, WAIT)
    ensures DieOk(s', p)
  {
  }

  lemma ExitKeepsDie(s: Sys, e: Event, s': Sys, p: Pid, q: Pid)
    requires Around(s, e, p, q) && ExitStep(s, e, s')
    requires DieOk(s, p) && (s.procs[p].parent >= 0 ==> q == s.procs[p].parent) && PassedOk(s, p, q)
    requires SpinOk(s, p, WAIT) && SpinOk(s, q, WAIT) && SpinOk(s, e.p, WAIT)
    ensures DieOk(s', p)
  {
  }

  lemma KeepsDie(s: Sys, e: Event, s': Sys, p: Pid, q: Pid)
    requires Around(s, e, p, q) && Next(s, e, s')
    requires DieOk(s, p) && (s.procs[p].parent >= 0 ==> q == s.procs[p].parent) && PassedOk(s, p, q)
    requires SpinOk(s, p, WAIT) && SpinOk(s, q, WAIT) && SpinOk(s, e.p, WAIT)
    ensures DieOk(s', p)
  {
    if SleepStep(s, e, s') || EndStep(s, e, s') {
      SchedKeepsDie(s, e, s', p, q);
    } else if WakeStep(s, e, s') {
      WakeKeepsDie(s, e, s', p, q);
    } else if LockStep(s, e, s') {
      LockKeepsDie(s, e, s', p, q);
    } else if ForkStep(s, e, s') {
      ForkKeepsDie(s, e, s', p, q);
    } else if WaitStep(s, e, s') {
      WaitKeepsDie(s, e, s', p, q);
    } else {
      ExitKeepsDie(s, e, s', p, q);
    }
  }

  // ---- A scan misses no zombie, and no slot is set up by two forks ----

  lemma SchedKeepsScan(s: Sys, e: Event, s': Sys, p: Pid, q: Pid)
    requires Around(s, e, p, q) && (SleepStep(s, e, s') || EndStep(s, e, s'))
    requires ScanOk(s, p, q) && ForkOk(s, p, q)
    requires SpinOk(s, p, WAIT) && SpinOk(s, e.p, WAIT)
    ensures ScanOk(s', p, q) && ForkOk(s', p, q)
  {
  }

  lemma WakeKeepsScan(s: Sys, e: Event, s': Sys, p: Pid, q: Pid)
    requires Around(s, e, p, q) && WakeStep(s, e, s')
    requires ScanOk(s, p, q) && ForkOk(s, p, q)
    requires SpinOk(s, p, WAIT) && SpinOk(s, e.p, WAIT)
    ensures ScanOk(s', p, q) && ForkOk(s', p, q)
  {
  }

  lemma LockKeepsScan(s: Sys, e: Event, s': Sys, p: Pid, q: Pid)
    requires Around(s, e, p, q) && LockStep(s, e, s')
    requires ScanOk(s, p, q) && ForkOk(s, p, q)
    requires SpinOk(s, p, WAIT) && SpinOk(s, e.p, WAIT)
    ensures ScanOk(s', p, q) && ForkOk(s', p, q)
  {
  }

  lemma ForkKeepsScan(s: Sys, e: Event, s': Sys, p: Pid, q: Pid)
    requires Around(s, e, p, q) && ForkStep(s, e, s')
    requires ScanOk(s, p, q) && ForkOk(s, p, q)
    requires SpinOk(s, p, WAIT) && SpinOk(s, e.p, WAIT)
    ensures ScanOk(s', p, q) && ForkOk(s', p, q)
  {
  }

  lemma WaitKeepsScan(s: Sys, e: Event, s': Sys, p: Pid, q: Pid)
    requires Around(s, e, p, q) && WaitStep(s, e, s')
    requires ScanOk(s, p, q) && ForkOk(s, p, q)
    requires SpinOk(s, p, WAIT) && SpinOk(s, e.p, WAIT)
    ensures ScanOk(s', p, q) && ForkOk(s', p, q)
  {
  }

  lemma ExitKeepsScan(s: Sys, e: Event, s': Sys, p: Pid, q: Pid)
    requires Around(s, e, p, q) && ExitStep(s, e, s')
    requires ScanOk(s, p, q) && ForkOk(s, p, q)
    requires SpinOk(s, p, WAIT) && SpinOk(s, e.p, WAIT)
    ensures ScanOk(s', p, q) && ForkOk(s', p, q)
  {
  }

  lemma KeepsScan(s: Sys, e: Event, s': Sys, p: Pid, q: Pid)
    requires Around(s, e, p, q) && Next(s, e, s')
    requires ScanOk(s, p, q) && ForkOk(s, p, q)
    requires SpinOk(s, p, WAIT) && SpinOk(s, e.p, WAIT)
    ensures ScanOk(s', p, q) && ForkOk(s', p, q)
  {
    if SleepStep(s, e, s') || EndStep(s, e, s') {
      SchedKeepsScan(s, e, s', p, q);
    } else if WakeStep(s, e, s') {
      WakeKeepsScan(s, e, s', p, q);
    } else if LockStep(s, e, s') {
      LockKeepsScan(s, e, s', p, q);
    } else if ForkStep(s, e, s') {
      ForkKeepsScan(s, e, s', p, q);
    } else if WaitStep(s, e, s') {
      WaitKeepsScan(s, e, s', p, q);
    } else {
      ExitKeepsScan(s, e, s', p, q);
    }
  }

  // ---- No exit is missed ----

  lemma SleepKeepsExit(s: Sys, e: Event, s': Sys, p: Pid, q: Pid)
    requires Around(s, e, p, q) && SleepStep(s, e, s')
    requires ExitOk(s, p, q) && ScanOk(s, p, q) && DieOk(s, q) && SpinOk(s, p, WAIT) && SpinOk(s, e.p, WAIT)
    ensures ExitOk(s', p, q)
  {
    assert s'.procs[q].parent == s.procs[q].parent && (s'.procs[q].state.Zombie? ==> s.procs[q].state.Zombie?);
  }

  lemma EndKeepsExit(s: Sys, e: Event, s': Sys, p: Pid, q: Pid)
    requires Around(s, e, p, q) && EndStep(s, e, s')
    requires ExitOk(s, p, q) && ScanOk(s, p, q) && DieOk(s, q) && SpinOk(s, p, WAIT) && SpinOk(s, e.p, WAIT)
    ensures ExitOk(s', p, q)
  {
  }

  lemma WakeKeepsExit(s: Sys, e: Event, s': Sys, p: Pid, q: Pid)
    requires Around(s, e, p, q) && WakeStep(s, e, s')
    requires ExitOk(s, p, q) && ScanOk(s, p, q) && DieOk(s, q) && SpinOk(s, p, WAIT) && SpinOk(s, e.p, WAIT)
    ensures ExitOk(s', p, q)
  {
  }

  lemma LockKeepsExit(s: Sys, e: Event, s': Sys, p: Pid, q: Pid)
    requires Around(s, e, p, q) && LockStep(s, e, s')
    requires ExitOk(s, p, q) && ScanOk(s, p, q) && DieOk(s, q) && SpinOk(s, p, WAIT) && SpinOk(s, e.p, WAIT)
    ensures ExitOk(s', p, q)
  {
  }

  lemma ForkKeepsExit(s: Sys, e: Event, s': Sys, p: Pid, q: Pid)
    requires Around(s, e, p, q) && ForkStep(s, e, s')
    requires ExitOk(s, p, q) && ScanOk(s, p, q) && DieOk(s, q) && SpinOk(s, p, WAIT) && SpinOk(s, e.p, WAIT)
    ensures ExitOk(s', p, q)
  {
  }

  lemma WaitKeepsExit(s: Sys, e: Event, s': Sys, p: Pid, q: Pid)
    requires Around(s, e, p, q) && WaitStep(s, e, s')
    requires ExitOk(s, p, q) && ScanOk(s, p, q) && DieOk(s, q) && SpinOk(s, p, WAIT) && SpinOk(s, e.p, WAIT)
    ensures ExitOk(s', p, q)
  {
  }

  lemma ExitKeepsExit(s: Sys, e: Event, s': Sys, p: Pid, q: Pid)
    requires Around(s, e, p, q) && ExitStep(s, e, s')
    requires ExitOk(s, p, q) && ScanOk(s, p, q) && DieOk(s, q) && SpinOk(s, p, WAIT) && SpinOk(s, e.p, WAIT)
    ensures ExitOk(s', p, q)
  {
  }

  lemma KeepsExit(s: Sys, e: Event, s': Sys, p: Pid, q: Pid)
    requires Around(s, e, p, q) && Next(s, e, s')
    requires ExitOk(s, p, q) && ScanOk(s, p, q) && DieOk(s, q) && SpinOk(s, p, WAIT) && SpinOk(s, e.p, WAIT)
    ensures ExitOk(s', p, q)
  {
    if SleepStep(s, e, s') {
      SleepKeepsExit(s, e, s', p, q);
    } else if EndStep(s, e, s') {
      EndKeepsExit(s, e, s', p, q);
    } else if WakeStep(s, e, s') {
      WakeKeepsExit(s, e, s', p, q);
    } else if LockStep(s, e, s') {
      LockKeepsExit(s, e, s', p, q);
    } else if ForkStep(s, e, s') {
      ForkKeepsExit(s, e, s', p, q);
    } else if WaitStep(s, e, s') {
      WaitKeepsExit(s, e, s', p, q);
    } else {
      ExitKeepsExit(s, e, s', p, q);
    }
  }
}
