/** Runs of the process machine. */
module ProcRuns {
  import opened Proc
  import opened ProcSteps

  lemma Nearby(s: Sys, e: Event, p: Pid, q: Pid)
    requires Inv(s) && e.p < |s.procs| && p < |s.procs| && q < |s.procs|
    ensures Around(s, e, p, q)
  {
    assert Coherent(s, e.p) && Coherent(s, Touched(s, e)) && Coherent(s, p) && Coherent(s, q);
  }

  lemma ShapeKept(s: Sys, e: Event, s': Sys)
    requires Inv(s) && Next(s, e, s')
    ensures |s'.procs| == |s.procs| && AllCoherent(s')
  {
    Nearby(s, e, e.p, e.p);
    assert SpinOk(s, e.p, WAIT) && ForkOk(s, e.p, e.p);
    KeepsShape(s, e, s', e.p);
    forall p | 0 <= p < |s'.procs| ensures Coherent(s', p) {
      Nearby(s, e, p, p);
      assert SpinOk(s, p, WAIT) && ForkOk(s, e.p, p) && ForkOk(s, p, e.p);
      KeepsShape(s, e, s', p);
    }
  }

  lemma SpinKeptSync(s: Sys, e: Event, s': Sys, g: Spin)
    requires e.p < |s.procs| && (SleepStep(s, e, s') || WakeStep(s, e, s') || LockStep(s, e, s')) && g in s'.spin
    ensures s'.spin[g] == e.p || (g in s.spin && s'.spin[g] == s.spin[g])
  {
  }

  lemma SpinKeptFork(s: Sys, e: Event, s': Sys, g: Spin)
    requires e.p < |s.procs| && (ForkStep(s, e, s') || WaitStep(s, e, s')) && g in s'.spin
    ensures s'.spin[g] == e.p || (g in s.spin && s'.spin[g] == s.spin[g])
  {
  }

  lemma SpinKeptExit(s: Sys, e: Event, s': Sys, g: Spin)
    requires e.p < |s.procs| && (ExitStep(s, e, s') || EndStep(s, e, s')) && g in s'.spin
    ensures s'.spin[g] == e.p || (g in s.spin && s'.spin[g] == s.spin[g])
  {
  }

  /** A step records no holder but its own process. */
  lemma SpinKept(s: Sys, e: Event, s': Sys, g: Spin)
    requires Next(s, e, s') && g in s'.spin
    ensures s'.spin[g] == e.p || (g in s.spin && s'.spin[g] == s.spin[g])
  {
    if SleepStep(s, e, s') || WakeStep(s, e, s') || LockStep(s, e, s') {
      SpinKeptSync(s, e, s', g);
    } else if ForkStep(s, e, s') || WaitStep(s, e, s') {
      SpinKeptFork(s, e, s', g);
    } else {
      SpinKeptExit(s, e, s', g);
    }
  }

  lemma LockedKeptSync(s: Sys, e: Event, s': Sys, l: Lock)
    requires e.p < |s.procs| && (SleepStep(s, e, s') || WakeStep(s, e, s') || LockStep(s, e, s')) && l in s'.locked
    ensures s'.locked[l] == e.p || (l in s.locked && s'.locked[l] == s.locked[l])
  {
  }

  lemma LockedKeptFork(s: Sys, e: Event, s': Sys, l: Lock)
    requires e.p < |s.procs| && (ForkStep(s, e, s') || WaitStep(s, e, s')) && l in s'.locked
    ensures s'.locked[l] == e.p || (l in s.locked && s'.locked[l] == s.locked[l])
  {
  }

  lemma LockedKeptExit(s: Sys, e: Event, s': Sys, l: Lock)
    requires e.p < |s.procs| && (ExitStep(s, e, s') || EndStep(s, e, s')) && l in s'.locked
    ensures s'.locked[l] == e.p || (l in s.locked && s'.locked[l] == s.locked[l])
  {
  }

  lemma LockedKept(s: Sys, e: Event, s': Sys, l: Lock)
    requires Next(s, e, s') && l in s'.locked
    ensures s'.locked[l] == e.p || (l in s.locked && s'.locked[l] == s.locked[l])
  {
    if SleepStep(s, e, s') || WakeStep(s, e, s') || LockStep(s, e, s') {
      LockedKeptSync(s, e, s', l);
    } else if ForkStep(s, e, s') || WaitStep(s, e, s') {
      LockedKeptFork(s, e, s', l);
    } else {
      LockedKeptExit(s, e, s', l);
    }
  }

  lemma TablesKept(s: Sys, e: Event, s': Sys)
    requires Next(s, e, s')
    ensures forall g :: g in s'.spin ==> s'.spin[g] == e.p || (g in s.spin && s'.spin[g] == s.spin[g])
    ensures forall l :: l in s'.locked ==> s'.locked[l] == e.p || (l in s.locked && s'.locked[l] == s.locked[l])
  {
    forall g | g in s'.spin ensures s'.spin[g] == e.p || (g in s.spin && s'.spin[g] == s.spin[g]) {
      SpinKept(s, e, s', g);
    }
    forall l | l in s'.locked ensures s'.locked[l] == e.p || (l in s.locked && s'.locked[l] == s.locked[l]) {
      LockedKept(s, e, s', l);
    }
  }

  lemma LocksKept(s: Sys, e: Event, s': Sys)
    requires Inv(s) && Next(s, e, s') && |s'.procs| == |s.procs|
    ensures SpinInv(s') && HeldInv(s') && forall q, l :: UnlockOk(s', q, l)
  {
    TablesKept(s, e, s');
    forall p: Pid, g: Spin ensures SpinOk(s', p, g) {
      if p < |s.procs| {
        Nearby(s, e, p, p);
        assert SpinOk(s, p, g) && SpinOk(s, e.p, g);
        KeepsSpin(s, e, s', p, g);
      }
    }
    forall p: Pid, l: Lock ensures HeldOk(s', p, l) && UnlockOk(s', p, l) {
      if p < |s.procs| {
        Nearby(s, e, p, p);
        assert HeldOk(s, p, l) && HeldOk(s, e.p, l) && SpinOk(s, p, l + 1) && SpinOk(s, e.p, l + 1) && UnlockOk(s, p, l);
        KeepsLock(s, e, s', p, l);
      }
    }
  }

  lemma WakesKept(s: Sys, e: Event, s': Sys)
    requires Inv(s) && Next(s, e, s') && |s'.procs| == |s.procs|
    ensures (forall p, q :: PassedOk(s', p, q)) && forall p :: DieOk(s', p)
  {
    forall p: Pid, q: Pid ensures PassedOk(s', p, q) {
      if p < |s.procs| && q < |s.procs| {
        Nearby(s, e, p, q);
        assert PassedOk(s, p, q) && SpinOk(s, p, WakeGuard(s.procs[p])) && SpinOk(s, q, WakeGuard(s.procs[p]));
        KeepsPassed(s, e, s', p, q);
      }
    }
    forall p: Pid ensures DieOk(s', p) {
      if p < |s.procs| {
        assert Coherent(s, p);
        var q: Pid := if s.procs[p].parent >= 0 then s.procs[p].parent else p;
        Nearby(s, e, p, q);
        assert DieOk(s, p) && PassedOk(s, p, q) && SpinOk(s, p, WAIT) && SpinOk(s, q, WAIT) && SpinOk(s, e.p, WAIT);
        KeepsDie(s, e, s', p, q);
      }
    }
  }

  lemma FamiliesKept(s: Sys, e: Event, s': Sys)
    requires Inv(s) && Next(s, e, s') && |s'.procs| == |s.procs|
    ensures forall p, q :: ScanOk(s', p, q)
    ensures forall p, q :: ForkOk(s', p, q)
    ensures forall p, q :: ExitOk(s', p, q)
  {
    forall p: Pid, q: Pid ensures ScanOk(s', p, q) && ForkOk(s', p, q) && ExitOk(s', p, q) {
      if p < |s.procs| && q < |s.procs| {
        Nearby(s, e, p, q);
        assert ScanOk(s, p, q) && ForkOk(s, p, q) && ExitOk(s, p, q) && DieOk(s, q) && SpinOk(s, p, WAIT) && SpinOk(s, e.p, WAIT);
        KeepsScan(s, e, s', p, q);
        KeepsExit(s, e, s', p, q);
      }
    }
  }

  lemma StepKeeps(s: Sys, e: Event, s': Sys)
    requires Inv(s) && Next(s, e, s')
    ensures Inv(s')
  {
    ShapeKept(s, e, s');
    LocksKept(s, e, s');
    WakesKept(s, e, s');
    FamiliesKept(s, e, s');
  }

  ghost predicate Follows(ss: seq<Sys>, es: seq<Event>, i: nat)
    requires i < |es| < |ss|
  {
    Next(ss[i], es[i], ss[i + 1])
  }

  ghost predicate Trace(ss: seq<Sys>, es: seq<Event>) {
    && |ss| == |es| + 1 && Init(ss[0])
    && forall i: nat {:trigger Follows(ss, es, i)} :: i < |es| ==> Follows(ss, es, i)
  }

  lemma {:induction false} TraceKeepsInv(ss: seq<Sys>, es: seq<Event>, i: nat)
    requires Trace(ss, es) && i < |ss|
    ensures Inv(ss[i])
  {
    if i == 0 {
      InitInv(ss[0]);
    } else {
      TraceKeepsInv(ss, es, i - 1);
      assert Follows(ss, es, i - 1);
      StepKeeps(ss[i - 1], es[i - 1], ss[i]);
    }
  }

  /** In every interleaving a sleeplock has at most one holder, the one its fields name. */
  lemma MutualExclusion(ss: seq<Sys>, es: seq<Event>, i: nat, p: Pid, q: Pid, l: Lock)
    requires Trace(ss, es) && i < |ss| && p < |ss[i].procs| && q < |ss[i].procs|
    requires l in ss[i].procs[p].held && l in ss[i].procs[q].held
    ensures p == q && l in ss[i].locked && ss[i].locked[l] == p
  {
    TraceKeepsInv(ss, es, i);
    assert HeldOk(ss[i], p, l) && HeldOk(ss[i], q, l);
  }

  /**
   No lost wakeup: in every interleaving, when a sleeplock is free and nobody is inside
   acquiresleep's or releasesleep's critical section, no process is asleep on it or past
   the point of no return towards sleeping on it.
   */
  lemma NoLostWakeup(ss: seq<Sys>, es: seq<Event>, i: nat, q: Pid, l: Lock)
    requires Trace(ss, es) && i < |ss| && q < |ss[i].procs|
    requires l !in ss[i].locked && l + 1 !in ss[i].spin
    ensures !Committed(ss[i].procs[q], LockChan(l))
  {
    TraceKeepsInv(ss, es, i);
    assert UnlockOk(ss[i], q, l);
  }

  /**
   Exit and wait: in every interleaving, when wait_lock is free, no process asleep in kwait, or
   past the point of no return towards it, has a zombie child; init and its adopted children included.
   */
  lemma NoMissedExit(ss: seq<Sys>, es: seq<Event>, i: nat, q: Pid, x: Pid)
    requires Trace(ss, es) && i < |ss| && q < |ss[i].procs| && x < |ss[i].procs|
    requires WAIT !in ss[i].spin && Committed(ss[i].procs[q], ProcChan(q)) && ss[i].procs[x].parent == q
    ensures !ss[i].procs[x].state.Zombie?
  {
    TraceKeepsInv(ss, es, i);
    assert ExitOk(ss[i], q, x);
  }

  /** At most one process is inside the critical section of any spinlock. */
  lemma SpinExclusion(ss: seq<Sys>, es: seq<Event>, i: nat, p: Pid, q: Pid, g: Spin)
    requires Trace(ss, es) && i < |ss| && p < |ss[i].procs| && q < |ss[i].procs|
    requires HoldsSpin(ss[i].procs[p], g) && HoldsSpin(ss[i].procs[q], g)
    ensures p == q
  {
    TraceKeepsInv(ss, es, i);
    assert SpinOk(ss[i], p, g) && SpinOk(ss[i], q, g);
  }
}
