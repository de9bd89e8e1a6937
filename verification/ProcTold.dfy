/**
 Sleeplocks and kills in every run of the process machine, told from its events:
 who has which lock, and who has been killed.
 */
module ProcTold {
  import opened Proc
  import opened ProcSteps
  import opened ProcRuns
  import opened ProcFamilies

  // ---- Sleeplocks ----

  /** The lock of p's last call of acquiresleep or releasesleep. */
  function Aim(es: seq<Event>, p: Pid): (l: Lock) {
    if es == [] then 0
    else
      var front, e := es[..|es| - 1], es[|es| - 1];
      if (e.AcquireSleep? || e.ReleaseSleep?) && e.p == p then e.l else Aim(front, p)
  }

  /** The locks p has acquired and not given up. */
  function HeldBy(es: seq<Event>, p: Pid): (r: set<Lock>) {
    if es == [] then {}
    else
      var front, e := es[..|es| - 1], es[|es| - 1];
      if e == FindFree(p) then HeldBy(front, p) + {Aim(front, p)}
      else if e == Clear(p) then HeldBy(front, p) - {Aim(front, p)}
      else HeldBy(front, p)
  }

  predicate ToldProc(pr: Process, held: set<Lock>, aim: Lock) {
    && pr.held == held && (pr.job.Acquiring? || pr.job.Releasing? || pr.job.Released? ==> pr.job.l == aim)
    && (pr.job.Acquiring? ==> aim !in held)
  }

  lemma LockTells(s: Sys, e: Event, s': Sys, p: Pid, held: set<Lock>, aim: Lock)
    requires Near(s, e, p) && LockStep(s, e, s') && ToldProc(s.procs[p], held, aim)
    ensures |s'.procs| == |s.procs|
    ensures ToldProc(s'.procs[p],
      if e == FindFree(p) then held + {aim} else if e == Clear(p) then held - {aim} else held,
      if (e.AcquireSleep? || e.ReleaseSleep?) && e.p == p then e.l else aim)
  {
  }

  lemma SchedTells(s: Sys, e: Event, s': Sys, p: Pid, held: set<Lock>, aim: Lock)
    requires Near(s, e, p) && (SleepStep(s, e, s') || EndStep(s, e, s') || WakeStep(s, e, s')) && ToldProc(s.procs[p], held, aim)
    ensures |s'.procs| == |s.procs| && ToldProc(s'.procs[p], held, aim)
    ensures !e.FindFree? && !e.Clear? && !e.AcquireSleep? && !e.ReleaseSleep?
  {
  }

  lemma KinTells(s: Sys, e: Event, s': Sys, p: Pid, held: set<Lock>, aim: Lock)
    requires Near(s, e, p) && (ForkStep(s, e, s') || WaitStep(s, e, s') || ExitStep(s, e, s')) && ToldProc(s.procs[p], held, aim)
    ensures |s'.procs| == |s.procs| && ToldProc(s'.procs[p], held, aim)
    ensures !e.FindFree? && !e.Clear? && !e.AcquireSleep? && !e.ReleaseSleep?
  {
  }

  lemma TellProc(es: seq<Event>, s: Sys, e: Event, s': Sys, p: Pid)
    requires Near(s, e, p) && Next(s, e, s') && ToldProc(s.procs[p], HeldBy(es, p), Aim(es, p))
    ensures |s'.procs| == |s.procs| && ToldProc(s'.procs[p], HeldBy(es + [e], p), Aim(es + [e], p))
  {
    assert (es + [e])[..|es|] == es;
    if LockStep(s, e, s') {
      LockTells(s, e, s', p, HeldBy(es, p), Aim(es, p));
    } else if SleepStep(s, e, s') || EndStep(s, e, s') || WakeStep(s, e, s') {
      SchedTells(s, e, s', p, HeldBy(es, p), Aim(es, p));
    } else {
      KinTells(s, e, s', p, HeldBy(es, p), Aim(es, p));
    }
  }

  /** In every run a process holds exactly the locks its events say. */
  lemma {:induction false} HeldIsTold(ss: seq<Sys>, es: seq<Event>, i: nat, p: Pid)
    requires Trace(ss, es) && i < |ss| && p < |ss[i].procs|
    ensures ToldProc(ss[i].procs[p], HeldBy(es[..i], p), Aim(es[..i], p))
  {
    if i > 0 {
      TraceKeepsInv(ss, es, i - 1);
      assert Follows(ss, es, i - 1);
      ShapeKept(ss[i - 1], es[i - 1], ss[i]);
      HeldIsTold(ss, es, i - 1, p);
      Nearby(ss[i - 1], es[i - 1], p, p);
      TellProc(es[..i - 1], ss[i - 1], es[i - 1], ss[i], p);
      assert es[..i - 1] + [es[i - 1]] == es[..i];
    }
  }

  /** In every run a sleeplock has been acquired and not given up by at most one process. */
  lemma OneHolder(ss: seq<Sys>, es: seq<Event>, i: nat, p: Pid, q: Pid, l: Lock)
    requires Trace(ss, es) && i < |ss| && p < |ss[i].procs| && q < |ss[i].procs|
    requires l in HeldBy(es[..i], p) && l in HeldBy(es[..i], q)
    ensures p == q
  {
    HeldIsTold(ss, es, i, p);
    HeldIsTold(ss, es, i, q);
    MutualExclusion(ss, es, i, p, q, l);
  }

  /** In every run acquiresleep goes on if and only if nobody has the lock, and then its caller has it; else somebody else has it. */
  lemma AcquireExactly(ss: seq<Sys>, es: seq<Event>, i: nat)
    requires Trace(ss, es) && i < |es| && (es[i].FindFree? || es[i].FindBusy?)
    ensures var p, l := es[i].p, Aim(es[..i], es[i].p);
      && p < |ss[i].procs|
      && (es[i].FindFree? ==> (forall q: nat :: q < |ss[i].procs| ==> l !in HeldBy(es[..i], q)) && l in HeldBy(es[..i + 1], p))
      && (es[i].FindBusy? ==> exists q: nat :: q < |ss[i].procs| && q != p && l in HeldBy(es[..i], q))
  {
    var s, p, l := ss[i], es[i].p, Aim(es[..i], es[i].p);
    TraceKeepsInv(ss, es, i);
    assert Follows(ss, es, i);
    HeldIsTold(ss, es, i, p);
    assert es[..i + 1][..i] == es[..i];
    if es[i].FindFree? {
      forall q: nat | q < |s.procs| ensures l !in HeldBy(es[..i], q) {
        HeldIsTold(ss, es, i, q);
        assert HeldOk(s, q, l);
      }
    } else {
      var q := s.locked[l];
      HeldIsTold(ss, es, i, q);
      assert HeldOk(s, q, l);
    }
  }

  // ---- Kills ----

  /** Slot v was told to die at some event before i, and has not been free since. */
  ghost predicate ToldToDie(ss: seq<Sys>, es: seq<Event>, i: nat, v: Pid)
    requires i <= |es| < |ss|
  {
    exists k: nat :: k < i && es[k].Kill? && es[k].victim == v && forall x :: k < x <= i ==> v < |ss[x].procs| && !ss[x].procs[v].state.Unused?
  }

  lemma SchedKills(s: Sys, e: Event, s': Sys, v: Pid)
    requires Near(s, e, v) && (SleepStep(s, e, s') || WakeStep(s, e, s') || LockStep(s, e, s') || EndStep(s, e, s'))
    requires s.procs[v].state.Unused? ==> !s.procs[v].killed
    ensures |s'.procs| == |s.procs|
    ensures s'.procs[v].killed <==> !s'.procs[v].state.Unused? && (s.procs[v].killed || (e.Kill? && e.victim == v))
    ensures s.procs[v].killed && !s'.procs[v].state.Unused? ==> !s.procs[v].state.Unused?
    ensures e.Kill? && e.victim == v ==> !s'.procs[v].state.Sleeping?
  {
  }

  lemma KinKills(s: Sys, e: Event, s': Sys, v: Pid)
    requires Near(s, e, v) && (ForkStep(s, e, s') || WaitStep(s, e, s') || ExitStep(s, e, s'))
    requires s.procs[v].state.Unused? ==> !s.procs[v].killed
    ensures |s'.procs| == |s.procs| && !e.Kill?
    ensures s'.procs[v].killed <==> !s'.procs[v].state.Unused? && s.procs[v].killed
  {
  }

  lemma KillNext(s: Sys, e: Event, s': Sys, v: Pid)
    requires Near(s, e, v) && Next(s, e, s') && (s.procs[v].state.Unused? ==> !s.procs[v].killed)
    ensures |s'.procs| == |s.procs|
    ensures s'.procs[v].killed <==> !s'.procs[v].state.Unused? && (s.procs[v].killed || (e.Kill? && e.victim == v))
    ensures e.Kill? && e.victim == v ==> !s'.procs[v].state.Sleeping?
  {
    if ForkStep(s, e, s') || WaitStep(s, e, s') || ExitStep(s, e, s') {
      KinKills(s, e, s', v);
    } else {
      SchedKills(s, e, s', v);
    }
  }

  lemma ToldNext(ss: seq<Sys>, es: seq<Event>, i: nat, v: Pid)
    requires i < |es| < |ss| && v < |ss[i + 1].procs|
    ensures ToldToDie(ss, es, i + 1, v) <==>
      !ss[i + 1].procs[v].state.Unused? && (ToldToDie(ss, es, i, v) || (es[i].Kill? && es[i].victim == v))
  {
    if ToldToDie(ss, es, i + 1, v) && !(es[i].Kill? && es[i].victim == v) {
      var k: nat :| k < i + 1 && es[k].Kill? && es[k].victim == v
        && forall x :: k < x <= i + 1 ==> v < |ss[x].procs| && !ss[x].procs[v].state.Unused?;
      assert k < i;
    }
  }

  /** In every run a process is marked killed if and only if somebody has killed it since its slot was last taken; and a kill leaves nobody asleep. */
  lemma {:induction false} KilledIsTold(ss: seq<Sys>, es: seq<Event>, i: nat, v: Pid)
    requires Trace(ss, es) && i < |ss| && v < |ss[i].procs|
    ensures ss[i].procs[v].killed <==> ToldToDie(ss, es, i, v)
    ensures ss[i].procs[v].state.Unused? ==> !ss[i].procs[v].killed
    ensures i > 0 && es[i - 1].Kill? && es[i - 1].victim == v ==> ss[i].procs[v].killed && !ss[i].procs[v].state.Sleeping?
  {
    if i > 0 {
      TraceKeepsInv(ss, es, i - 1);
      assert Follows(ss, es, i - 1);
      ShapeKept(ss[i - 1], es[i - 1], ss[i]);
      KilledIsTold(ss, es, i - 1, v);
      Nearby(ss[i - 1], es[i - 1], v, v);
      KillNext(ss[i - 1], es[i - 1], ss[i], v);
      ToldNext(ss, es, i - 1, v);
      if es[i - 1].Kill? && es[i - 1].victim == v {
        QuietSlots(ss[i - 1], es[i - 1], ss[i], v);
      }
    }
  }
}
