/**
 Parents and children in every run of the process machine: nobody keeps a parent
 that has exited, kwait fails exactly for want of children, and every slot of the
 process table is accounted for.
 */
module ProcFamilies {
  import opened Proc
  import opened ProcSteps
  import opened ProcRuns

  /** A child's parent is a process, has not exited, and if it is exiting has yet to come to this child. */
  predicate ParentOk(s: Sys, p: Pid, x: Pid) {
    p < |s.procs| && x < |s.procs| && s.procs[x].parent == p ==>
      && !s.procs[p].mode.Absent? && !s.procs[p].job.Die?
      && (s.procs[p].job.Reparent? ==> s.procs[p].job.i <= x)
  }

  /** x is a child that p's scan has passed. */
  predicate SeenKid(s: Sys, p: Pid, x: Pid) {
    p < |s.procs| && x < |s.procs| && s.procs[p].job.Scan? && x < s.procs[p].job.i && s.procs[x].parent == p
  }

  /** Free slots have no parent, nor has a slot that a fork has just taken; a scan remembers that it has passed a child. */
  predicate FamilyOk(s: Sys, p: Pid, x: Pid) {
    && ParentOk(s, p, x)
    && (x < |s.procs| && s.procs[x].state.Unused? ==> s.procs[x].parent == -1)
    && (p < |s.procs| && x < |s.procs| && s.procs[p].job == Forked(x) ==> s.procs[x].parent == -1)
    && (SeenKid(s, p, x) ==> s.procs[p].job.kids)
  }

  /** p and x after a step: their own clauses, a passed child stays one, and so does a fork in progress. */
  predicate FamilyKept(s: Sys, s': Sys, p: Pid, x: Pid)
    requires p < |s.procs| == |s'.procs| && x < |s.procs|
  {
    && FamilyOk(s', p, x)
    && (SeenKid(s, p, x) && s'.procs[p].job.Scan? && s'.procs[p].job.kids ==> SeenKid(s', p, x))
    && (Forking(s.procs[p], x) && s'.procs[x].state.Used? ==> Forking(s'.procs[p], x))
  }

  /** What the step's own process, p and x are known to satisfy before the step. */
  predicate FamilyBefore(s: Sys, e: Event, p: Pid, x: Pid) {
    && Around(s, e, p, x) && FamilyOk(s, p, x) && FamilyOk(s, e.p, x)
    && SpinOk(s, p, WAIT) && SpinOk(s, e.p, WAIT) && ForkOk(s, p, e.p)
  }

  /** A step that is not about families: parents, free slots and family jobs stay as they are. */
  predicate SameKin(a: Process, b: Process) {
    && b.parent == a.parent && b.state.Unused? == a.state.Unused? && b.state.Used? == a.state.Used?
    && b.mode.Absent? == a.mode.Absent? && (b.job == a.job || !(FamilyJob(a.job) || FamilyJob(b.job)))
  }

  predicate FamilyJob(j: Job) {
    j.Scan? || j.Reparent? || j.Die? || j.Forked? || j.Parented?
  }

  lemma SchedKeepsKin(s: Sys, e: Event, s': Sys, q: Pid)
    requires Near(s, e, q) && (SleepStep(s, e, s') || EndStep(s, e, s'))
    ensures |s'.procs| == |s.procs| && SameKin(s.procs[q], s'.procs[q])
  {
  }

  lemma SyncKeepsKin(s: Sys, e: Event, s': Sys, q: Pid)
    requires Near(s, e, q) && (WakeStep(s, e, s') || LockStep(s, e, s'))
    ensures |s'.procs| == |s.procs| && SameKin(s.procs[q], s'.procs[q])
  {
  }

  lemma KinKeepsFamily(s: Sys, s': Sys, p: Pid, x: Pid)
    requires p < |s.procs| == |s'.procs| && x < |s.procs| && FamilyOk(s, p, x)
    requires SameKin(s.procs[p], s'.procs[p]) && SameKin(s.procs[x], s'.procs[x])
    ensures FamilyKept(s, s', p, x)
  {
  }

  lemma TakeKeepsFamily(s: Sys, e: Event, s': Sys, p: Pid, x: Pid)
    requires FamilyBefore(s, e, p, x) && ForkStep(s, e, s') && (e.Fork? || e.ForkFails?)
    ensures |s'.procs| == |s.procs| && FamilyKept(s, s', p, x)
  {
  }

  lemma ForkKeepsFamily(s: Sys, e: Event, s': Sys, p: Pid, x: Pid)
    requires FamilyBefore(s, e, p, x) && ForkStep(s, e, s') && !e.Fork? && !e.ForkFails?
    ensures |s'.procs| == |s.procs| && FamilyKept(s, s', p, x)
  {
  }

  lemma ScanKeepsFamily(s: Sys, e: Event, s': Sys, p: Pid, x: Pid)
    requires FamilyBefore(s, e, p, x) && WaitStep(s, e, s') && !e.Reap?
    ensures |s'.procs| == |s.procs| && FamilyKept(s, s', p, x)
  {
  }

  lemma ReapKeepsFamily(s: Sys, e: Event, s': Sys, p: Pid, x: Pid)
    requires FamilyBefore(s, e, p, x) && WaitStep(s, e, s') && e.Reap?
    ensures |s'.procs| == |s.procs| && FamilyKept(s, s', p, x)
  {
  }

  lemma GiveKeepsFamily(s: Sys, e: Event, s': Sys, p: Pid, x: Pid)
    requires FamilyBefore(s, e, p, x) && ExitStep(s, e, s') && e.GiveChild?
    ensures |s'.procs| == |s.procs| && FamilyKept(s, s', p, x)
  {
  }

  lemma ExitKeepsFamily(s: Sys, e: Event, s': Sys, p: Pid, x: Pid)
    requires FamilyBefore(s, e, p, x) && ExitStep(s, e, s') && !e.GiveChild?
    ensures |s'.procs| == |s.procs| && FamilyKept(s, s', p, x)
  {
  }

  lemma KeepsFamily(s: Sys, e: Event, s': Sys, p: Pid, x: Pid)
    requires FamilyBefore(s, e, p, x) && Next(s, e, s')
    ensures |s'.procs| == |s.procs| && FamilyKept(s, s', p, x)
  {
    if SleepStep(s, e, s') || EndStep(s, e, s') {
      SchedKeepsKin(s, e, s', p);
      SchedKeepsKin(s, e, s', x);
      KinKeepsFamily(s, s', p, x);
    } else if WakeStep(s, e, s') || LockStep(s, e, s') {
      SyncKeepsKin(s, e, s', p);
      SyncKeepsKin(s, e, s', x);
      KinKeepsFamily(s, s', p, x);
    } else if ForkStep(s, e, s') {
      if e.Fork? || e.ForkFails? { TakeKeepsFamily(s, e, s', p, x); } else { ForkKeepsFamily(s, e, s', p, x); }
    } else if ExitStep(s, e, s') {
      if e.GiveChild? { GiveKeepsFamily(s, e, s', p, x); } else { ExitKeepsFamily(s, e, s', p, x); }
    } else if e.Reap? {
      ReapKeepsFamily(s, e, s', p, x);
    } else {
      ScanKeepsFamily(s, e, s', p, x);
    }
  }

  // ---- Slots ----

  lemma KinSlots(s: Sys, e: Event, s': Sys, x: Pid)
    requires Near(s, e, x) && (ForkStep(s, e, s') || WaitStep(s, e, s') || ExitStep(s, e, s'))
    requires !e.Fork? && !e.ForkFails? && !e.Reap?
    ensures |s'.procs| == |s.procs|
    ensures s'.procs[x].state.Unused? == s.procs[x].state.Unused? && (s'.procs[x].state.Used? ==> s.procs[x].state.Used?)
  {
  }

  /** Only a fork takes a slot, and only a fork that fails and a wait that reaps give one back. */
  lemma QuietSlots(s: Sys, e: Event, s': Sys, x: Pid)
    requires Near(s, e, x) && Next(s, e, s') && !e.Fork? && !e.ForkFails? && !e.Reap?
    ensures |s'.procs| == |s.procs|
    ensures s'.procs[x].state.Unused? == s.procs[x].state.Unused? && (s'.procs[x].state.Used? ==> s.procs[x].state.Used?)
  {
    if SleepStep(s, e, s') || EndStep(s, e, s') {
      SchedKeepsKin(s, e, s', x);
    } else if WakeStep(s, e, s') || LockStep(s, e, s') {
      SyncKeepsKin(s, e, s', x);
    } else {
      KinSlots(s, e, s', x);
    }
  }

  /** The slot that a fork takes, or a failing fork or a wait gives back. */
  function Slot(s: Sys, e: Event): (x: Pid)
    requires e.p < |s.procs| && (e.Fork? || e.ForkFails? || e.Reap?)
  {
    match e
    case Fork(_, c) => c
    case ForkFails(_) => if s.procs[e.p].job.Forked? then s.procs[e.p].job.child else 0
    case Reap(_) => if s.procs[e.p].job.Scan? then s.procs[e.p].job.i else 0
  }

  lemma SlotStep(s: Sys, e: Event, s': Sys, x: Pid)
    requires Near(s, e, x) && Next(s, e, s') && (e.Fork? || e.ForkFails? || e.Reap?)
    ensures |s'.procs| == |s.procs| && Slot(s, e) < |s.procs|
    ensures x != Slot(s, e) ==> s'.procs[x].state == s.procs[x].state
    ensures x == Slot(s, e) ==> s.procs[x].state.Unused? == e.Fork? && s'.procs[x].state == (if e.Fork? then Used else Unused)
    ensures e.Fork? ==> Forking(s'.procs[e.p], Slot(s, e))
  {
  }

  // ---- Every run ----

  ghost predicate Families(s: Sys) {
    && (forall p, x :: FamilyOk(s, p, x))
    && (forall p: nat {:trigger s.procs[p]} :: p < |s.procs| && s.procs[p].job.Scan? && s.procs[p].job.kids ==>
          exists x :: SeenKid(s, p, x))
    && forall x: nat {:trigger s.procs[x]} :: x < |s.procs| && s.procs[x].state.Used? ==>
         exists p: nat :: p < |s.procs| && Forking(s.procs[p], x)
  }

  lemma InitFamilies(s: Sys)
    requires Init(s)
    ensures Families(s)
  {
  }

  lemma Before(s: Sys, e: Event, p: Pid, x: Pid)
    requires Inv(s) && Families(s) && e.p < |s.procs| && p < |s.procs| && x < |s.procs|
    ensures FamilyBefore(s, e, p, x)
  {
    Nearby(s, e, p, x);
    assert FamilyOk(s, p, x) && FamilyOk(s, e.p, x) && SpinOk(s, p, WAIT) && SpinOk(s, e.p, WAIT) && ForkOk(s, p, e.p);
  }

  lemma KinKids(s: Sys, e: Event, s': Sys, p: Pid)
    requires Near(s, e, p) && (ForkStep(s, e, s') || WaitStep(s, e, s') || ExitStep(s, e, s')) && |s'.procs| == |s.procs|
    requires s'.procs[p].job.Scan? && s'.procs[p].job.kids && !(s.procs[p].job.Scan? && s.procs[p].job.kids)
    ensures s.procs[p].job.Scan? && SeenKid(s', p, s.procs[p].job.i)
  {
  }

  /** A process starts or goes on with a scan that has passed a child only by passing one. */
  lemma KidsNext(s: Sys, e: Event, s': Sys, p: Pid)
    requires Near(s, e, p) && Next(s, e, s') && |s'.procs| == |s.procs|
    requires s'.procs[p].job.Scan? && s'.procs[p].job.kids && !(s.procs[p].job.Scan? && s.procs[p].job.kids)
    ensures s.procs[p].job.Scan? && SeenKid(s', p, s.procs[p].job.i)
  {
    if SleepStep(s, e, s') || EndStep(s, e, s') {
      SchedKeepsKin(s, e, s', p);
    } else if WakeStep(s, e, s') || LockStep(s, e, s') {
      SyncKeepsKin(s, e, s', p);
    } else {
      KinKids(s, e, s', p);
    }
  }

  lemma KidsKept(s: Sys, e: Event, s': Sys, p: Pid)
    requires Inv(s) && Families(s) && Next(s, e, s') && |s'.procs| == |s.procs| && p < |s.procs|
    requires s'.procs[p].job.Scan? && s'.procs[p].job.kids
    ensures exists x :: SeenKid(s', p, x)
  {
    if s.procs[p].job.Scan? && s.procs[p].job.kids {
      var x :| SeenKid(s, p, x);
      Before(s, e, p, x);
      KeepsFamily(s, e, s', p, x);
    } else {
      Nearby(s, e, p, p);
      KidsNext(s, e, s', p);
    }
  }

  lemma ForksKept(s: Sys, e: Event, s': Sys, x: Pid)
    requires Inv(s) && Families(s) && Next(s, e, s') && |s'.procs| == |s.procs| && x < |s.procs|
    requires s'.procs[x].state.Used?
    ensures exists p: nat :: p < |s'.procs| && Forking(s'.procs[p], x)
  {
    Nearby(s, e, x, x);
    if s.procs[x].state.Used? {
      var p: nat :| p < |s.procs| && Forking(s.procs[p], x);
      Before(s, e, p, x);
      KeepsFamily(s, e, s', p, x);
    } else if e.Fork? || e.ForkFails? || e.Reap? {
      SlotStep(s, e, s', x);
    } else {
      QuietSlots(s, e, s', x);
    }
  }

  lemma FamiliesNext(s: Sys, e: Event, s': Sys)
    requires Inv(s) && Families(s) && Next(s, e, s')
    ensures Families(s')
  {
    Nearby(s, e, e.p, e.p);
    Before(s, e, e.p, e.p);
    KeepsFamily(s, e, s', e.p, e.p);
    forall p: Pid, x: Pid ensures FamilyOk(s', p, x) {
      if p < |s.procs| && x < |s.procs| {
        Before(s, e, p, x);
        KeepsFamily(s, e, s', p, x);
      } else if x < |s.procs| {
        Before(s, e, e.p, x);
        KeepsFamily(s, e, s', e.p, x);
        assert FamilyOk(s', e.p, x);
      }
    }
    forall p: nat | p < |s'.procs| && s'.procs[p].job.Scan? && s'.procs[p].job.kids ensures exists x :: SeenKid(s', p, x) {
      KidsKept(s, e, s', p);
    }
    forall x: nat | x < |s'.procs| && s'.procs[x].state.Used? ensures exists p: nat :: p < |s'.procs| && Forking(s'.procs[p], x) {
      ForksKept(s, e, s', x);
    }
  }

  lemma {:induction false} TraceFamilies(ss: seq<Sys>, es: seq<Event>, i: nat)
    requires Trace(ss, es) && i < |ss|
    ensures Families(ss[i])
  {
    if i == 0 {
      InitFamilies(ss[0]);
    } else {
      TraceFamilies(ss, es, i - 1);
      TraceKeepsInv(ss, es, i - 1);
      assert Follows(ss, es, i - 1);
      FamiliesNext(ss[i - 1], es[i - 1], ss[i]);
    }
  }

  /**
   In every state of every run, every process but init has a parent, which has neither exited nor begun
   to die; a process that is handing its children to init has none left among the slots it has passed.
   */
  lemma NoDeadParents(ss: seq<Sys>, es: seq<Event>, i: nat, x: Pid)
    requires Trace(ss, es) && i < |ss| && x < |ss[i].procs| && x != ss[i].init && !ss[i].procs[x].mode.Absent?
    ensures 0 <= ss[i].procs[x].parent < |ss[i].procs|
    ensures var parent := ss[i].procs[ss[i].procs[x].parent];
      && !parent.state.Unused? && !parent.state.Zombie? && !parent.mode.Dying? && !parent.mode.Gone? && !parent.job.Die?
      && (parent.job.Reparent? ==> parent.job.i <= x)
  {
    var s := ss[i];
    TraceKeepsInv(ss, es, i);
    TraceFamilies(ss, es, i);
    assert Coherent(s, x);
    var p: Pid := s.procs[x].parent;
    assert FamilyOk(s, p, x) && Coherent(s, p);
  }

  /** In every run, a process that has exited, up to its reaping and after, is nobody's parent. */
  lemma ExitedHasNoChildren(ss: seq<Sys>, es: seq<Event>, i: nat, p: Pid, x: Pid)
    requires Trace(ss, es) && i < |ss| && p < |ss[i].procs| && x < |ss[i].procs|
    requires ss[i].procs[p].job.Die? || ss[i].procs[p].mode.Dying? || ss[i].procs[p].mode.Gone? || ss[i].procs[p].state.Unused?
    ensures ss[i].procs[x].parent != p
  {
    TraceKeepsInv(ss, es, i);
    TraceFamilies(ss, es, i);
    assert FamilyOk(ss[i], p, x) && Coherent(ss[i], p);
  }

  /** kwait fails exactly if the caller is killed or has no child, and sleeps only if it has children, none of them a zombie. */
  lemma WaitFailsExactly(ss: seq<Sys>, es: seq<Event>, i: nat)
    requires Trace(ss, es) && i < |es| && (es[i].NoWait? || es[i].WaitSleep?)
    ensures var s, p := ss[i], es[i].p;
      && p < |s.procs|
      && (es[i].NoWait? <==> s.procs[p].killed || forall x: nat :: x < |s.procs| ==> s.procs[x].parent != p)
      && forall x: nat :: x < |s.procs| && s.procs[x].parent == p ==> !s.procs[x].state.Zombie?
  {
    var s, p := ss[i], es[i].p;
    TraceKeepsInv(ss, es, i);
    TraceFamilies(ss, es, i);
    assert Follows(ss, es, i);
    if s.procs[p].job.kids {
      var x :| SeenKid(s, p, x);
    }
    forall x: nat | x < |s.procs| && s.procs[x].parent == p ensures s.procs[p].job.kids && !s.procs[x].state.Zombie? {
      assert FamilyOk(s, p, x) && SeenKid(s, p, x) && ScanOk(s, p, x);
    }
  }

  // ---- Counting slots ----

  function Taken(s: Sys): (r: set<Pid>) {
    set x: nat | x < |s.procs| && !s.procs[x].state.Unused?
  }

  /** The forks begun, less those that failed and those whose children have been waited for; and init. */
  function Balance(es: seq<Event>): (n: int) {
    if es == [] then 1
    else
      var front, e := es[..|es| - 1], es[|es| - 1];
      Balance(front) + if e.Fork? then 1 else if e.ForkFails? || e.Reap? then -1 else 0
  }

  lemma TakenNext(s: Sys, e: Event, s': Sys)
    requires Inv(s) && Next(s, e, s')
    ensures |Taken(s')| == |Taken(s)| + if e.Fork? then 1 else if e.ForkFails? || e.Reap? then -1 else 0
  {
    ShapeKept(s, e, s');
    if e.Fork? || e.ForkFails? || e.Reap? {
      forall x: nat | x < |s.procs|
        ensures Slot(s, e) < |s.procs|
        ensures x in Taken(s') <==> if x == Slot(s, e) then e.Fork? else x in Taken(s)
        ensures x == Slot(s, e) ==> (x in Taken(s) <==> !e.Fork?)
      {
        Nearby(s, e, x, x);
        SlotStep(s, e, s', x);
      }
      assert e.p < |s.procs|;
      if e.Fork? { assert Taken(s') == Taken(s) + {Slot(s, e)}; } else { assert Taken(s') == Taken(s) - {Slot(s, e)}; }
    } else {
      forall x: nat | x < |s.procs| ensures x in Taken(s') <==> x in Taken(s) {
        Nearby(s, e, x, x);
        QuietSlots(s, e, s', x);
      }
      assert Taken(s') == Taken(s);
    }
  }

  /** In every run as many slots are in use as forks have begun and not been undone by failure or by wait, plus init. */
  lemma {:induction false} SlotsBalance(ss: seq<Sys>, es: seq<Event>, i: nat)
    requires Trace(ss, es) && i < |ss|
    ensures |Taken(ss[i])| == Balance(es[..i])
  {
    if i == 0 {
      assert Taken(ss[0]) == {ss[0].init};
    } else {
      SlotsBalance(ss, es, i - 1);
      TraceKeepsInv(ss, es, i - 1);
      assert Follows(ss, es, i - 1);
      TakenNext(ss[i - 1], es[i - 1], ss[i]);
      assert es[..i][..i - 1] == es[..i - 1];
    }
  }

  /** In every run a slot that is in use but has not started is being set up by exactly one fork. */
  lemma SetUpByOneFork(ss: seq<Sys>, es: seq<Event>, i: nat, x: Pid)
    requires Trace(ss, es) && i < |ss| && x < |ss[i].procs| && ss[i].procs[x].state.Used?
    ensures exists p: nat :: p < |ss[i].procs| && Forking(ss[i].procs[p], x) && forall q: nat :: q < |ss[i].procs| && Forking(ss[i].procs[q], x) ==> q == p
  {
    TraceKeepsInv(ss, es, i);
    TraceFamilies(ss, es, i);
    var p: nat :| p < |ss[i].procs| && Forking(ss[i].procs[p], x);
    forall q: nat | q < |ss[i].procs| && Forking(ss[i].procs[q], x) ensures q == p {
      assert ForkOk(ss[i], p, q);
    }
  }
}
