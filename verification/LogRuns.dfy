/**
 Whole runs of the logging system: any number of file-system operations
 interleaving begin_op, buffer updates, log_write and end_op; commits that
 proceed one disk write at a time; and crashes between any two steps, also
 inside recovery.  Every run refines a store in which the updates of a group of
 complete operations reach the disk in one atomic step.
 */
module LogRuns {
  import opened Counting
  import opened Log

  /** One caller of begin_op: how many entries it added, what it changed but has not logged yet. */
  datatype Op = Idle | Active(used: nat, dirty: set<int>)

  datatype Phase =
    | Serving
    | Committing(base: Image, done: nat)  // base: the disk when commit() started
    | Recovering(base: Image, done: nat)  // base: the disk when the machine came up
    | Panicked

  datatype Sys = Sys(mem: Image, disk: Image, blocks: seq<int>, ops: seq<Op>, phase: Phase)

  datatype Event =
    | Begin(p: nat)
    | Modify(p: nat, b: int, v: Block)
    | LogWrite(p: nat, b: int)
    | End(p: nat)
    | CommitWrite
    | CommitDone
    | Crash
    | RecoverWrite
    | RecoverDone

  function Outstanding(ops: seq<Op>): (c: nat)
  {
    if ops == [] then 0 else (if ops[0].Active? then 1 else 0) + Outstanding(ops[1..])
  }

  /** The log entries that the running operations may still add. */
  function Budget(ops: seq<Op>): (c: nat)
  {
    if ops == [] then 0
    else (if ops[0].Active? && ops[0].used < MAXOPBLOCKS then MAXOPBLOCKS - ops[0].used else 0) + Budget(ops[1..])
  }

  function AllIdle(count: nat): (ops: seq<Op>)
    ensures |ops| == count && forall p :: 0 <= p < count ==> ops[p] == Idle
  {
    seq(count, _ => Idle)
  }

  predicate NoneActive(ops: seq<Op>) {
    forall p :: 0 <= p < |ops| ==> ops[p] == Idle
  }

  /** One atomic step.  log_write past the end of the log panics, as in the kernel. */
  ghost predicate Next(lay: Layout, s: Sys, e: Event, s': Sys)
    requires lay.Valid()
  {
    match e
    case Begin(p) =>
      && s.phase.Serving? && p < |s.ops| && s.ops[p] == Idle
      && |s.blocks| + (Outstanding(s.ops) + 1) * MAXOPBLOCKS <= LOGBLOCKS
      && s' == s.(ops := s.ops[p := Active(0, {})])
    case Modify(p, b, v) =>
      && s.phase.Serving? && p < |s.ops| && s.ops[p].Active?
      && lay.Home(b) && b < |s.mem| && |v| == WORDS
      && s' == s.(mem := s.mem[b := v],
                  ops := s.ops[p := Active(s.ops[p].used, s.ops[p].dirty + {b})])
    case LogWrite(p, b) =>
      && s.phase.Serving? && p < |s.ops| && s.ops[p].Active? && lay.Home(b)
      && s' == if |s.blocks| >= LOGBLOCKS then s.(phase := Panicked)
               else s.(blocks := Logged(s.blocks, b),
                       ops := s.ops[p := Active(s.ops[p].used + (if b in s.blocks then 0 else 1),
                                                s.ops[p].dirty - {b})])
    case End(p) =>
      && s.phase.Serving? && p < |s.ops| && s.ops[p].Active? && s.ops[p].dirty == {}
      && var ops := s.ops[p := Idle];
      s' == s.(ops := ops, phase := if NoneActive(ops) then Committing(s.disk, 0) else Serving)
    case CommitWrite =>
      && s.phase.Committing? && s.blocks != [] && s.phase.done < 2 * |s.blocks| + 2
      && |s.phase.base| == |s.mem| == lay.size && ValidList(lay, s.blocks) && |s.phase.base[lay.start]| == WORDS
      && s' == s.(disk := CommitImage(lay, s.phase.base, s.mem, s.blocks, s.phase.done + 1),
                  phase := Committing(s.phase.base, s.phase.done + 1))
    case CommitDone =>
      && s.phase.Committing? && (s.blocks == [] || s.phase.done == 2 * |s.blocks| + 2)
      && s' == s.(blocks := [], phase := Serving)
    case Crash =>
      s' == Sys(s.disk, s.disk, [], AllIdle(|s.ops|), Recovering(s.disk, 0))
    case RecoverWrite =>
      && s.phase.Recovering? && |s.phase.base| == lay.size && ValidHeader(lay, s.phase.base[lay.start])
      && s.phase.done < |HeaderList(lay, s.phase.base[lay.start])| + 1
      && s' == s.(disk := RecoverImage(lay, s.phase.base, s.phase.done + 1),
                  phase := Recovering(s.phase.base, s.phase.done + 1))
    case RecoverDone =>
      && s.phase.Recovering? && |s.phase.base| == lay.size && ValidHeader(lay, s.phase.base[lay.start])
      && s.phase.done == |HeaderList(lay, s.phase.base[lay.start])| + 1
      && s' == s.(mem := s.disk, phase := Serving)
  }

  /** The rule the log's callers keep: add fewer than MAXOPBLOCKS entries before each log_write. */
  predicate Disciplined(s: Sys, e: Event) {
    e.LogWrite? && e.p < |s.ops| && s.ops[e.p].Active? ==> s.ops[e.p].used < MAXOPBLOCKS
  }

  // ---- The atomic store ----

  datatype Store = Store(current: map<int, Block>, durable: map<int, Block>, open: set<nat>)

  /** What the atomic store does at each event: only the write of a commit may or may not be the one that makes all durable. */
  ghost predicate StoreNext(a: Store, e: Event, a': Store)
  {
    match e
    case Begin(p) => p !in a.open && a' == a.(open := a.open + {p})
    case Modify(p, b, v) => p in a.open && b in a.current && a' == a.(current := a.current[b := v])
    case End(p) => p in a.open && a' == a.(open := a.open - {p})
    case CommitWrite => a.open == {} && (a' == a || a' == a.(durable := a.current))
    case Crash => a' == Store(a.durable, a.durable, {})
    case _ => a' == a
  }

  function Open(ops: seq<Op>): (open: set<nat>)
    ensures forall p: nat :: p in open <==> p < |ops| && ops[p].Active?
  {
    set p: nat | p < |ops| && ops[p].Active?
  }

  predicate Sized(lay: Layout, s: Sys)
    requires lay.Valid()
  {
    |s.disk| == |s.mem| == lay.size && ValidHeader(lay, s.disk[lay.start])
  }

  /** The store a system state stands for: what is durable is what recovery would bring back. */
  function Abs(lay: Layout, s: Sys): (a: Store)
    requires lay.Valid() && Sized(lay, s)
  {
    var durable := HomeOf(lay, Recover(lay, s.disk));
    Store(if s.phase.Recovering? then durable else HomeOf(lay, s.mem), durable, Open(s.ops))
  }

  // ---- The invariant ----

  ghost predicate Dirty(ops: seq<Op>, b: int) {
    exists p :: 0 <= p < |ops| && ops[p].Active? && b in ops[p].dirty
  }

  ghost predicate Inv(lay: Layout, s: Sys) {
    && ValidDisk(lay, s.disk) && ValidImage(lay, s.mem)
    && ValidList(lay, s.blocks) && Distinct(s.blocks)
    && (s.phase.Serving? && NoneActive(s.ops) ==> s.blocks == [])
    && (s.phase.Serving? ==>
          && HeaderList(lay, s.disk[lay.start]) == []
          && |s.blocks| + Budget(s.ops) <= LOGBLOCKS
          && forall b :: lay.Home(b) ==> s.mem[b] == s.disk[b] || b in s.blocks || Dirty(s.ops, b))
    && !s.phase.Panicked?
    && (!s.phase.Serving? ==> NoneActive(s.ops))
    && (s.phase.Committing? ==>
          && ValidDisk(lay, s.phase.base) && HeaderList(lay, s.phase.base[lay.start]) == []
          && s.phase.done <= (if s.blocks == [] then 0 else 2 * |s.blocks| + 2)
          && s.disk == CommitImage(lay, s.phase.base, s.mem, s.blocks, s.phase.done)
          && forall b :: lay.Home(b) ==> s.mem[b] == s.phase.base[b] || b in s.blocks)
    && (s.phase.Recovering? ==>
          && s.blocks == []
          && ValidDisk(lay, s.phase.base)
          && s.phase.done <= |HeaderList(lay, s.phase.base[lay.start])| + 1
          && s.disk == RecoverImage(lay, s.phase.base, s.phase.done))
  }

  /** A machine that comes up on a disk that recovery understands. */
  ghost predicate Init(lay: Layout, s: Sys) {
    && ValidDisk(lay, s.disk) && NoneActive(s.ops)
    && s == Sys(s.disk, s.disk, [], s.ops, Recovering(s.disk, 0))
  }

  // ---- Budgets ----

  lemma {:induction false} CountUpdate(ops: seq<Op>, p: nat, op: Op)
    requires p < |ops|
    ensures Budget(ops[p := op]) + Budget([ops[p]]) == Budget(ops) + Budget([op])
    ensures Outstanding(ops[p := op]) + Outstanding([ops[p]]) == Outstanding(ops) + Outstanding([op])
  {
    if p > 0 {
      CountUpdate(ops[1..], p - 1, op);
      assert ops[p := op][1..] == ops[1..][p - 1 := op];
    } else {
      assert ops[p := op][1..] == ops[1..];
    }
  }

  lemma {:induction false} BudgetBound(ops: seq<Op>)
    ensures Budget(ops) <= Outstanding(ops) * MAXOPBLOCKS
    ensures NoneActive(ops) ==> Budget(ops) == Outstanding(ops) == 0
  {
    if ops != [] {
      BudgetBound(ops[1..]);
    }
  }

  // ---- One step ----

  /** Space reservation: an operation with budget left finds room in the log. */
  lemma ReservationHolds(lay: Layout, s: Sys, p: nat)
    requires lay.Valid() && Inv(lay, s) && s.phase.Serving?
    requires p < |s.ops| && s.ops[p].Active? && s.ops[p].used < MAXOPBLOCKS
    ensures |s.blocks| < LOGBLOCKS
  {
    CountUpdate(s.ops, p, Idle);
  }

  lemma BeginKeeps(lay: Layout, s: Sys, e: Event, s': Sys)
    requires lay.Valid() && Inv(lay, s) && e.Begin? && Next(lay, s, e, s')
    ensures Inv(lay, s') && StoreNext(Abs(lay, s), e, Abs(lay, s'))
  {
    CountUpdate(s.ops, e.p, Active(0, {}));
    BudgetBound(s.ops);
    forall b | Dirty(s.ops, b) ensures Dirty(s'.ops, b) {
      var q :| 0 <= q < |s.ops| && s.ops[q].Active? && b in s.ops[q].dirty;
      assert s'.ops[q] == s.ops[q];
    }
    assert Open(s'.ops) == Open(s.ops) + {e.p};
  }

  lemma ModifyKeeps(lay: Layout, s: Sys, e: Event, s': Sys)
    requires lay.Valid() && Inv(lay, s) && e.Modify? && Next(lay, s, e, s')
    ensures Inv(lay, s') && StoreNext(Abs(lay, s), e, Abs(lay, s'))
  {
    CountUpdate(s.ops, e.p, s'.ops[e.p]);
    forall b | Dirty(s.ops, b) || b == e.b ensures Dirty(s'.ops, b) {
      if b == e.b {
        assert b in s'.ops[e.p].dirty;
      } else {
        var q :| 0 <= q < |s.ops| && s.ops[q].Active? && b in s.ops[q].dirty;
        assert b in s'.ops[q].dirty;
      }
    }
    assert Open(s'.ops) == Open(s.ops);
    assert HomeOf(lay, s'.mem) == HomeOf(lay, s.mem)[e.b := e.v];
  }

  lemma LogWriteKeeps(lay: Layout, s: Sys, e: Event, s': Sys)
    requires lay.Valid() && Inv(lay, s) && e.LogWrite? && Next(lay, s, e, s') && Disciplined(s, e)
    ensures Inv(lay, s') && StoreNext(Abs(lay, s), e, Abs(lay, s'))
  {
    ReservationHolds(lay, s, e.p);
    CountUpdate(s.ops, e.p, s'.ops[e.p]);
    forall b | Dirty(s.ops, b) && b != e.b ensures Dirty(s'.ops, b) {
      var q :| 0 <= q < |s.ops| && s.ops[q].Active? && b in s.ops[q].dirty;
      assert b in s'.ops[q].dirty;
    }
    assert Open(s'.ops) == Open(s.ops);
  }

  lemma EndKeeps(lay: Layout, s: Sys, e: Event, s': Sys)
    requires lay.Valid() && Inv(lay, s) && e.End? && Next(lay, s, e, s')
    ensures Inv(lay, s') && StoreNext(Abs(lay, s), e, Abs(lay, s'))
  {
    CountUpdate(s.ops, e.p, Idle);
    forall b | Dirty(s.ops, b) ensures Dirty(s'.ops, b) {
      var q :| 0 <= q < |s.ops| && s.ops[q].Active? && b in s.ops[q].dirty;
      assert b in s'.ops[q].dirty;
    }
    assert Open(s'.ops) == Open(s.ops) - {e.p};
  }

  /** During a commit the durable store is the old one until the header is written, then the new one. */
  lemma DurableWhileCommitting(lay: Layout, base: Image, mem: Image, blocks: seq<int>, k: nat)
    requires ValidDisk(lay, base) && ValidImage(lay, mem) && ValidList(lay, blocks)
    requires HeaderList(lay, base[lay.start]) == [] && k <= 2 * |blocks| + 2
    requires forall b :: lay.Home(b) ==> mem[b] == base[b] || b in blocks
    ensures ValidDisk(lay, CommitImage(lay, base, mem, blocks, k))
    ensures HomeOf(lay, Recover(lay, CommitImage(lay, base, mem, blocks, k))) ==
      HomeOf(lay, if k <= |blocks| then base else mem)
  {
    CommitCrashAtomic(lay, base, mem, blocks, k);
    UpdatedAll(lay, base, mem, blocks);
  }

  lemma UpdatedAll(lay: Layout, base: Image, mem: Image, blocks: seq<int>)
    requires lay.Valid() && |base| == |mem| == lay.size && ValidList(lay, blocks)
    requires forall b :: lay.Home(b) ==> mem[b] == base[b] || b in blocks
    ensures Updated(lay, base, mem, blocks) == HomeOf(lay, mem)
  {
  }

  lemma CommitWriteInv(lay: Layout, s: Sys, s': Sys)
    requires lay.Valid() && Inv(lay, s) && Next(lay, s, CommitWrite, s')
    ensures Inv(lay, s')
  {
    DurableWhileCommitting(lay, s.phase.base, s.mem, s.blocks, s.phase.done + 1);
  }

  lemma CommitWriteDurable(lay: Layout, s: Sys)
    requires lay.Valid() && Inv(lay, s) && s.phase.Committing? && s.blocks != []
    ensures Abs(lay, s) == Store(HomeOf(lay, s.mem), HomeOf(lay, if s.phase.done <= |s.blocks| then s.phase.base else s.mem), {})
  {
    DurableWhileCommitting(lay, s.phase.base, s.mem, s.blocks, s.phase.done);
    assert Open(s.ops) == {};
  }

  /** The header write is the one commit write that changes the store: it makes everything durable. */
  lemma CommitWriteKeeps(lay: Layout, s: Sys, s': Sys)
    requires lay.Valid() && Inv(lay, s) && Next(lay, s, CommitWrite, s')
    ensures Inv(lay, s') && StoreNext(Abs(lay, s), CommitWrite, Abs(lay, s'))
  {
    CommitWriteInv(lay, s, s');
    CommitWriteDurable(lay, s);
    CommitWriteDurable(lay, s');
  }

  lemma CommitDoneKeeps(lay: Layout, s: Sys, s': Sys)
    requires lay.Valid() && Inv(lay, s) && Next(lay, s, CommitDone, s')
    ensures Inv(lay, s') && StoreNext(Abs(lay, s), CommitDone, Abs(lay, s'))
  {
    BudgetBound(s.ops);
    if s.blocks != [] {
      CrashAfterCommit(lay, s.phase.base, s.mem, s.blocks);
      assert Updated(lay, s.phase.base, s.mem, s.blocks) == HomeOf(lay, s.mem);
      forall b | lay.Home(b) ensures s'.mem[b] == s'.disk[b] {
        assert HomeOf(lay, s.mem)[b] == HomeOf(lay, s.disk)[b];
      }
    }
  }

  lemma CrashKeeps(lay: Layout, s: Sys, s': Sys)
    requires lay.Valid() && Inv(lay, s) && Next(lay, s, Crash, s')
    ensures Inv(lay, s') && StoreNext(Abs(lay, s), Crash, Abs(lay, s'))
  {
    assert Open(s'.ops) == {};
  }

  lemma RecoverWriteKeeps(lay: Layout, s: Sys, s': Sys)
    requires lay.Valid() && Inv(lay, s) && Next(lay, s, RecoverWrite, s')
    ensures Inv(lay, s') && StoreNext(Abs(lay, s), RecoverWrite, Abs(lay, s'))
  {
    RecoverCrash(lay, s.phase.base, s.phase.done);
    RecoverCrash(lay, s.phase.base, s.phase.done + 1);
  }

  lemma RecoverDoneKeeps(lay: Layout, s: Sys, s': Sys)
    requires lay.Valid() && Inv(lay, s) && Next(lay, s, RecoverDone, s')
    ensures Inv(lay, s') && StoreNext(Abs(lay, s), RecoverDone, Abs(lay, s'))
  {
    RecoverEmptiesHeader(lay, s.phase.base);
    RecoverEmpty(lay, s.disk);
    BudgetBound(s.ops);
  }

  /** Every step keeps the invariant and is a step of the atomic store, or invisible to it. */
  lemma StepRefines(lay: Layout, s: Sys, e: Event, s': Sys)
    requires lay.Valid() && Inv(lay, s) && Next(lay, s, e, s') && Disciplined(s, e)
    ensures Inv(lay, s')
    ensures StoreNext(Abs(lay, s), e, Abs(lay, s'))
  {
    match e
    case Begin(_) => BeginKeeps(lay, s, e, s');
    case Modify(_, _, _) => ModifyKeeps(lay, s, e, s');
    case LogWrite(_, _) => LogWriteKeeps(lay, s, e, s');
    case End(_) => EndKeeps(lay, s, e, s');
    case CommitWrite => CommitWriteKeeps(lay, s, s');
    case CommitDone => CommitDoneKeeps(lay, s, s');
    case Crash => CrashKeeps(lay, s, s');
    case RecoverWrite => RecoverWriteKeeps(lay, s, s');
    case RecoverDone => RecoverDoneKeeps(lay, s, s');
  }

  // ---- Whole runs ----

  ghost predicate Follows(lay: Layout, ss: seq<Sys>, es: seq<Event>, i: nat)
    requires lay.Valid() && i < |es| < |ss|
  {
    Next(lay, ss[i], es[i], ss[i + 1])
  }

  predicate Obeys(ss: seq<Sys>, es: seq<Event>, i: nat)
    requires i < |es| < |ss|
  {
    Disciplined(ss[i], es[i])
  }

  ghost predicate Run(lay: Layout, ss: seq<Sys>, es: seq<Event>)
    requires lay.Valid()
  {
    && |ss| == |es| + 1
    && Init(lay, ss[0])
    && forall i: nat {:trigger Follows(lay, ss, es, i)} :: i < |es| ==> Follows(lay, ss, es, i)
  }

  ghost predicate DisciplinedRun(lay: Layout, ss: seq<Sys>, es: seq<Event>)
    requires lay.Valid()
  {
    Run(lay, ss, es) && forall i: nat {:trigger Obeys(ss, es, i)} :: i < |es| ==> Obeys(ss, es, i)
  }

  lemma {:induction false} RunKeepsInv(lay: Layout, ss: seq<Sys>, es: seq<Event>, i: nat)
    requires lay.Valid() && DisciplinedRun(lay, ss, es) && i < |ss|
    ensures Inv(lay, ss[i])
  {
    if i > 0 {
      RunKeepsInv(lay, ss, es, i - 1);
      assert Follows(lay, ss, es, i - 1) && Obeys(ss, es, i - 1);
      StepRefines(lay, ss[i - 1], es[i - 1], ss[i]);
    }
  }

  /**
   In every state of every run: log_write has not panicked; log entries plus unused budgets fit the log;
   the entries are distinct; no operation is outstanding while a commit is in progress.
   */
  lemma ReservationInEveryRun(lay: Layout, ss: seq<Sys>, es: seq<Event>, i: nat)
    requires lay.Valid() && DisciplinedRun(lay, ss, es) && i < |ss|
    ensures !ss[i].phase.Panicked?
    ensures |ss[i].blocks| + Budget(ss[i].ops) <= LOGBLOCKS
    ensures Distinct(ss[i].blocks) && ValidList(lay, ss[i].blocks)
    ensures ss[i].phase.Committing? ==> Outstanding(ss[i].ops) == 0
  {
    RunKeepsInv(lay, ss, es, i);
    BudgetBound(ss[i].ops);
  }

  /** From a to a' what is durable is left alone, or all there is becomes durable while nobody is at work. */
  ghost predicate Durable(a: Store, a': Store, idle: bool) {
    a'.durable == a.durable || (idle && a'.durable == a.current)
  }

  /** Every step of a run is a step of the atomic store. */
  lemma StoreStep(lay: Layout, ss: seq<Sys>, es: seq<Event>, i: nat)
    requires lay.Valid() && DisciplinedRun(lay, ss, es) && i < |es|
    ensures Sized(lay, ss[i]) && Sized(lay, ss[i + 1]) && StoreNext(Abs(lay, ss[i]), es[i], Abs(lay, ss[i + 1]))
  {
    RunKeepsInv(lay, ss, es, i);
    assert Follows(lay, ss, es, i) && Obeys(ss, es, i);
    StepRefines(lay, ss[i], es[i], ss[i + 1]);
  }

  /** What is durable changes only while nobody is at work, and then to all there is. */
  lemma DurableStep(a: Store, e: Event, a': Store)
    requires StoreNext(a, e, a')
    ensures Durable(a, a', a.open == {})
  {
  }

  lemma DurableStart(lay: Layout, s: Sys)
    requires lay.Valid() && Init(lay, s)
    ensures Sized(lay, s) && NoneActive(s.ops) && Abs(lay, s).durable == Abs(lay, s).current
  {
  }

  lemma NoneOpen(ops: seq<Op>)
    ensures Open(ops) == {} <==> NoneActive(ops)
  {
    forall p: nat | p < |ops| && ops[p].Active? ensures p in Open(ops) {
    }
    if Open(ops) == {} {
      forall p | 0 <= p < |ops| ensures ops[p] == Idle {
        assert p !in Open(ops);
      }
    }
  }

  /** Durability: once the last end_op has finished its commit, a crash loses nothing. */
  lemma QuiescentMeansDurable(lay: Layout, s: Sys)
    requires lay.Valid() && Inv(lay, s) && s.phase.Serving? && NoneActive(s.ops)
    ensures s.blocks == [] && Abs(lay, s).durable == Abs(lay, s).current
  {
    RecoverEmpty(lay, s.disk);
    forall b | lay.Home(b) ensures s.mem[b] == s.disk[b] {
      assert !Dirty(s.ops, b);
    }
  }

  /** A quiet moment: the machine serves, and no operation is open. */
  predicate Quiet(s: Sys) {
    s.phase.Serving? && NoneActive(s.ops)
  }

  /** Recovery at i brings back the cache of moment j, a moment with no operation in progress. */
  ghost predicate Boundary(lay: Layout, ss: seq<Sys>, i: nat, j: nat, a: Store)
    requires lay.Valid() && i < |ss|
  {
    && j <= i && Sized(lay, ss[j]) && NoneActive(ss[j].ops) && a == Abs(lay, ss[j])
    && Sized(lay, ss[i]) && Abs(lay, ss[i]).durable == a.current
  }

  lemma BoundaryHere(lay: Layout, ss: seq<Sys>, es: seq<Event>, i: nat) returns (a: Store)
    requires lay.Valid() && DisciplinedRun(lay, ss, es) && i < |ss| && (Quiet(ss[i]) || i == 0)
    ensures Boundary(lay, ss, i, i, a)
  {
    if Quiet(ss[i]) {
      RunKeepsInv(lay, ss, es, i);
      QuiescentMeansDurable(lay, ss[i]);
    } else {
      DurableStart(lay, ss[0]);
    }
    a := Abs(lay, ss[i]);
  }

  lemma BoundaryNext(lay: Layout, ss: seq<Sys>, es: seq<Event>, i: nat, j: nat, a: Store) returns (j': nat, a': Store)
    requires lay.Valid() && DisciplinedRun(lay, ss, es) && i < |es| && Boundary(lay, ss, i, j, a)
    ensures Boundary(lay, ss, i + 1, j', a') && j <= j'
  {
    StoreStep(lay, ss, es, i);
    DurableStep(Abs(lay, ss[i]), es[i], Abs(lay, ss[i + 1]));
    NoneOpen(ss[i].ops);
    if Abs(lay, ss[i + 1]).durable == Abs(lay, ss[i]).durable {
      j', a' := j, a;
    } else {
      j', a' := i, Abs(lay, ss[i]);
    }
  }

  lemma {:induction false} BoundarySince(lay: Layout, ss: seq<Sys>, es: seq<Event>, k: nat, i: nat) returns (j: nat, a: Store)
    requires lay.Valid() && DisciplinedRun(lay, ss, es) && k <= i < |ss| && (Quiet(ss[k]) || k == 0)
    ensures Boundary(lay, ss, i, j, a) && k <= j
    decreases i
  {
    if i == k {
      j := k;
      a := BoundaryHere(lay, ss, es, k);
    } else {
      j, a := BoundarySince(lay, ss, es, k, i - 1);
      j, a := BoundaryNext(lay, ss, es, i - 1, j, a);
    }
  }

  /** The last quiet moment up to i, or the start. */
  function LastQuiet(ss: seq<Sys>, i: nat): (k: nat)
    requires i < |ss|
    ensures k <= i && (Quiet(ss[k]) || k == 0) && forall x: nat :: x <= i && Quiet(ss[x]) ==> x <= k
  {
    if Quiet(ss[i]) || i == 0 then i else LastQuiet(ss, i - 1)
  }

  /**
   Group atomicity and durability over every run: whenever the machine stops, recovery brings back the
   home blocks exactly as the cache held them at some moment with no operation in progress, and that
   moment is not before the last quiet one.
   */
  lemma RecoveredStateIsABoundary(lay: Layout, ss: seq<Sys>, es: seq<Event>, i: nat)
    returns (j: nat, a: Store)
    requires lay.Valid() && DisciplinedRun(lay, ss, es) && i < |ss|
    ensures Boundary(lay, ss, i, j, a)
    ensures forall k: nat :: k <= i && Quiet(ss[k]) ==> k <= j
  {
    j, a := BoundarySince(lay, ss, es, LastQuiet(ss, i), i);
  }

  // ---- What the store holds, told from the events ----

  /** The home blocks after the modifications among the events from i to j. */
  function After(current: map<int, Block>, es: seq<Event>, i: nat, j: nat): (r: map<int, Block>)
    requires i <= j <= |es|
    decreases j
  {
    if i == j then current
    else
      var r := After(current, es, i, j - 1);
      if es[j - 1].Modify? then r[es[j - 1].b := es[j - 1].v] else r
  }

  lemma CurrentStep(lay: Layout, ss: seq<Sys>, es: seq<Event>, i: nat, j: nat, start: map<int, Block>)
    requires lay.Valid() && DisciplinedRun(lay, ss, es) && i <= j < |es| && !es[j].Crash?
    requires Sized(lay, ss[j]) && Abs(lay, ss[j]).current == After(start, es, i, j)
    ensures Sized(lay, ss[j + 1]) && Abs(lay, ss[j + 1]).current == After(start, es, i, j + 1)
  {
    StoreStep(lay, ss, es, j);
  }

  lemma {:induction false} CurrentFrom(lay: Layout, ss: seq<Sys>, es: seq<Event>, i: nat, j: nat, start: map<int, Block>)
    requires lay.Valid() && DisciplinedRun(lay, ss, es) && i <= j < |ss| && Sized(lay, ss[i]) && Abs(lay, ss[i]).current == start
    requires forall k :: i <= k < j ==> !es[k].Crash?
    ensures Sized(lay, ss[j]) && Abs(lay, ss[j]).current == After(start, es, i, j)
    decreases j
  {
    if i < j {
      CurrentFrom(lay, ss, es, i, j - 1, start);
      CurrentStep(lay, ss, es, i, j - 1, start);
    }
  }

  /** Between crashes the store holds what its modifications, in order, have put there. */
  lemma CurrentIsTold(lay: Layout, ss: seq<Sys>, es: seq<Event>, i: nat, j: nat)
    requires lay.Valid() && DisciplinedRun(lay, ss, es) && i <= j < |ss|
    requires forall k :: i <= k < j ==> !es[k].Crash?
    ensures Sized(lay, ss[i]) && Sized(lay, ss[j]) && Abs(lay, ss[j]).current == After(Abs(lay, ss[i]).current, es, i, j)
  {
    RunKeepsInv(lay, ss, es, i);
    CurrentFrom(lay, ss, es, i, j, Abs(lay, ss[i]).current);
  }

  /**
   So after a crash at c the blocks are those that the modifications up to some moment with no operation
   in progress, not before the last quiet one, had left: for events i to c without a crash before, those
   of events i to j, every operation whole or not at all.
   */
  lemma CrashKeepsWholeOperations(lay: Layout, ss: seq<Sys>, es: seq<Event>, i: nat, c: nat) returns (j: nat)
    requires lay.Valid() && DisciplinedRun(lay, ss, es) && i <= c < |es| && es[c].Crash? && Quiet(ss[i])
    requires forall k :: i <= k < c ==> !es[k].Crash?
    ensures i <= j <= c && NoneActive(ss[j].ops) && forall k: nat :: k <= c && Quiet(ss[k]) ==> k <= j
    ensures Sized(lay, ss[i]) && Sized(lay, ss[c + 1]) && Abs(lay, ss[c + 1]).current == After(Abs(lay, ss[i]).current, es, i, j)
  {
    ghost var a;
    j, a := RecoveredStateIsABoundary(lay, ss, es, c);
    CurrentIsTold(lay, ss, es, i, j);
    StoreStep(lay, ss, es, c);
  }

  // ---- Few blocks are few entries ----

  /** The blocks operation p hands to log_write in events i .. j. */
  function Writes(es: seq<Event>, p: nat, i: nat, j: nat): (w: set<int>)
    requires i <= j <= |es|
    decreases j
  {
    if i == j then {} else Writes(es, p, i, j - 1) + WriteOf(es[j - 1], p)
  }

  function WriteOf(e: Event, p: nat): (w: set<int>) {
    if e.LogWrite? && e.p == p then {e.b} else {}
  }

  /** Operation p has logged w, all of it still in the log, with an entry for each block at most. */
  ghost predicate HasLogged(s: Sys, p: nat, w: set<int>) {
    && s.phase.Serving? && p < |s.ops| && s.ops[p].Active? && s.ops[p].used <= |w|
    && forall b :: b in w ==> b in s.blocks
  }

  /** Nothing that happens while p is open, a crash aside, takes blocks out of the log. */
  lemma HasLoggedStep(lay: Layout, s: Sys, e: Event, s': Sys, p: nat, w: set<int>)
    requires lay.Valid() && Next(lay, s, e, s') && HasLogged(s, p, w) && !e.Crash? && e != End(p)
    ensures s'.phase.Panicked? || HasLogged(s', p, w + WriteOf(e, p))
  {
    if e.LogWrite? && e.p == p {
      if e.b in w {
        assert w + {e.b} == w;
      }
    } else {
      assert w + WriteOf(e, p) == w;
      if e.End? {
        assert s'.ops[p].Active?;
      }
    }
  }

  lemma {:induction false} HasLoggedIn(lay: Layout, ss: seq<Sys>, es: seq<Event>, p: nat, i: nat, j: nat)
    requires lay.Valid() && Run(lay, ss, es) && i < j <= |es| && es[i] == Begin(p)
    requires forall k :: i < k < j ==> !es[k].Crash? && es[k] != End(p)
    ensures ss[j].phase.Panicked? || HasLogged(ss[j], p, Writes(es, p, i + 1, j))
    decreases j
  {
    assert Follows(lay, ss, es, j - 1);
    if j == i + 1 {
      HasLoggedStart(lay, ss[i], ss[j], p);
    } else {
      HasLoggedIn(lay, ss, es, p, i, j - 1);
      OnlyCrashEndsPanic(lay, ss[j - 1], es[j - 1], ss[j]);
      HasLoggedStep(lay, ss[j - 1], es[j - 1], ss[j], p, Writes(es, p, i + 1, j - 1));
    }
  }

  lemma HasLoggedStart(lay: Layout, s: Sys, s': Sys, p: nat)
    requires lay.Valid() && Next(lay, s, Begin(p), s')
    ensures HasLogged(s', p, {})
  {
  }

  lemma OnlyCrashEndsPanic(lay: Layout, s: Sys, e: Event, s': Sys)
    requires lay.Valid() && Next(lay, s, e, s') && !e.Crash?
    ensures !s.phase.Panicked?
  {
  }

  /**
   What an operation must do to be disciplined: hand fewer than MAXOPBLOCKS distinct blocks to
   log_write before each call, repetitions not counted.
   */
  lemma FewBlocksAreDisciplined(lay: Layout, ss: seq<Sys>, es: seq<Event>, p: nat, i: nat, j: nat)
    requires lay.Valid() && Run(lay, ss, es) && i < j < |es| && es[i] == Begin(p) && es[j].LogWrite? && es[j].p == p
    requires forall k :: i < k < j ==> !es[k].Crash? && es[k] != End(p)
    requires |Writes(es, p, i + 1, j)| < MAXOPBLOCKS
    ensures Disciplined(ss[j], es[j])
  {
    HasLoggedIn(lay, ss, es, p, i, j);
    assert Follows(lay, ss, es, j);
  }

  // ---- The budget must be strict ----

  function Used(m: nat, q: nat): (u: nat)
    ensures u <= MAXOPBLOCKS
  {
    if m <= MAXOPBLOCKS * q then 0 else if m - MAXOPBLOCKS * q < MAXOPBLOCKS then m - MAXOPBLOCKS * q else MAXOPBLOCKS
  }

  /** Three operations that have filled the first m entries of the log, ten each. */
  function Filling(lay: Layout, d: Image, m: nat): (s: Sys)
  {
    Sys(d, d, seq(m, i => lay.start + LOGBLOCKS + 1 + i),
        [Active(Used(m, 0), {}), Active(Used(m, 1), {}), Active(Used(m, 2), {})], Serving)
  }

  lemma FillingStep(lay: Layout, d: Image, m: nat)
    requires lay.Valid() && lay.start + LOGBLOCKS + 1 + LOGBLOCKS <= lay.size && m < LOGBLOCKS
    ensures Next(lay, Filling(lay, d, m), LogWrite(m / MAXOPBLOCKS, lay.start + LOGBLOCKS + 1 + m), Filling(lay, d, m + 1))
  {
    var s, s' := Filling(lay, d, m), Filling(lay, d, m + 1);
    var b := lay.start + LOGBLOCKS + 1 + m;
    assert b !in s.blocks;
    assert s'.blocks == s.blocks + [b];
    assert m / MAXOPBLOCKS == 0 || m / MAXOPBLOCKS == 1 || m / MAXOPBLOCKS == 2;
    assert s.ops[m / MAXOPBLOCKS].dirty - {b} == {};
  }

  /** The run up to the point where the log is still empty: recovery, then three begin_ops. */
  function Opening(d: Image, r: Image, i: nat): (s: Sys)
    requires i < 5
  {
    if i == 0 then Sys(d, d, [], [Idle, Idle, Idle], Recovering(d, 0))
    else if i == 1 then Sys(d, r, [], [Idle, Idle, Idle], Recovering(d, 1))
    else if i == 2 then Sys(r, r, [], [Idle, Idle, Idle], Serving)
    else if i == 3 then Sys(r, r, [], [Active(0, {}), Idle, Idle], Serving)
    else Sys(r, r, [], [Active(0, {}), Active(0, {}), Idle], Serving)
  }

  function OpeningEvent(i: nat): (e: Event) {
    if i == 0 then RecoverWrite else if i == 1 then RecoverDone else Begin(if i < 5 then i - 2 else 2)
  }

  lemma OpeningStep(lay: Layout, d: Image, i: nat)
    requires ValidDisk(lay, d) && HeaderList(lay, d[lay.start]) == [] && i < 5
    ensures var r := Recover(lay, d);
      Next(lay, Opening(d, r, i), OpeningEvent(i), if i == 4 then Filling(lay, r, 0) else Opening(d, r, i + 1))
  {
    var r := Recover(lay, d);
    var none: seq<Op> := [Idle, Idle, Idle];
    var one: seq<Op> := [Active(0, {}), Idle, Idle];
    assert none[1..] == [Idle, Idle] && one[1..] == [Idle, Idle];
    assert Outstanding([Idle, Idle]) == 0 by { BudgetBound([Idle, Idle]); }
    var two: seq<Op> := [Active(0, {}), Active(0, {}), Idle];
    assert two == one[1 := Active(0, {})];
    CountUpdate(one, 1, Active(0, {}));
    assert none[0 := Active(0, {})] == one;
    assert Filling(lay, r, 0).ops == two[2 := Active(0, {})];
    assert Filling(lay, r, 0).blocks == [];
  }

  /** The whole run: opening, thirty log_writes, one more of the first block. */
  function FullState(lay: Layout, d: Image, r: Image, i: nat): (s: Sys) {
    if i < 5 then Opening(d, r, i)
    else if i <= 5 + LOGBLOCKS then Filling(lay, r, i - 5)
    else Filling(lay, r, LOGBLOCKS).(phase := Panicked)
  }

  function FullEvent(lay: Layout, i: nat): (e: Event) {
    if i < 5 then OpeningEvent(i)
    else if i < 5 + LOGBLOCKS then LogWrite((i - 5) / MAXOPBLOCKS, lay.start + LOGBLOCKS + 1 + (i - 5))
    else LogWrite(0, lay.start + LOGBLOCKS + 1)
  }

  lemma FullStep(lay: Layout, d: Image, i: nat)
    requires ValidDisk(lay, d) && HeaderList(lay, d[lay.start]) == [] && i < 6 + LOGBLOCKS
    requires lay.start + LOGBLOCKS + 1 + LOGBLOCKS <= lay.size
    ensures var r := Recover(lay, d); Next(lay, FullState(lay, d, r, i), FullEvent(lay, i), FullState(lay, d, r, i + 1))
  {
    if i < 5 {
      OpeningStep(lay, d, i);
    } else if i < 5 + LOGBLOCKS {
      FillingStep(lay, Recover(lay, d), i - 5);
    }
  }

  /** The n blocks from b on. */
  function Span(b: int, n: nat): (blocks: set<int>)
    ensures |blocks| == n && forall x :: x in blocks <==> b <= x < b + n
  {
    if n == 0 then {} else Span(b, n - 1) + {b + n - 1}
  }

  /** Each operation of the run logs ten blocks of its own and no other. */
  lemma {:induction false} FullWrites(lay: Layout, es: seq<Event>, p: nat, i: nat)
    requires i <= |es| == LOGBLOCKS + 6 && forall j :: 0 <= j < |es| ==> es[j] == FullEvent(lay, j)
    ensures Writes(es, p, 0, i) <= Span(lay.start + LOGBLOCKS + 1 + MAXOPBLOCKS * p, MAXOPBLOCKS)
  {
    if i > 0 {
      FullWrites(lay, es, p, i - 1);
    }
  }

  lemma {:induction false} WritesHas(es: seq<Event>, p: nat, b: int, j: nat, i: nat)
    requires j < i <= |es| && es[j] == LogWrite(p, b)
    ensures b in Writes(es, p, 0, i)
  {
    if j < i - 1 {
      WritesHas(es, p, b, j, i - 1);
    }
  }

  /**
   "At most MAXOPBLOCKS distinct blocks" is not enough for log_write's callers: three operations
   that log ten blocks each fill the log, and when one of them logs one of its own blocks again, it
   panics, because the kernel tests for a full log before it looks for the block to absorb.
   */
  lemma FullLogPanics(lay: Layout, d: Image) returns (ss: seq<Sys>, es: seq<Event>)
    requires ValidDisk(lay, d) && HeaderList(lay, d[lay.start]) == []
    requires lay.start + LOGBLOCKS + 1 + LOGBLOCKS <= lay.size
    ensures Run(lay, ss, es)
    ensures forall p: nat, i: nat :: i <= |es| ==> |Writes(es, p, 0, i)| <= MAXOPBLOCKS
    ensures var last := |es| - 1;
      && last >= 0 && es[last].LogWrite? && es[last].b in Writes(es, es[last].p, 0, last)
      && es[last].b in ss[last].blocks && ss[last + 1].phase.Panicked?
  {
    var r := Recover(lay, d);
    ss := seq(LOGBLOCKS + 7, (i: nat) => FullState(lay, d, r, i));
    es := seq(LOGBLOCKS + 6, (i: nat) => FullEvent(lay, i));
    forall i: nat | i < |es| ensures Follows(lay, ss, es, i) {
      FullStep(lay, d, i);
    }
    forall p: nat, i: nat | i <= |es| ensures |Writes(es, p, 0, i)| <= MAXOPBLOCKS {
      FullWrites(lay, es, p, i);
      SubsetSize(Writes(es, p, 0, i), Span(lay.start + LOGBLOCKS + 1 + MAXOPBLOCKS * p, MAXOPBLOCKS));
    }
    WritesHas(es, 0, lay.start + LOGBLOCKS + 1, 5, |es| - 1);
    assert Init(lay, ss[0]);
    assert Filling(lay, r, LOGBLOCKS).blocks[0] == lay.start + LOGBLOCKS + 1;
  }
}
