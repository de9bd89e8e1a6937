/**
 Whole runs of the transaction layer.  Every run is equivalent to running the
 committed transactions one after another, in the order in which they finished
 locking.
 */
module TxRuns {
  import opened Tx
  import opened TxMachine
  import opened TxSteps

  // ---- Whole runs ----

  ghost predicate Follows(ss: seq<Sys>, es: seq<Event>, i: nat)
    requires i < |es| < |ss|
  {
    Next(ss[i], es[i], ss[i + 1])
  }

  ghost predicate Run(ss: seq<Sys>, es: seq<Event>, init: Values) {
    && |ss| == |es| + 1 && Init(ss[0], init)
    && forall i: nat {:trigger Follows(ss, es, i)} :: i < |es| ==> Follows(ss, es, i)
  }

  lemma {:induction false} RunKeepsInv(ss: seq<Sys>, es: seq<Event>, init: Values, i: nat)
    requires Run(ss, es, init) && i < |ss|
    ensures Inv(ss[i], init)
  {
    if i > 0 {
      RunKeepsInv(ss, es, init, i - 1);
      assert Follows(ss, es, i - 1);
      StepKeeps(ss[i - 1], es[i - 1], ss[i], init);
    }
  }

  /** In every state of every run an object is in at most one live workset, and worksets stay sorted. */
  lemma ExclusiveInEveryRun(ss: seq<Sys>, es: seq<Event>, init: Values, i: nat)
    requires Run(ss, es, init) && i < |ss|
    ensures forall t :: 0 <= t < |ss[i].txs| ==> Sorted(ss[i].txs[t].ws)
    ensures forall t, u, h | 0 <= t < |ss[i].txs| && 0 <= u < |ss[i].txs| ::
      Has(ss[i].txs[t].ws, h) && Has(ss[i].txs[u].ws, h) ==> t == u
  {
    var s := ss[i];
    RunKeepsInv(ss, es, init, i);
    forall t | 0 <= t < |s.txs| ensures Sorted(s.txs[t].ws) {
      assert OwnsWorkset(s, t);
    }
    forall t, u, h | 0 <= t < |s.txs| && 0 <= u < |s.txs| && Has(s.txs[t].ws, h) && Has(s.txs[u].ws, h) ensures t == u {
      Exclusive(s, t, u, h);
    }
  }

  /**
   Serializability: in every state of every run the committed transactions, run one after another
   in commit order from the initial payloads, see every value they saw; and wherever no commit is
   in the middle of its swaps, the objects' payloads are exactly the result of that serial run.
   */
  lemma Serializable(ss: seq<Sys>, es: seq<Event>, init: Values, i: nat)
    requires Run(ss, es, init) && i < |ss|
    ensures SerialFaithful(init, ss[i].history)
    ensures Serial(init, ss[i].history).Keys == ss[i].data.Keys
    ensures (forall t :: 0 <= t < |ss[i].txs| ==> !ss[i].txs[t].phase.Swapping?) ==>
      forall h :: h in ss[i].data ==>
        ss[i].data[h] in ss[i].mem && ss[i].mem[ss[i].data[h]].v == Serial(init, ss[i].history)[h]
  {
    RunKeepsInv(ss, es, init, i);
  }

  /** No two objects share a payload page, and no private shadow is anybody's payload. */
  lemma NoAliasing(ss: seq<Sys>, es: seq<Event>, init: Values, i: nat)
    requires Run(ss, es, init) && i < |ss|
    ensures forall h, k :: h in ss[i].data && k in ss[i].data && h != k ==> ss[i].data[h] != ss[i].data[k]
    ensures forall t: nat, j: nat, h | t < |ss[i].txs| && j < |ss[i].txs[t].ws| && h in ss[i].data ::
      HasShadow(ss[i].txs[t], j) ==> ss[i].txs[t].ws[j].shadow != ss[i].data[h]
  {
    var s := ss[i];
    RunKeepsInv(ss, es, init, i);
    forall t: nat, j: nat, h | t < |s.txs| && j < |s.txs[t].ws| && h in s.data && HasShadow(s.txs[t], j)
      ensures s.txs[t].ws[j].shadow != s.data[h]
    {
      assert OwnsWorkset(s, t);
    }
  }

  // ---- Locks ----

  predicate HoldsLock(tx: Txn, j: nat) {
    && j < |tx.ws|
    && match tx.phase
       case Locking(i, _) => j < i
       case Swapping(_) => true
       case Unlocking(i, _) => i <= j
       case _ => false
  }

  /** The locks held are exactly those of the entries a commit or abort has locked and not unlocked. */
  ghost predicate LockInv(s: Sys) {
    && (forall h :: h in s.locks ==>
          s.locks[h] < |s.txs| && exists j: nat :: HoldsLock(s.txs[s.locks[h]], j) && s.txs[s.locks[h]].ws[j].header == h)
    && (forall t: nat, j: nat :: t < |s.txs| && HoldsLock(s.txs[t], j) ==>
          s.txs[t].ws[j].header in s.locks && s.locks[s.txs[t].ws[j].header] == t)
    && (forall t :: 0 <= t < |s.txs| && s.txs[t].phase.Locking? ==> s.txs[t].phase.i <= |s.txs[t].ws|)
    && (forall t :: 0 <= t < |s.txs| && s.txs[t].phase.Swapping? ==> s.txs[t].phase.i <= |s.txs[t].ws|)
    && (forall t :: 0 <= t < |s.txs| && s.txs[t].phase.Unlocking? ==> s.txs[t].phase.i <= |s.txs[t].ws|)
  }

  /** Transaction t holds the same locks before and after. */
  ghost predicate SameHeld(tx: Txn, tx': Txn) {
    && (forall j: nat :: HoldsLock(tx, j) <==> HoldsLock(tx', j))
    && (forall j: nat :: HoldsLock(tx, j) ==> tx'.ws[j].header == tx.ws[j].header)
    && (tx'.phase.Locking? || tx'.phase.Swapping? || tx'.phase.Unlocking? ==> tx'.phase.i <= |tx'.ws|)
  }

  lemma SameHeldKeeps(s: Sys, t: TxId, s': Sys)
    requires LockInv(s) && t < |s.txs| == |s'.txs| && SameHeld(s.txs[t], s'.txs[t])
    requires s'.locks == s.locks && s'.txs == s.txs[t := s'.txs[t]]
    ensures LockInv(s')
  {
    forall h | h in s'.locks
      ensures exists j: nat :: HoldsLock(s'.txs[s'.locks[h]], j) && s'.txs[s'.locks[h]].ws[j].header == h
    {
      var j: nat :| HoldsLock(s.txs[s.locks[h]], j) && s.txs[s.locks[h]].ws[j].header == h;
      assert HoldsLock(s'.txs[s'.locks[h]], j) && s'.txs[s'.locks[h]].ws[j].header == h;
    }
  }

  lemma LockStepKeeps(s: Sys, e: Event, s': Sys)
    requires LockInv(s) && !e.Outside? && Next(s, e, s')
    requires !e.Lock? && !e.Unlock?
    ensures LockInv(s')
  {
    QuietHeld(s, e, s');
    SameHeldKeeps(s, e.t, s');
  }

  /** Other steps leave the locks held alone. */
  lemma QuietHeld(s: Sys, e: Event, s': Sys)
    requires LockInv(s) && !e.Outside? && Next(s, e, s') && !e.Lock? && !e.Unlock?
    ensures SameHeld(s.txs[e.t], s'.txs[e.t])
  {
  }

  lemma LockKeeps(s: Sys, e: Event, s': Sys)
    requires Ownership(s) && LockInv(s) && e.Lock? && Next(s, e, s')
    ensures LockInv(s')
  {
    var t := e.t;
    var i := s.txs[t].phase.i;
    assert OwnsWorkset(s, t);
    forall h | h in s'.locks
      ensures s'.locks[h] < |s'.txs| && exists j: nat :: HoldsLock(s'.txs[s'.locks[h]], j) && s'.txs[s'.locks[h]].ws[j].header == h
    {
      if h == s.txs[t].ws[i].header {
        assert HoldsLock(s'.txs[t], i);
      } else {
        var j: nat :| HoldsLock(s.txs[s.locks[h]], j) && s.txs[s.locks[h]].ws[j].header == h;
        assert HoldsLock(s'.txs[s'.locks[h]], j);
      }
    }
    forall u: nat, j: nat | u < |s.txs| && HoldsLock(s'.txs[u], j)
      ensures s'.txs[u].ws[j].header in s'.locks && s'.locks[s'.txs[u].ws[j].header] == u
    {
      if u != t || j != i {
        assert HoldsLock(s.txs[u], j);
      }
    }
  }

  /** Unlocking entry i leaves every other lock with its holder. */
  lemma UnlockHolder(s: Sys, e: Event, s': Sys, h: Header)
    requires Ownership(s) && LockInv(s) && e.Unlock? && Next(s, e, s') && h in s'.locks
    ensures s'.locks[h] < |s'.txs| && exists j: nat :: HoldsLock(s'.txs[s'.locks[h]], j) && s'.txs[s'.locks[h]].ws[j].header == h
  {
    var j: nat :| HoldsLock(s.txs[s.locks[h]], j) && s.txs[s.locks[h]].ws[j].header == h;
    assert HoldsLock(s'.txs[s'.locks[h]], j) && s'.txs[s'.locks[h]].ws[j].header == h;
  }

  lemma UnlockHeld(s: Sys, e: Event, s': Sys, u: TxId, j: nat)
    requires Ownership(s) && LockInv(s) && e.Unlock? && Next(s, e, s') && u < |s.txs| && HoldsLock(s'.txs[u], j)
    ensures s'.txs[u].ws[j].header in s'.locks && s'.locks[s'.txs[u].ws[j].header] == u
  {
    var i := s.txs[e.t].phase.i;
    assert OwnsWorkset(s, e.t) && HoldsLock(s.txs[e.t], i);
    assert HoldsLock(s.txs[u], j);
  }

  lemma UnlockKeeps(s: Sys, e: Event, s': Sys)
    requires Ownership(s) && LockInv(s) && e.Unlock? && Next(s, e, s')
    ensures LockInv(s')
  {
    forall h | h in s'.locks
      ensures s'.locks[h] < |s'.txs| && exists j: nat :: HoldsLock(s'.txs[s'.locks[h]], j) && s'.txs[s'.locks[h]].ws[j].header == h
    {
      UnlockHolder(s, e, s', h);
    }
    forall u: nat, j: nat | u < |s.txs| && HoldsLock(s'.txs[u], j)
      ensures s'.txs[u].ws[j].header in s'.locks && s'.locks[s'.txs[u].ws[j].header] == u
    {
      UnlockHeld(s, e, s', u, j);
    }
  }

  lemma {:induction false} RunKeepsLocks(ss: seq<Sys>, es: seq<Event>, init: Values, i: nat)
    requires Run(ss, es, init) && i < |ss|
    ensures LockInv(ss[i])
  {
    if i > 0 {
      RunKeepsInv(ss, es, init, i - 1);
      RunKeepsLocks(ss, es, init, i - 1);
      assert Follows(ss, es, i - 1);
      var s, e, s' := ss[i - 1], es[i - 1], ss[i];
      if e.Lock? {
        LockKeeps(s, e, s');
      } else if e.Unlock? {
        UnlockKeeps(s, e, s');
      } else if !e.Outside? {
        LockStepKeeps(s, e, s');
      }
    }
  }

  /** In every run, a commit or abort that wants its next lock finds it free of other transactions. */
  lemma LocksNeverContended(ss: seq<Sys>, es: seq<Event>, init: Values, i: nat, t: TxId)
    requires Run(ss, es, init) && i < |ss| && t < |ss[i].txs|
    requires ss[i].txs[t].phase.Locking? && ss[i].txs[t].phase.i < |ss[i].txs[t].ws|
    ensures ss[i].txs[t].ws[ss[i].txs[t].phase.i].header !in ss[i].locks
  {
    var s := ss[i];
    var h := s.txs[t].ws[s.txs[t].phase.i].header;
    RunKeepsInv(ss, es, init, i);
    RunKeepsLocks(ss, es, init, i);
    assert OwnsWorkset(s, t);
    if h in s.locks {
      var u := s.locks[h];
      Exclusive(s, t, u, h);
    }
  }
}
