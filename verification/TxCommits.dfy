/**
 What a run of the transaction layer does, told from its events alone: which
 transactions took their place in the serial order and with which accesses, where
 the payload pointers are once a commit has swapped, who may take an object, and
 that no page is lost.
 */
module TxCommits {
  import opened Tx
  import opened TxMachine
  import opened TxSteps
  import opened TxRuns

  // ---- The history, told from the events ----

  /** Event e is a step of transaction t. */
  predicate By(e: Event, t: TxId) {
    !e.Outside? && e.t == t
  }

  /** t's accesses since its last txbegin. */
  function Acts(es: seq<Event>, t: TxId): (acts: seq<Act>) {
    if es == [] then []
    else
      var front, e := es[..|es| - 1], es[|es| - 1];
      if e == Begin(t) then []
      else if e.Access? && By(e, t) then Acts(front, t) + [e.a]
      else Acts(front, t)
  }

  /** The last thing t asked for is to commit. */
  predicate Asked(es: seq<Event>, t: TxId) {
    es != [] &&
    var front, e := es[..|es| - 1], es[|es| - 1];
    if e == Begin(t) || e == Abort(t) then false else e == Commit(t) || Asked(front, t)
  }

  /** One record for each transaction that gets all its locks in order to commit, one for each write outside. */
  function Records(es: seq<Event>): (r: seq<Record>) {
    if es == [] then []
    else
      var front, e := es[..|es| - 1], es[|es| - 1];
      if e.Outside? then Records(front) + [Loaded(e.h, e.v)]
      else if e.AllLocked? && Asked(front, e.t) then Records(front) + [Ran(Acts(front, e.t))]
      else Records(front)
  }

  /** Transaction t is where its events say. */
  ghost predicate ToldBy(es: seq<Event>, tx: Txn, t: TxId) {
    && (!tx.phase.Out? ==> tx.journal == Acts(es, t))
    && (tx.phase.Working? ==> !Asked(es, t))
    && (tx.phase.Locking? ==> tx.phase.commit == Asked(es, t))
  }

  ghost predicate Told(es: seq<Event>, s: Sys) {
    && s.history == Records(es)
    && forall t: nat {:trigger s.txs[t]} :: t < |s.txs| ==> ToldBy(es, s.txs[t], t)
  }

  lemma TellOwn(es: seq<Event>, s: Sys, e: Event, s': Sys, t: TxId)
    requires Next(s, e, s') && t < |s.txs| && By(e, t) && ToldBy(es, s.txs[t], t)
    ensures |s'.txs| == |s.txs| && ToldBy(es + [e], s'.txs[t], t)
  {
    assert (es + [e])[..|es|] == es;
  }

  lemma TellOne(es: seq<Event>, s: Sys, e: Event, s': Sys, t: TxId)
    requires Next(s, e, s') && t < |s.txs| && ToldBy(es, s.txs[t], t)
    ensures |s'.txs| == |s.txs| && ToldBy(es + [e], s'.txs[t], t)
  {
    if By(e, t) {
      TellOwn(es, s, e, s', t);
    } else {
      OthersStay(s, e, s', t);
      assert (es + [e])[..|es|] == es;
    }
  }

  lemma TellHistory(es: seq<Event>, s: Sys, e: Event, s': Sys)
    requires Next(s, e, s') && s.history == Records(es) && (e.AllLocked? ==> ToldBy(es, s.txs[e.t], e.t))
    ensures s'.history == Records(es + [e])
  {
    assert (es + [e])[..|es|] == es;
  }

  lemma TellNext(es: seq<Event>, s: Sys, e: Event, s': Sys)
    requires Told(es, s) && Next(s, e, s')
    ensures Told(es + [e], s')
  {
    TellHistory(es, s, e, s');
    forall t: nat | t < |s'.txs| ensures ToldBy(es + [e], s'.txs[t], t) {
      TellOne(es, s, e, s', t);
    }
  }

  lemma {:induction false} ToldInRun(ss: seq<Sys>, es: seq<Event>, init: Values, i: nat)
    requires Run(ss, es, init) && i < |ss|
    ensures Told(es[..i], ss[i])
  {
    if i > 0 {
      ToldInRun(ss, es, init, i - 1);
      assert Follows(ss, es, i - 1);
      TellNext(es[..i - 1], ss[i - 1], es[i - 1], ss[i]);
      assert es[..i - 1] + [es[i - 1]] == es[..i];
    }
  }

  /** In every run the history is the one its events tell. */
  lemma HistoryIsTold(ss: seq<Sys>, es: seq<Event>, init: Values, i: nat)
    requires Run(ss, es, init) && i < |ss|
    ensures ss[i].history == Records(es[..i])
  {
    ToldInRun(ss, es, init, i);
  }

  // ---- From txcommit to the end of the transaction ----

  /** t is past its commit point. */
  predicate PastPoint(tx: Txn) {
    tx.phase.Swapping? || (tx.phase.Unlocking? && tx.phase.commit) || (tx.phase.Finishing? && tx.phase.commit)
  }

  /** Between c and j, t has got all its locks exactly once, at k. */
  ghost predicate OnceAt(es: seq<Event>, c: nat, j: nat, t: TxId, k: nat) {
    c < k < j <= |es| && es[k] == AllLocked(t) && forall x :: c < x < j && x != k ==> es[x] != AllLocked(t)
  }

  predicate BeforePoint(tx: Txn) {
    tx.phase.Locking? && tx.phase.commit
  }

  lemma OthersStay(s: Sys, e: Event, s': Sys, t: TxId)
    requires Next(s, e, s') && t < |s.txs| && !By(e, t)
    ensures |s'.txs| == |s.txs| && s'.txs[t] == s.txs[t]
  {
  }

  lemma OwnNext(s: Sys, e: Event, s': Sys, t: TxId)
    requires Next(s, e, s') && t < |s.txs| && By(e, t) && (BeforePoint(s.txs[t]) || PastPoint(s.txs[t]))
    ensures |s'.txs| == |s.txs| && !e.Begin? && !e.Abort? && !e.Commit? && !e.Access?
    ensures e.AllLocked? ==> BeforePoint(s.txs[t]) && PastPoint(s'.txs[t])
    ensures !e.AllLocked? && BeforePoint(s.txs[t]) ==> BeforePoint(s'.txs[t])
    ensures PastPoint(s.txs[t]) ==> PastPoint(s'.txs[t]) || s'.txs[t].phase.Out?
  {
  }

  /** A transaction that has asked to commit goes to its commit point and on to its end, and does nothing else. */
  lemma PointNext(s: Sys, e: Event, s': Sys, t: TxId)
    requires Next(s, e, s') && t < |s.txs| && (BeforePoint(s.txs[t]) || PastPoint(s.txs[t]))
    ensures |s'.txs| == |s.txs| && e != Begin(t) && e != Abort(t) && e != Commit(t) && !(e.Access? && By(e, t))
    ensures e == AllLocked(t) ==> BeforePoint(s.txs[t]) && PastPoint(s'.txs[t])
    ensures e != AllLocked(t) && BeforePoint(s.txs[t]) ==> BeforePoint(s'.txs[t])
    ensures PastPoint(s.txs[t]) ==> PastPoint(s'.txs[t]) || s'.txs[t].phase.Out?
  {
    if By(e, t) { OwnNext(s, e, s', t); } else { OthersStay(s, e, s', t); }
  }

  /** Such a step adds nothing to what the transaction has done. */
  lemma ActsNext(es: seq<Event>, j: nat, t: TxId)
    requires j < |es| && es[j] != Begin(t) && es[j] != Abort(t) && !(es[j].Access? && By(es[j], t))
    ensures Acts(es[..j + 1], t) == Acts(es[..j], t)
    ensures Asked(es[..j], t) ==> Asked(es[..j + 1], t)
  {
    assert es[..j + 1][..j] == es[..j];
  }

  /** Where t is at j, having asked at c to commit: k is its commit point, if it is past it. */
  ghost predicate OnPath(es: seq<Event>, c: nat, j: nat, t: TxId, tx: Txn, k: nat) {
    && c < j <= |es| && Acts(es[..j], t) == Acts(es[..c], t) && Asked(es[..j], t)
    && if PastPoint(tx)
       then OnceAt(es, c, j, t, k) && Asked(es[..k], t) && Acts(es[..k], t) == Acts(es[..c], t)
       else BeforePoint(tx) && forall x :: c < x < j ==> es[x] != AllLocked(t)
  }

  lemma PathNext(s: Sys, s': Sys, es: seq<Event>, c: nat, j: nat, t: TxId, k: nat) returns (k': nat)
    requires j < |es| && Next(s, es[j], s') && t < |s.txs| && OnPath(es, c, j, t, s.txs[t], k)
    ensures |s'.txs| == |s.txs|
    ensures s'.txs[t].phase.Out? ==> PastPoint(s.txs[t]) && es[j] != AllLocked(t)
    ensures !s'.txs[t].phase.Out? ==> OnPath(es, c, j + 1, t, s'.txs[t], k')
  {
    PointNext(s, es[j], s', t);
    ActsNext(es, j, t);
    k' := if es[j] == AllLocked(t) then j else k;
  }

  lemma {:induction false} CommitPath(ss: seq<Sys>, es: seq<Event>, init: Values, c: nat, t: TxId, j: nat) returns (k: nat)
    requires Run(ss, es, init) && c < j < |ss| && es[c] == Commit(t)
    requires forall x :: c < x <= j ==> t < |ss[x].txs| && !ss[x].txs[t].phase.Out?
    ensures OnPath(es, c, j, t, ss[j].txs[t], k)
  {
    assert Follows(ss, es, j - 1);
    if j > c + 1 {
      var k0 := CommitPath(ss, es, init, c, t, j - 1);
      k := PathNext(ss[j - 1], ss[j], es, c, j - 1, t, k0);
    } else {
      assert es[..j][..c] == es[..c];
      k := 0;
    }
  }

  lemma HistoryNext(ss: seq<Sys>, es: seq<Event>, init: Values, x: nat)
    requires Run(ss, es, init) && x < |es| && !es[x].Outside?
    ensures ss[x + 1].history == ss[x].history +
      if es[x].AllLocked? && Asked(es[..x], es[x].t) then [Ran(Acts(es[..x], es[x].t))] else []
  {
    HistoryIsTold(ss, es, init, x);
    HistoryIsTold(ss, es, init, x + 1);
    assert es[..x + 1][..x] == es[..x];
  }

  lemma CommitPoint(ss: seq<Sys>, es: seq<Event>, init: Values, c: nat, t: TxId, o: nat) returns (k: nat)
    requires Run(ss, es, init) && c < o < |ss| && es[c] == Commit(t) && t < |ss[o].txs| && ss[o].txs[t].phase.Out?
    requires forall x :: c < x < o ==> t < |ss[x].txs| && !ss[x].txs[t].phase.Out?
    ensures OnceAt(es, c, o, t, k) && Asked(es[..k], t) && Acts(es[..k], t) == Acts(es[..c], t)
  {
    assert Follows(ss, es, c) && Follows(ss, es, o - 1);
    k := CommitPath(ss, es, init, c, t, o - 1);
    var _ := PathNext(ss[o - 1], ss[o], es, c, o - 1, t, k);
  }

  /**
   Every transaction that goes from txcommit to its end has got, in between and once, its place in the
   serial order, with exactly the accesses it made since its txbegin.
   */
  lemma CommitIsRecorded(ss: seq<Sys>, es: seq<Event>, init: Values, c: nat, t: TxId, o: nat) returns (k: nat)
    requires Run(ss, es, init) && c < o < |ss| && es[c] == Commit(t) && t < |ss[o].txs| && ss[o].txs[t].phase.Out?
    requires forall x :: c < x < o ==> t < |ss[x].txs| && !ss[x].txs[t].phase.Out?
    ensures OnceAt(es, c, o, t, k)
    ensures ss[k + 1].history == ss[k].history + [Ran(Acts(es[..c], t))]
    ensures forall x :: c < x < o && x != k && By(es[x], t) ==> ss[x + 1].history == ss[x].history
  {
    k := CommitPoint(ss, es, init, c, t, o);
    HistoryNext(ss, es, init, k);
    forall x | c < x < o && x != k && By(es[x], t) ensures ss[x + 1].history == ss[x].history {
      HistoryNext(ss, es, init, x);
      assert es[x] != AllLocked(t);
    }
  }

  // ---- Payload pointers after the swaps ----

  /** Entry j's payload pointer has been moved by the commit in progress. */
  predicate Moved(tx: Txn, j: nat) {
    j < |tx.ws| && PastPoint(tx) && (tx.phase.Swapping? ==> j < tx.phase.i)
  }

  ghost predicate MovedIn(s: Sys) {
    forall t: nat, j: nat {:trigger Moved(s.txs[t], j)} :: t < |s.txs| && Moved(s.txs[t], j) ==>
      s.txs[t].ws[j].header in s.data && s.data[s.txs[t].ws[j].header] == s.txs[t].ws[j].shadow
  }

  lemma SwapMoves(s: Sys, e: Event, s': Sys, t: TxId, j: nat)
    requires Ownership(s) && e.Swap? && Next(s, e, s') && t < |s.txs| && Moved(s'.txs[t], j)
    requires Moved(s.txs[t], j) ==> s.txs[t].ws[j].header in s.data && s.data[s.txs[t].ws[j].header] == s.txs[t].ws[j].shadow
    ensures s'.txs[t].ws == s.txs[t].ws
    ensures s.txs[t].ws[j].header in s'.data && s'.data[s.txs[t].ws[j].header] == s.txs[t].ws[j].shadow
  {
    assert OwnsWorkset(s, t) && OwnsWorkset(s, e.t);
  }

  lemma MovedNext(s: Sys, e: Event, s': Sys)
    requires Ownership(s) && MovedIn(s) && Next(s, e, s')
    ensures MovedIn(s')
  {
    forall t: nat, j: nat | t < |s'.txs| && Moved(s'.txs[t], j)
      ensures s'.txs[t].ws[j].header in s'.data && s'.data[s'.txs[t].ws[j].header] == s'.txs[t].ws[j].shadow
    {
      if e.Swap? {
        SwapMoves(s, e, s', t, j);
      } else {
        assert Moved(s.txs[t], j);
      }
    }
  }

  /** In every run, once a commit has swapped, every object of its workset has the shadow as its payload. */
  lemma {:induction false} SwappedInEveryRun(ss: seq<Sys>, es: seq<Event>, init: Values, i: nat)
    requires Run(ss, es, init) && i < |ss|
    ensures MovedIn(ss[i])
    ensures forall t: nat, j: nat ::
      t < |ss[i].txs| && j < |ss[i].txs[t].ws| && (ss[i].txs[t].phase.Unlocking? || ss[i].txs[t].phase.Finishing?) && ss[i].txs[t].phase.commit ==>
        ss[i].txs[t].ws[j].header in ss[i].data && ss[i].data[ss[i].txs[t].ws[j].header] == ss[i].txs[t].ws[j].shadow
  {
    if i > 0 {
      SwappedInEveryRun(ss, es, init, i - 1);
      RunKeepsInv(ss, es, init, i - 1);
      assert Follows(ss, es, i - 1);
      MovedNext(ss[i - 1], es[i - 1], ss[i]);
    }
    forall t: nat, j: nat | t < |ss[i].txs| && j < |ss[i].txs[t].ws| && (ss[i].txs[t].phase.Unlocking? || ss[i].txs[t].phase.Finishing?) && ss[i].txs[t].phase.commit
      ensures ss[i].txs[t].ws[j].header in ss[i].data && ss[i].data[ss[i].txs[t].ws[j].header] == ss[i].txs[t].ws[j].shadow
    {
      assert Moved(ss[i].txs[t], j);
    }
  }

  // ---- Pages ----

  predicate ShadowAt(tx: Txn, j: nat, h: Header, p: Page) {
    j < |tx.ws| && tx.ws[j].header == h && tx.ws[j].shadow == p && HasShadow(tx, j)
  }

  ghost predicate OwnerHas(s: Sys, p: Page, o: Owner) {
    match o
    case Stable(h) => h in s.data && s.data[h] == p
    case Private(t, h) => t < |s.txs| && exists j: nat :: ShadowAt(s.txs[t], j, h, p)
  }

  /** Every allocated page is some object's payload, or the shadow of an entry of a live workset. */
  ghost predicate AllUsed(s: Sys) {
    forall p {:trigger s.mem[p]} :: p in s.mem ==> OwnerHas(s, p, s.mem[p].owner)
  }

  /** A transaction that keeps its shadows keeps their pages in use. */
  lemma KeptShadows(s: Sys, s': Sys, t: TxId, p: Page, o: Owner)
    requires OwnerHas(s, p, o) && t < |s.txs| && s'.data == s.data && |s'.txs| == |s.txs|
    requires s'.txs == s.txs[t := s'.txs[t]]
    requires forall j: nat :: HasShadow(s.txs[t], j) && j < |s.txs[t].ws| ==>
      exists i: nat :: ShadowAt(s'.txs[t], i, s.txs[t].ws[j].header, s.txs[t].ws[j].shadow)
    ensures OwnerHas(s', p, o)
  {
    if o.Private? {
      var j: nat :| ShadowAt(s.txs[o.t], j, o.h, p);
      if o.t != t { assert ShadowAt(s'.txs[o.t], j, o.h, p); }
    }
  }

  lemma BeginUses(s: Sys, e: Event, s': Sys)
    requires Ownership(s) && AllUsed(s) && Next(s, e, s') && e.Begin?
    ensures AllUsed(s')
  {
    assert OwnsWorkset(s, e.t);
    forall p | p in s'.mem ensures OwnerHas(s', p, s'.mem[p].owner) {
      KeptShadows(s, s', e.t, p, s.mem[p].owner);
    }
  }

  /** A workset with an entry more has the old shadows and the new one. */
  lemma InsertedShadows(tx: Txn, x: Entry, y: Entry)
    requires tx.phase.Working? && (y in tx.ws || y == x)
    ensures exists i: nat :: ShadowAt(tx.(ws := Inserted(tx.ws, x)), i, y.header, y.shadow)
  {
    InsertedElements(tx.ws, x);
    var ws := Inserted(tx.ws, x);
    assert y in ws;
    var i :| 0 <= i < |ws| && ws[i] == y;
    assert ShadowAt(tx.(ws := ws), i, y.header, y.shadow);
  }

  lemma TakenUses(s: Sys, t: TxId, x: Entry)
    requires Ownership(s) && AllUsed(s) && t < |s.txs| && s.txs[t].phase.Working?
    requires x.header in s.data && s.data[x.header] in s.mem && x.shadow !in s.mem
    ensures AllUsed(Taken(s, t, x))
  {
    var s' := Taken(s, t, x);
    assert s'.txs[t] == s.txs[t].(ws := Inserted(s.txs[t].ws, x));
    forall j: nat | HasShadow(s.txs[t], j) && j < |s.txs[t].ws|
      ensures exists i: nat :: ShadowAt(s'.txs[t], i, s.txs[t].ws[j].header, s.txs[t].ws[j].shadow)
    {
      InsertedShadows(s.txs[t], x, s.txs[t].ws[j]);
    }
    forall p | p in s'.mem ensures OwnerHas(s', p, s'.mem[p].owner) {
      if p in s.mem {
        KeptShadows(s, s', t, p, s.mem[p].owner);
      } else {
        InsertedShadows(s.txs[t], x, x);
      }
    }
  }

  lemma OpenUses(s: Sys, e: Event, s': Sys)
    requires Ownership(s) && AllUsed(s) && Next(s, e, s') && e.Open?
    ensures AllUsed(s')
  {
    var t := e.t;
    if |s.txs[t].ws| >= MAX_WORKSET || (e.h in s.writer && s.writer[e.h] != t) {
      PhaseKept(s, s', t);
    } else {
      TakenUses(s, t, Entry(e.h, e.page, e.readOnly));
    }
  }

  /** Transaction t keeps its workset and the shadows in it. */
  lemma PhaseKept(s: Sys, s': Sys, t: TxId)
    requires AllUsed(s) && t < |s.txs| && s'.data == s.data && |s'.txs| == |s.txs|
    requires s'.txs == s.txs[t := s'.txs[t]] && s'.txs[t].ws == s.txs[t].ws
    requires forall p :: p in s'.mem ==> p in s.mem && s'.mem[p].owner == s.mem[p].owner
    requires forall j: nat :: j < |s.txs[t].ws| && HasShadow(s.txs[t], j) ==> HasShadow(s'.txs[t], j)
    ensures AllUsed(s')
  {
    forall j: nat | HasShadow(s.txs[t], j) && j < |s.txs[t].ws|
      ensures exists i: nat :: ShadowAt(s'.txs[t], i, s.txs[t].ws[j].header, s.txs[t].ws[j].shadow)
    {
      assert ShadowAt(s'.txs[t], j, s.txs[t].ws[j].header, s.txs[t].ws[j].shadow);
    }
    forall p | p in s'.mem ensures OwnerHas(s', p, s'.mem[p].owner) {
      KeptShadows(s, s', t, p, s.mem[p].owner);
    }
  }

  /** Accesses and writes outside change contents only. */
  lemma StoreUses(s: Sys, e: Event, s': Sys)
    requires Ownership(s) && AllUsed(s) && Next(s, e, s') && (e.Access? || e.Outside?)
    ensures AllUsed(s')
  {
    if e.Access? {
      PhaseKept(s, s', e.t);
    } else {
      forall p | p in s'.mem ensures OwnerHas(s', p, s'.mem[p].owner) {
        assert OwnerHas(s, p, s.mem[p].owner);
      }
    }
  }

  lemma SwapUses(s: Sys, e: Event, s': Sys)
    requires Ownership(s) && AllUsed(s) && Next(s, e, s') && e.Swap?
    ensures AllUsed(s')
  {
    var t := e.t;
    var tx, x := s.txs[t], s.txs[t].ws[s.txs[t].phase.i];
    assert OwnsWorkset(s, t);
    forall p | p in s'.mem ensures OwnerHas(s', p, s'.mem[p].owner) {
      if p != x.shadow {
        var o := s.mem[p].owner;
        assert OwnerHas(s, p, o);
        if o.Private? {
          var j: nat :| ShadowAt(s.txs[o.t], j, o.h, p);
          assert ShadowAt(s'.txs[o.t], j, o.h, p);
        }
      }
    }
  }

  /** Locking, unlocking and the other moves from phase to phase keep shadows and pages. */
  lemma PhaseUses(s: Sys, e: Event, s': Sys)
    requires Ownership(s) && AllUsed(s) && Next(s, e, s')
    requires e.Commit? || e.Abort? || e.Lock? || e.AllLocked? || e.AllSwapped? || e.Unlock? || e.AllUnlocked?
    ensures AllUsed(s')
  {
    PhaseKept(s, s', e.t);
  }

  /** abort_fn frees the shadow; at the end none is left. */
  lemma FinishUses(s: Sys, e: Event, s': Sys)
    requires Ownership(s) && AllUsed(s) && Next(s, e, s') && e.Finish?
    ensures AllUsed(s')
  {
    var t := e.t;
    var tx := s.txs[t];
    assert OwnsWorkset(s, t);
    forall p | p in s'.mem ensures OwnerHas(s', p, s'.mem[p].owner) {
      var o := s.mem[p].owner;
      assert OwnerHas(s, p, o);
      if o.Private? {
        var j: nat :| ShadowAt(s.txs[o.t], j, o.h, p);
        assert ShadowAt(s'.txs[o.t], j, o.h, p);
      }
    }
  }

  lemma UsesNext(s: Sys, e: Event, s': Sys)
    requires Ownership(s) && AllUsed(s) && Next(s, e, s')
    ensures AllUsed(s')
  {
    match e
    case Begin(_) => BeginUses(s, e, s');
    case Open(_, _, _, _) => OpenUses(s, e, s');
    case Access(_, _, _) => StoreUses(s, e, s');
    case Outside(_, _, _) => StoreUses(s, e, s');
    case Swap(_) => SwapUses(s, e, s');
    case Finish(_) => FinishUses(s, e, s');
    case _ => PhaseUses(s, e, s');
  }

  /**
   Pages are conserved: in every run that starts with the objects' payloads and nothing else, every
   page is an object's payload or a live shadow, and when nobody is in a transaction, a payload.
   */
  lemma {:induction false} NoPageLost(ss: seq<Sys>, es: seq<Event>, init: Values, i: nat)
    requires Run(ss, es, init) && AllUsed(ss[0]) && i < |ss|
    ensures AllUsed(ss[i])
    ensures (forall t :: 0 <= t < |ss[i].txs| ==> ss[i].txs[t].phase.Out?) ==>
      forall p :: p in ss[i].mem <==> exists h :: h in ss[i].data && ss[i].data[h] == p
  {
    RunKeepsInv(ss, es, init, i);
    if i > 0 {
      NoPageLost(ss, es, init, i - 1);
      RunKeepsInv(ss, es, init, i - 1);
      assert Follows(ss, es, i - 1);
      UsesNext(ss[i - 1], es[i - 1], ss[i]);
    }
    if forall t :: 0 <= t < |ss[i].txs| ==> ss[i].txs[t].phase.Out? {
      forall p | p in ss[i].mem ensures exists h :: h in ss[i].data && ss[i].data[h] == p {
        OutUses(ss[i], p);
      }
    }
  }

  lemma OutUses(s: Sys, p: Page)
    requires Ownership(s) && p in s.mem && OwnerHas(s, p, s.mem[p].owner)
    requires forall t :: 0 <= t < |s.txs| ==> s.txs[t].phase.Out?
    ensures exists h :: h in s.data && s.data[h] == p
  {
    forall t | 0 <= t < |s.txs| ensures s.txs[t].ws == [] {
      assert OwnsWorkset(s, t);
    }
  }

  // ---- Who may take an object ----

  /** Event k let t take object h. */
  ghost predicate Took(ss: seq<Sys>, es: seq<Event>, k: nat, t: TxId, h: Header)
    requires k < |es| < |ss|
  {
    es[k].Open? && es[k].t == t && es[k].h == h && t < |ss[k + 1].txs| && Has(ss[k + 1].txs[t].ws, h)
  }

  /** initxobj: the header is recycled for another object. */
  predicate Resets(e: Event, h: Header) {
    e.Outside? && e.h == h && e.reset
  }

  /** t has taken object h some time before i, and the header has not been recycled since. */
  ghost predicate TakenBy(ss: seq<Sys>, es: seq<Event>, i: nat, h: Header, t: TxId)
    requires i <= |es| < |ss|
  {
    exists k: nat :: k < i && Took(ss, es, k, t, h) && forall x :: k < x < i ==> !Resets(es[x], h)
  }

  lemma WriterNext(s: Sys, e: Event, s': Sys, h: Header)
    requires Ownership(s) && Next(s, e, s')
    ensures Resets(e, h) ==> h !in s'.writer
    ensures e.Open? && e.h == h && Has(s'.txs[e.t].ws, h) ==>
      h in s'.writer && s'.writer[h] == e.t && (h in s.writer ==> s.writer[h] == e.t)
    ensures !Resets(e, h) && !(e.Open? && e.h == h && Has(s'.txs[e.t].ws, h)) ==>
      (h in s'.writer <==> h in s.writer) && (h in s.writer ==> s'.writer[h] == s.writer[h])
  {
    if e.Open? {
      OpenNext(s, e, s');
    }
  }

  /** A first access takes the object, with a copy of its payload, unless the workset is full or the object taken. */
  lemma OpenNext(s: Sys, e: Event, s': Sys)
    requires Ownership(s) && Next(s, e, s') && e.Open?
    ensures |s'.txs| == |s.txs|
    ensures Has(s'.txs[e.t].ws, e.h) <==> |s.txs[e.t].ws| < MAX_WORKSET && (e.h in s.writer ==> s.writer[e.h] == e.t)
    ensures s'.txs[e.t].doomed <==> !Has(s'.txs[e.t].ws, e.h)
    ensures Has(s'.txs[e.t].ws, e.h) ==>
      && Entry(e.h, e.page, e.readOnly) in s'.txs[e.t].ws && s'.writer == s.writer[e.h := e.t]
      && e.page in s'.mem && s'.mem[e.page].v == s.mem[s.data[e.h]].v
    ensures !Has(s'.txs[e.t].ws, e.h) ==> s'.writer == s.writer
  {
    assert OwnsWorkset(s, e.t);
    InsertedSorted(s.txs[e.t].ws, Entry(e.h, e.page, e.readOnly));
    InsertedElements(s.txs[e.t].ws, Entry(e.h, e.page, e.readOnly));
  }

  lemma TakenNext(ss: seq<Sys>, es: seq<Event>, i: nat, h: Header, t: TxId)
    requires i < |es| < |ss|
    ensures TakenBy(ss, es, i + 1, h, t) <==> Took(ss, es, i, t, h) || (TakenBy(ss, es, i, h, t) && !Resets(es[i], h))
  {
    if TakenBy(ss, es, i + 1, h, t) && !Took(ss, es, i, t, h) {
      var k: nat :| k < i + 1 && Took(ss, es, k, t, h) && forall x :: k < x < i + 1 ==> !Resets(es[x], h);
      assert k < i;
    }
  }

  /** In every run, an object's writer is whoever took it last, whether still in that transaction or not. */
  lemma {:induction false} WriterIsTaker(ss: seq<Sys>, es: seq<Event>, init: Values, i: nat, h: Header, t: TxId)
    requires Run(ss, es, init) && ss[0].writer == map[] && i < |ss|
    ensures TakenBy(ss, es, i, h, t) <==> h in ss[i].writer && ss[i].writer[h] == t
  {
    if i > 0 {
      WriterIsTaker(ss, es, init, i - 1, h, t);
      RunKeepsInv(ss, es, init, i - 1);
      assert Follows(ss, es, i - 1);
      WriterNext(ss[i - 1], es[i - 1], ss[i], h);
      TakenNext(ss, es, i - 1, h, t);
      assert es[i - 1].Open? ==> es[i - 1].t < |ss[i].txs|;
    }
  }

  /**
   In every run, a first access is refused if and only if the workset is full or another transaction has
   taken the object, no matter how long ago.
   */
  lemma RefusedExactly(ss: seq<Sys>, es: seq<Event>, init: Values, i: nat)
    requires Run(ss, es, init) && ss[0].writer == map[] && i < |es| && es[i].Open?
    ensures es[i].t < |ss[i].txs| == |ss[i + 1].txs| && es[i].h in ss[i].data && ss[i].data[es[i].h] in ss[i].mem
    ensures var t, h, page := es[i].t, es[i].h, es[i].page;
      if |ss[i].txs[t].ws| >= MAX_WORKSET || exists u: nat :: u != t && TakenBy(ss, es, i, h, u)
      then ss[i + 1].txs[t].doomed && !Has(ss[i + 1].txs[t].ws, h)
      else && !ss[i + 1].txs[t].doomed && Entry(h, page, es[i].readOnly) in ss[i + 1].txs[t].ws
           && page in ss[i + 1].mem && ss[i + 1].mem[page].v == ss[i].mem[ss[i].data[h]].v
  {
    RunKeepsInv(ss, es, init, i);
    assert Follows(ss, es, i);
    OpenNext(ss[i], es[i], ss[i + 1]);
    var h := es[i].h;
    if h in ss[i].writer {
      WriterIsTaker(ss, es, init, i, h, ss[i].writer[h]);
    }
    forall u | TakenBy(ss, es, i, h, u) ensures h in ss[i].writer && ss[i].writer[h] == u {
      WriterIsTaker(ss, es, init, i, h, u);
    }
  }

  /** What the layer means by a conflict: some other transaction has the object now. */
  ghost predicate Conflict(s: Sys, t: TxId, h: Header) {
    exists u: nat :: u < |s.txs| && u != t && Has(s.txs[u].ws, h)
  }

  /** With room in the workset, refusal is a conflict exactly if the transaction that took the object is not over. */
  lemma RefusalIsConflict(ss: seq<Sys>, es: seq<Event>, init: Values, i: nat)
    requires Run(ss, es, init) && ss[0].writer == map[] && i < |es| && es[i].Open?
    requires es[i].t < |ss[i].txs| ==> |ss[i].txs[es[i].t].ws| < MAX_WORKSET
    ensures es[i].t < |ss[i].txs| == |ss[i + 1].txs|
    ensures var s, t, h := ss[i], es[i].t, es[i].h;
      && (Conflict(s, t, h) ==> ss[i + 1].txs[t].doomed)
      && (ss[i + 1].txs[t].doomed && !Conflict(s, t, h) <==>
          exists u: nat :: u != t && TakenBy(ss, es, i, h, u) && (u < |s.txs| ==> !Has(s.txs[u].ws, h)))
  {
    RefusedExactly(ss, es, init, i);
    RunKeepsInv(ss, es, init, i);
    var s, t, h := ss[i], es[i].t, es[i].h;
    forall u | TakenBy(ss, es, i, h, u) ensures h in s.writer && s.writer[h] == u {
      WriterIsTaker(ss, es, init, i, h, u);
    }
    if Conflict(s, t, h) {
      var u: nat :| u < |s.txs| && u != t && Has(s.txs[u].ws, h);
      assert OwnsWorkset(s, u);
      WriterIsTaker(ss, es, init, i, h, u);
    }
  }

  /** One object and two transactions; the first takes the object and commits, then the second asks for it. */
  function Stale(v: Data, i: nat): (s: Sys) {
    var own, shared := map[10 := Cell(Stable(0), v)], map[10 := Cell(Stable(0), v), 11 := Cell(Private(0, 0), v)];
    var done := map[11 := Cell(Stable(0), v)];
    var ws, r, w := [Entry(0, 11, false)], [Ran([])], map[0 := 0];
    var out := Txn(Out, [], false, []);
    if i == 0 then Sys(map[], map[0 := 10], own, map[], [out, out], [])
    else if i == 1 then Sys(map[], map[0 := 10], own, map[], [Txn(Working, [], false, []), out], [])
    else if i == 2 then Sys(w, map[0 := 10], shared, map[], [Txn(Working, ws, false, []), out], [])
    else if i == 3 then Sys(w, map[0 := 10], shared, map[], [Txn(Locking(0, true), ws, false, []), out], [])
    else if i == 4 then Sys(w, map[0 := 10], shared, w, [Txn(Locking(1, true), ws, false, []), out], [])
    else if i == 5 then Sys(w, map[0 := 10], shared, w, [Txn(Swapping(0), ws, false, []), out], r)
    else if i == 6 then Sys(w, map[0 := 11], done, w, [Txn(Swapping(1), ws, false, []), out], r)
    else if i == 7 then Sys(w, map[0 := 11], done, w, [Txn(Unlocking(0, true), ws, false, []), out], r)
    else if i == 8 then Sys(w, map[0 := 11], done, map[], [Txn(Unlocking(1, true), ws, false, []), out], r)
    else if i == 9 then Sys(w, map[0 := 11], done, map[], [Txn(Finishing(0, true), ws, false, []), out], r)
    else if i == 10 then Sys(w, map[0 := 11], done, map[], [Txn(Finishing(1, true), ws, false, []), out], r)
    else if i == 11 then Sys(w, map[0 := 11], done, map[], [out, out], r)
    else if i == 12 then Sys(w, map[0 := 11], done, map[], [out, Txn(Working, [], false, [])], r)
    else Sys(w, map[0 := 11], done, map[], [out, Txn(Working, [], true, [])], r)
  }

  function StaleRun(v: Data): (ss: seq<Sys>) {
    seq(14, (i: nat) => Stale(v, i))
  }

  function StaleEvents(): (es: seq<Event>) {
    [Begin(0), Open(0, 0, 11, false), Commit(0), Lock(0), AllLocked(0), Swap(0), AllSwapped(0), Unlock(0), AllUnlocked(0),
     Finish(0), Finish(0), Begin(1), Open(1, 0, 12, false)]
  }

  lemma StaleOpens(v: Data, i: nat)
    requires i < 4 || i == 11 || i == 12
    ensures Next(Stale(v, i), StaleEvents()[i], Stale(v, i + 1))
  {
    assert Inserted([], Entry(0, 11, false)) == [Entry(0, 11, false)];
  }

  lemma StaleSwaps(v: Data, i: nat)
    requires 4 <= i < 7
    ensures Next(Stale(v, i), StaleEvents()[i], Stale(v, i + 1))
  {
    if i == 5 {
      var s, s' := Stale(v, 5), Stale(v, 6);
      assert s'.mem == (s.mem - {10})[11 := Cell(Stable(0), v)];
      assert s' == SwapDone(s, 0);
    }
  }

  lemma StaleEnds(v: Data, i: nat)
    requires 7 <= i < 11
    ensures Next(Stale(v, i), StaleEvents()[i], Stale(v, i + 1))
  {
    if i == 7 { assert map[0 := 0] - {0} == map[]; }
  }

  /** A run in which an access is refused although nobody is in a transaction: the object's last transaction has committed. */
  lemma RefusedByTheDead(v: Data)
    ensures var ss, es := StaleRun(v), StaleEvents();
      && Run(ss, es, map[0 := v]) && ss[0].writer == map[]
      && es[12] == Open(1, 0, 12, false) && ss[13].txs[1].doomed
      && !Conflict(ss[12], 1, 0) && ss[12].txs[0].phase.Out? && ss[12].locks == map[]
  {
    var ss, es := StaleRun(v), StaleEvents();
    forall i: nat | i < |es| ensures Follows(ss, es, i) {
      if i < 4 || i == 11 || i == 12 { StaleOpens(v, i); } else if i < 7 { StaleSwaps(v, i); } else { StaleEnds(v, i); }
    }
  }
}
