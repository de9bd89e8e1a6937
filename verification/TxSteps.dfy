/** Every step of the transaction machine keeps its invariant. */
module TxSteps {
  import opened Tx
  import opened TxMachine

  // ---- Journals ----

  /** A journal sees and does the same wherever its own objects have the same values. */
  lemma {:induction false} PerformAgree(vals: Values, vals': Values, journal: seq<Act>, ws: seq<Entry>)
    requires Touches(journal, ws) && Faithful(vals, journal)
    requires forall h :: Has(ws, h) ==> h in vals && h in vals' && vals[h] == vals'[h]
    ensures Faithful(vals', journal)
    ensures forall h :: Has(ws, h) ==>
      && h in Perform(vals, journal) && h in Perform(vals', journal)
      && Perform(vals, journal)[h] == Perform(vals', journal)[h]
  {
    if journal != [] {
      var front := journal[..|journal| - 1];
      assert Touches(front, ws);
      PerformAgree(vals, vals', front, ws);
    }
  }

  lemma {:induction false} PerformElsewhere(vals: Values, journal: seq<Act>, ws: seq<Entry>)
    requires Touches(journal, ws) && forall h :: Has(ws, h) ==> h in vals
    ensures Perform(vals, journal).Keys == vals.Keys
    ensures forall h :: h in vals && !Has(ws, h) ==> Perform(vals, journal)[h] == vals[h]
  {
    if journal != [] {
      var front := journal[..|journal| - 1];
      assert Touches(front, ws);
      PerformElsewhere(vals, front, ws);
      assert Has(ws, journal[|journal| - 1].h);
    }
  }

  // ---- Exclusive ownership ----

  /** No object is in two worksets. */
  lemma Exclusive(s: Sys, t: TxId, u: TxId, h: Header)
    requires Ownership(s) && t < |s.txs| && u < |s.txs|
    requires Has(s.txs[t].ws, h) && Has(s.txs[u].ws, h)
    ensures t == u
  {
    assert OwnsWorkset(s, t) && OwnsWorkset(s, u);
  }

  /** s' differs from s only in what transaction t may touch. */
  ghost predicate OnlyBy(s: Sys, s': Sys, t: TxId) {
    && |s'.txs| == |s.txs| && t < |s.txs|
    && (forall u :: 0 <= u < |s.txs| && u != t ==> s'.txs[u] == s.txs[u])
    && s'.data.Keys == s.data.Keys
    && (forall h :: h in s.writer && s.writer[h] != t ==> h in s'.writer && s'.writer[h] == s.writer[h])
    && (forall p :: p in s.mem && s.mem[p].owner.Private? && s.mem[p].owner.t != t ==> p in s'.mem && s'.mem[p] == s.mem[p])
  }

  lemma OthersKeepWorksets(s: Sys, s': Sys, t: TxId)
    requires Ownership(s) && OnlyBy(s, s', t)
    ensures forall u :: 0 <= u < |s.txs| && u != t ==> OwnsWorkset(s', u)
  {
    forall u | 0 <= u < |s.txs| && u != t ensures OwnsWorkset(s', u) {
      assert OwnsWorkset(s, u);
    }
  }

  lemma OtherCouldRun(s: Sys, s': Sys, t: TxId, u: TxId, vals: Values, vals': Values)
    requires Ownership(s) && Ownership(s') && OnlyBy(s, s', t) && u < |s.txs| && u != t
    requires CouldRun(s, vals, u)
    requires forall h :: Has(s.txs[u].ws, h) ==> h in vals && h in vals' && vals[h] == vals'[h]
    ensures CouldRun(s', vals', u)
  {
    var tx := s.txs[u];
    assert OwnsWorkset(s, u) && OwnsWorkset(s', u);
    if Tentative(tx) {
      PerformAgree(vals, vals', tx.journal, tx.ws);
      forall j | 0 <= j < |tx.ws|
        ensures tx.ws[j].header in Perform(vals', tx.journal)
        ensures s'.mem[tx.ws[j].shadow].v == Perform(vals', tx.journal)[tx.ws[j].header]
      {
        assert Has(tx.ws, tx.ws[j].header);
        assert HasShadow(tx, j);
      }
    }
  }

  /** If the serial values do not change, everybody else could still run. */
  lemma OthersCouldRun(s: Sys, s': Sys, t: TxId, vals: Values)
    requires Ownership(s) && Ownership(s') && OnlyBy(s, s', t) && vals.Keys == s.data.Keys
    requires forall u :: 0 <= u < |s.txs| ==> CouldRun(s, vals, u)
    ensures forall u :: 0 <= u < |s.txs| && u != t ==> CouldRun(s', vals, u)
  {
    forall u | 0 <= u < |s.txs| && u != t ensures CouldRun(s', vals, u) {
      assert OwnsWorkset(s, u);
      OtherCouldRun(s, s', t, u, vals, vals);
    }
  }

  // ---- Steps that move no data ----

  /** Transaction t only advances its phase, keeping its entries' roles. */
  ghost predicate PhaseOnly(s: Sys, s': Sys, t: TxId) {
    && t < |s.txs| && |s'.txs| == |s.txs|
    && s'.txs == s.txs[t := s'.txs[t]]
    && s'.data == s.data && s'.mem == s.mem && s'.writer == s.writer && s'.history == s.history
    && var tx, tx' := s.txs[t], s'.txs[t];
    && tx'.ws == tx.ws && tx'.journal == tx.journal && !tx'.phase.Out?
    && (Tentative(tx') ==> Tentative(tx))
    && forall j: nat :: j < |tx.ws| ==>
         && (HasShadow(tx', j) ==> HasShadow(tx, j))
         && (ToSwap(tx', j) <==> ToSwap(tx, j))
  }

  lemma PhaseOnlyKeeps(s: Sys, s': Sys, t: TxId, init: Values)
    requires Inv(s, init) && PhaseOnly(s, s', t)
    ensures Inv(s', init)
  {
    var vals := Serial(init, s.history);
    assert OwnsWorkset(s, t) && CouldRun(s, vals, t);
    OthersKeepWorksets(s, s', t);
    assert OwnsWorkset(s', t);
    OthersCouldRun(s, s', t, vals);
    forall u: nat, j: nat | u < |s.txs| ensures ToSwap(s'.txs[u], j) <==> ToSwap(s.txs[u], j) {
      if u == t && j < |s.txs[t].ws| {
        assert ToSwap(s'.txs[t], j) <==> ToSwap(s.txs[t], j);
      }
    }
    forall h | PendingSwap(s, h) ensures PendingSwap(s', h) {
      var u: nat, j: nat :| u < |s.txs| && ToSwap(s.txs[u], j) && s.txs[u].ws[j].header == h;
      assert ToSwap(s'.txs[u], j) && s'.txs[u].ws[j].header == h;
    }
    assert Agrees(s', vals);
  }

  // ---- Steps that move data ----

  /** Swaps in progress are the same in both states. */
  ghost predicate SameSwaps(s: Sys, s': Sys, t: TxId)
    requires t < |s.txs| == |s'.txs|
  {
    !s.txs[t].phase.Swapping? && !s'.txs[t].phase.Swapping?
  }

  lemma SameSwapsSamePending(s: Sys, s': Sys, t: TxId)
    requires OnlyBy(s, s', t) && SameSwaps(s, s', t)
    ensures forall h :: PendingSwap(s, h) <==> PendingSwap(s', h)
  {
    forall h | PendingSwap(s, h) ensures PendingSwap(s', h) {
      var u: nat, j: nat :| u < |s.txs| && ToSwap(s.txs[u], j) && s.txs[u].ws[j].header == h;
      assert ToSwap(s'.txs[u], j) && s'.txs[u].ws[j].header == h;
    }
    forall h | PendingSwap(s', h) ensures PendingSwap(s, h) {
      var u: nat, j: nat :| u < |s'.txs| && ToSwap(s'.txs[u], j) && s'.txs[u].ws[j].header == h;
      assert ToSwap(s.txs[u], j) && s.txs[u].ws[j].header == h;
    }
  }

  /** A step of t outside the swap loop that leaves the payloads alone keeps agreement. */
  lemma StableStepAgrees(s: Sys, s': Sys, t: TxId, vals: Values)
    requires Ownership(s) && Ownership(s') && Agrees(s, vals) && OnlyBy(s, s', t) && SameSwaps(s, s', t)
    requires s'.data == s.data && forall h :: h in s.data ==> s'.mem[s.data[h]] == s.mem[s.data[h]]
    ensures Agrees(s', vals)
  {
    SameSwapsSamePending(s, s', t);
    forall u: nat, j: nat | u < |s.txs| && ToSwap(s'.txs[u], j)
      ensures OwnsWorkset(s', u) && s'.mem[s'.txs[u].ws[j].shadow].v == vals[s'.txs[u].ws[j].header]
    {
      assert ToSwap(s.txs[u], j) && OwnsWorkset(s, u) && HasShadow(s.txs[u], j);
    }
  }

  lemma BeginKeeps(s: Sys, e: Event, s': Sys, init: Values)
    requires Inv(s, init) && e.Begin? && Next(s, e, s')
    ensures Inv(s', init)
  {
    OthersKeepWorksets(s, s', e.t);
    OthersCouldRun(s, s', e.t, Serial(init, s.history));
    StableStepAgrees(s, s', e.t, Serial(init, s.history));
  }

  lemma TakenOwnership(s: Sys, t: TxId, e: Entry)
    requires Ownership(s) && t < |s.txs| && s.txs[t].phase.Working? && e.header in s.data
    requires !Has(s.txs[t].ws, e.header) && e.shadow !in s.mem && (e.header !in s.writer || s.writer[e.header] == t)
    ensures OnlyBy(s, Taken(s, t, e), t) && Ownership(Taken(s, t, e))
  {
    var s' := Taken(s, t, e);
    var tx, tx' := s.txs[t], s'.txs[t];
    assert OwnsWorkset(s, t);
    InsertedSorted(tx.ws, e);
    OthersKeepWorksets(s, s', t);
    forall j | 0 <= j < |tx'.ws|
      ensures var x := tx'.ws[j];
        && x.header in s'.data && x.header in s'.writer && s'.writer[x.header] == t
        && x.shadow in s'.mem && s'.mem[x.shadow].owner == Private(t, x.header)
    {
      var i := InsertedFrom(tx.ws, e, j);
      assert tx'.ws[j] != e ==> HasShadow(tx, i);
    }
    assert OwnsWorkset(s', t);
  }

  lemma TakenCouldRun(s: Sys, t: TxId, e: Entry, vals: Values)
    requires Ownership(s) && t < |s.txs| && s.txs[t].phase.Working? && e.header in s.data
    requires !Has(s.txs[t].ws, e.header) && e.shadow !in s.mem && (e.header !in s.writer || s.writer[e.header] == t)
    requires Agrees(s, vals) && CouldRun(s, vals, t)
    ensures Ownership(Taken(s, t, e)) && CouldRun(Taken(s, t, e), vals, t)
  {
    var s' := Taken(s, t, e);
    var tx, tx' := s.txs[t], s'.txs[t];
    TakenOwnership(s, t, e);
    assert OwnsWorkset(s, t) && OwnsWorkset(s', t);
    assert Touches(tx.journal, tx'.ws) by { InsertedSorted(tx.ws, e); }
    OpenSeesSerialValue(s, t, e.header, vals);
    forall j | 0 <= j < |tx'.ws|
      ensures tx'.ws[j].header in Perform(vals, tx.journal)
      ensures s'.mem[tx'.ws[j].shadow].v == Perform(vals, tx.journal)[tx'.ws[j].header]
    {
      var i := InsertedFrom(tx.ws, e, j);
      assert tx'.ws[j] != e ==> HasShadow(tx, i);
    }
  }

  /** The payload copied by a first access is the serial value, untouched by the journal so far. */
  lemma OpenSeesSerialValue(s: Sys, t: TxId, h: Header, vals: Values)
    requires Ownership(s) && Agrees(s, vals) && t < |s.txs| && CouldRun(s, vals, t)
    requires s.txs[t].phase.Working? && h in s.data && !Has(s.txs[t].ws, h)
    requires h !in s.writer || s.writer[h] == t
    ensures h in Perform(vals, s.txs[t].journal)
    ensures s.mem[s.data[h]].v == Perform(vals, s.txs[t].journal)[h]
  {
    assert OwnsWorkset(s, t);
    PerformElsewhere(vals, s.txs[t].journal, s.txs[t].ws);
  }

  lemma OpenKeeps(s: Sys, e: Event, s': Sys, init: Values)
    requires Inv(s, init) && e.Open? && Next(s, e, s')
    ensures Inv(s', init)
  {
    var t, vals, entry := e.t, Serial(init, s.history), Entry(e.h, e.page, e.readOnly);
    assert CouldRun(s, vals, t);
    if |s.txs[t].ws| >= MAX_WORKSET || (e.h in s.writer && s.writer[e.h] != t) {
      PhaseOnlyKeeps(s, s', t, init);
    } else {
      TakenOwnership(s, t, entry);
      OthersCouldRun(s, s', t, vals);
      StableStepAgrees(s, s', t, vals);
      TakenCouldRun(s, t, entry, vals);
    }
  }

  lemma AccessedKeeps(s: Sys, t: TxId, j: nat, a: Act, vals: Values)
    requires Ownership(s) && t < |s.txs| && j < |s.txs[t].ws| && s.txs[t].phase.Working?
    requires CouldRun(s, vals, t) && s.txs[t].ws[j].header == a.h && s.txs[t].ws[j].shadow in s.mem
    requires a.Get? ==> s.mem[s.txs[t].ws[j].shadow].v == a.v
    ensures var s' := Accessed(s, t, j, a);
      OnlyBy(s, s', t) && Ownership(s') && CouldRun(s', vals, t)
  {
    var s' := Accessed(s, t, j, a);
    var tx, tx' := s.txs[t], s'.txs[t];
    assert OwnsWorkset(s, t) && HasShadow(tx, j);
    OthersKeepWorksets(s, s', t);
    assert OwnsWorkset(s', t);
    assert tx'.journal[..|tx'.journal| - 1] == tx.journal;
    assert Has(tx.ws, a.h);
    assert Touches(tx'.journal, tx.ws);
    forall i: nat | i < |tx.ws|
      ensures tx.ws[i].header in Perform(vals, tx'.journal)
      ensures s'.mem[tx.ws[i].shadow].v == Perform(vals, tx'.journal)[tx.ws[i].header]
    {
      assert HasShadow(tx, i);
    }
  }

  lemma AccessKeeps(s: Sys, e: Event, s': Sys, init: Values)
    requires Inv(s, init) && e.Access? && Next(s, e, s')
    ensures Inv(s', init)
  {
    var t, vals := e.t, Serial(init, s.history);
    assert OwnsWorkset(s, t) && HasShadow(s.txs[t], e.j) && CouldRun(s, vals, t);
    AccessedKeeps(s, t, e.j, e.a, vals);
    OthersCouldRun(s, s', t, vals);
    StableStepAgrees(s, s', t, vals);
  }

  // ---- The commit point and the swap loop ----

  lemma CommitPointOwnership(s: Sys, s': Sys, t: TxId)
    requires Ownership(s) && t < |s.txs| && s.txs[t].phase.Locking?
    requires s' == SetTx(s, t, s.txs[t].(phase := Swapping(0))).(history := s'.history)
    ensures OnlyBy(s, s', t) && Ownership(s')
  {
    assert OwnsWorkset(s, t);
    OthersKeepWorksets(s, s', t);
    forall j | 0 <= j < |s.txs[t].ws| ensures HasShadow(s.txs[t], j) {
    }
    assert OwnsWorkset(s', t);
  }

  /** The journal extends the serial history faithfully. */
  lemma CommitPointSerial(init: Values, history: seq<Record>, journal: seq<Act>)
    requires SerialFaithful(init, history) && Faithful(Serial(init, history), journal)
    ensures SerialFaithful(init, history + [Ran(journal)])
    ensures Serial(init, history + [Ran(journal)]) == Perform(Serial(init, history), journal)
  {
    var history' := history + [Ran(journal)];
    assert history'[..|history'| - 1] == history;
  }

  lemma CommitPointRuns(s: Sys, s': Sys, t: TxId, u: TxId, vals: Values, vals': Values)
    requires Ownership(s) && Ownership(s') && t < |s.txs| && u < |s.txs| && s.txs[t].phase.Locking?
    requires s' == SetTx(s, t, s.txs[t].(phase := Swapping(0))).(history := s'.history)
    requires vals.Keys == s.data.Keys && OnlyBy(s, s', t)
    requires Touches(s.txs[t].journal, s.txs[t].ws) && vals' == Perform(vals, s.txs[t].journal)
    requires OwnsWorkset(s, u) && CouldRun(s, vals, u)
    ensures OwnsWorkset(s', u) && CouldRun(s', vals', u)
  {
    if u != t {
      assert OwnsWorkset(s, t);
      PerformElsewhere(vals, s.txs[t].journal, s.txs[t].ws);
      OtherCouldRun(s, s', t, u, vals, vals');
    } else {
      assert OwnsWorkset(s', t);
    }
  }

  /** With all locks held the transaction takes its place in the serial order. */
  lemma CommitPointKeeps(s: Sys, e: Event, s': Sys, init: Values)
    requires Inv(s, init) && e.AllLocked? && e.t < |s.txs| && s.txs[e.t].phase.Locking? && s.txs[e.t].phase.commit
    requires Next(s, e, s')
    ensures Inv(s', init)
  {
    var t, tx, vals := e.t, s.txs[e.t], Serial(init, s.history);
    assert OwnsWorkset(s, t) && CouldRun(s, vals, t);
    CommitPointSerial(init, s.history, tx.journal);
    var vals' := Serial(init, s'.history);
    CommitPointOwnership(s, s', t);
    CommitPointAgrees(s, s', t, vals, vals');
    forall u | 0 <= u < |s'.txs| ensures CouldRun(s', vals', u) {
      assert OwnsWorkset(s, u) && CouldRun(s, vals, u);
      CommitPointRuns(s, s', t, u, vals, vals');
    }
  }

  /** The objects awaiting their swap are now also those of the transaction's workset. */
  lemma CommitPointPending(s: Sys, s': Sys, t: TxId, h: Header)
    requires t < |s.txs| && s.txs[t].phase.Locking?
    requires s' == SetTx(s, t, s.txs[t].(phase := Swapping(0))).(history := s'.history)
    requires Has(s.txs[t].ws, h) || PendingSwap(s, h)
    ensures PendingSwap(s', h)
  {
    if Has(s.txs[t].ws, h) {
      var j :| 0 <= j < |s.txs[t].ws| && s.txs[t].ws[j].header == h;
      assert ToSwap(s'.txs[t], j) && s'.txs[t].ws[j].header == h;
    } else {
      var u: nat, j: nat :| u < |s.txs| && ToSwap(s.txs[u], j) && s.txs[u].ws[j].header == h;
      assert ToSwap(s'.txs[u], j) && s'.txs[u].ws[j].header == h;
    }
  }

  lemma CommitPointShadow(s: Sys, s': Sys, t: TxId, vals: Values, vals': Values, u: TxId, j: nat)
    requires Ownership(s) && Agrees(s, vals) && Ownership(s') && t < |s.txs| && CouldRun(s, vals, t)
    requires s.txs[t].phase.Locking? && s.txs[t].phase.commit
    requires vals' == Perform(vals, s.txs[t].journal) && vals'.Keys == vals.Keys
    requires forall h :: h in vals && !Has(s.txs[t].ws, h) ==> vals'[h] == vals[h]
    requires s' == SetTx(s, t, s.txs[t].(phase := Swapping(0))).(history := s'.history)
    requires u < |s.txs| && ToSwap(s'.txs[u], j)
    ensures OwnsWorkset(s', u) && s'.mem[s'.txs[u].ws[j].shadow].v == vals'[s'.txs[u].ws[j].header]
  {
    if u != t {
      assert ToSwap(s.txs[u], j) && OwnsWorkset(s, u) && OwnsWorkset(s, t);
      assert Has(s.txs[u].ws, s.txs[u].ws[j].header);
    } else {
      assert OwnsWorkset(s, t) && HasShadow(s.txs[t], j);
    }
  }

  lemma CommitPointAgrees(s: Sys, s': Sys, t: TxId, vals: Values, vals': Values)
    requires Ownership(s) && Agrees(s, vals) && Ownership(s') && t < |s.txs| && CouldRun(s, vals, t)
    requires s.txs[t].phase.Locking? && s.txs[t].phase.commit
    requires vals' == Perform(vals, s.txs[t].journal)
    requires s' == SetTx(s, t, s.txs[t].(phase := Swapping(0))).(history := s'.history)
    ensures Agrees(s', vals')
  {
    assert OwnsWorkset(s, t);
    PerformElsewhere(vals, s.txs[t].journal, s.txs[t].ws);
    forall h | Has(s.txs[t].ws, h) || PendingSwap(s, h) ensures PendingSwap(s', h) {
      CommitPointPending(s, s', t, h);
    }
    forall u: nat, j: nat | u < |s.txs| && ToSwap(s'.txs[u], j)
      ensures OwnsWorkset(s', u) && s'.mem[s'.txs[u].ws[j].shadow].v == vals'[s'.txs[u].ws[j].header]
    {
      CommitPointShadow(s, s', t, vals, vals', u, j);
    }
  }

  lemma SwapOwnership(s: Sys, t: TxId)
    requires Ownership(s) && t < |s.txs| && s.txs[t].phase.Swapping? && s.txs[t].phase.i < |s.txs[t].ws|
    ensures OwnsWorkset(s, t) && OnlyBy(s, SwapDone(s, t), t) && Ownership(SwapDone(s, t))
  {
    var tx := s.txs[t];
    assert OwnsWorkset(s, t) && HasShadow(tx, tx.phase.i);
    var s' := SwapDone(s, t);
    OthersKeepWorksets(s, s', t);
    forall j | tx.phase.i < j < |tx.ws|
      ensures tx.ws[j].shadow in s'.mem && s'.mem[tx.ws[j].shadow].owner == Private(t, tx.ws[j].header)
    {
      assert HasShadow(tx, j);
    }
    assert OwnsWorkset(s', t);
  }

  lemma SwapAgrees(s: Sys, t: TxId, vals: Values)
    requires Ownership(s) && t < |s.txs| && s.txs[t].phase.Swapping? && s.txs[t].phase.i < |s.txs[t].ws|
    requires Agrees(s, vals)
    ensures OwnsWorkset(s, t) && Ownership(SwapDone(s, t)) && Agrees(SwapDone(s, t), vals)
  {
    SwapOwnership(s, t);
    var s' := SwapDone(s, t);
    forall h | PendingSwap(s, h) && h != s.txs[t].ws[s.txs[t].phase.i].header ensures PendingSwap(s', h) {
      SwapPending(s, t, h);
    }
    assert ToSwap(s.txs[t], s.txs[t].phase.i);
    forall u: nat, j: nat | u < |s.txs| && ToSwap(s'.txs[u], j)
      ensures OwnsWorkset(s', u) && s'.mem[s'.txs[u].ws[j].shadow].v == vals[s'.txs[u].ws[j].header]
    {
      assert ToSwap(s.txs[u], j) && OwnsWorkset(s, u) && HasShadow(s.txs[u], j);
    }
  }

  lemma SwapPending(s: Sys, t: TxId, h: Header)
    requires Ownership(s) && t < |s.txs| && s.txs[t].phase.Swapping? && s.txs[t].phase.i < |s.txs[t].ws|
    requires OwnsWorkset(s, t) && PendingSwap(s, h) && h != s.txs[t].ws[s.txs[t].phase.i].header
    ensures PendingSwap(SwapDone(s, t), h)
  {
    var s' := SwapDone(s, t);
    var u: nat, j: nat :| u < |s.txs| && ToSwap(s.txs[u], j) && s.txs[u].ws[j].header == h;
    assert ToSwap(s'.txs[u], j) && s'.txs[u].ws[j].header == h;
  }

  lemma SwapKeeps(s: Sys, e: Event, s': Sys, init: Values)
    requires Inv(s, init) && e.Swap? && Next(s, e, s')
    ensures Inv(s', init)
  {
    var vals := Serial(init, s.history);
    SwapOwnership(s, e.t);
    SwapAgrees(s, e.t, vals);
    OthersCouldRun(s, s', e.t, vals);
  }

  /** abort_fn frees the shadow of entry i. */
  lemma ShadowFreedKeeps(s: Sys, t: TxId, s': Sys, init: Values)
    requires Inv(s, init) && t < |s.txs| && s.txs[t].phase.Finishing? && !s.txs[t].phase.commit
    requires s.txs[t].phase.i < |s.txs[t].ws|
    requires s' == SetTx(s, t, s.txs[t].(phase := Finishing(s.txs[t].phase.i + 1, false)))
                   .(mem := s.mem - {s.txs[t].ws[s.txs[t].phase.i].shadow})
    ensures Inv(s', init)
  {
    var tx, vals := s.txs[t], Serial(init, s.history);
    assert OwnsWorkset(s, t) && HasShadow(tx, tx.phase.i);
    assert OnlyBy(s, s', t);
    OthersKeepWorksets(s, s', t);
    forall j | tx.phase.i < j < |tx.ws|
      ensures tx.ws[j].shadow in s'.mem && s'.mem[tx.ws[j].shadow].owner == Private(t, tx.ws[j].header)
    {
      assert HasShadow(tx, j);
    }
    assert OwnsWorkset(s', t);
    assert Ownership(s');
    OthersCouldRun(s, s', t, vals);
    StableStepAgrees(s, s', t, vals);
  }

  /** workset_size = 0: the transaction is over. */
  lemma ClosedKeeps(s: Sys, t: TxId, s': Sys, init: Values)
    requires Inv(s, init) && t < |s.txs| && s.txs[t].phase.Finishing?
    requires s' == SetTx(s, t, Txn(Out, [], false, []))
    ensures Inv(s', init)
  {
    assert OnlyBy(s, s', t);
    OthersKeepWorksets(s, s', t);
    assert OwnsWorkset(s', t);
    OthersCouldRun(s, s', t, Serial(init, s.history));
    StableStepAgrees(s, s', t, Serial(init, s.history));
  }

  lemma FinishKeeps(s: Sys, e: Event, s': Sys, init: Values)
    requires Inv(s, init) && e.Finish? && Next(s, e, s')
    ensures Inv(s', init)
  {
    var tx := s.txs[e.t];
    if tx.phase.i >= |tx.ws| {
      ClosedKeeps(s, e.t, s', init);
    } else if tx.phase.commit {
      PhaseOnlyKeeps(s, s', e.t, init);
    } else {
      ShadowFreedKeeps(s, e.t, s', init);
    }
  }

  lemma OutsideOwnership(s: Sys, e: Event, s': Sys)
    requires Ownership(s) && e.Outside? && Next(s, e, s')
    ensures Ownership(s')
  {
    forall t | 0 <= t < |s.txs| ensures OwnsWorkset(s', t) {
      assert OwnsWorkset(s, t) && !Has(s.txs[t].ws, e.h);
    }
  }

  lemma OutsideAgrees(s: Sys, e: Event, s': Sys, vals: Values)
    requires Ownership(s) && Agrees(s, vals) && e.Outside? && Next(s, e, s') && Ownership(s')
    ensures Agrees(s', vals[e.h := e.v])
  {
    var vals' := vals[e.h := e.v];
    forall h | PendingSwap(s, h) ensures PendingSwap(s', h) && h != e.h {
      var u: nat, j: nat :| u < |s.txs| && ToSwap(s.txs[u], j) && s.txs[u].ws[j].header == h;
      assert ToSwap(s'.txs[u], j) && Has(s.txs[u].ws, h) && !Has(s.txs[u].ws, e.h);
    }
    forall u: nat, j: nat | u < |s.txs| && ToSwap(s'.txs[u], j)
      ensures OwnsWorkset(s', u) && s'.mem[s'.txs[u].ws[j].shadow].v == vals'[s'.txs[u].ws[j].header]
    {
      assert ToSwap(s.txs[u], j) && OwnsWorkset(s, u) && HasShadow(s.txs[u], j) && !Has(s.txs[u].ws, e.h);
    }
  }

  lemma OutsideRuns(s: Sys, e: Event, s': Sys, vals: Values, u: TxId)
    requires Ownership(s) && vals.Keys == s.data.Keys && e.Outside? && Next(s, e, s') && Ownership(s')
    requires u < |s.txs| && OwnsWorkset(s, u) && CouldRun(s, vals, u)
    ensures OwnsWorkset(s', u) && CouldRun(s', vals[e.h := e.v], u)
  {
    var tx := s.txs[u];
    assert OwnsWorkset(s', u) && !Has(tx.ws, e.h);
    if Tentative(tx) {
      PerformAgree(vals, vals[e.h := e.v], tx.journal, tx.ws);
      forall j | 0 <= j < |tx.ws| ensures s'.mem[tx.ws[j].shadow] == s.mem[tx.ws[j].shadow] && Has(tx.ws, tx.ws[j].header) {
        assert HasShadow(tx, j);
      }
    }
  }

  lemma OutsideKeeps(s: Sys, e: Event, s': Sys, init: Values)
    requires Inv(s, init) && e.Outside? && Next(s, e, s')
    ensures Inv(s', init)
  {
    var vals := Serial(init, s.history);
    assert s'.history[..|s'.history| - 1] == s.history;
    OutsideOwnership(s, e, s');
    OutsideAgrees(s, e, s', vals);
    var vals' := vals[e.h := e.v];
    forall u | 0 <= u < |s.txs| ensures CouldRun(s', vals', u) {
      assert OwnsWorkset(s, u) && CouldRun(s, vals, u);
      OutsideRuns(s, e, s', vals, u);
    }
  }

  /** Status changes, locking and unlocking move no data. */
  lemma QuietKeeps(s: Sys, e: Event, s': Sys, init: Values)
    requires Inv(s, init) && Next(s, e, s')
    requires e.Commit? || e.Abort? || e.Lock? || e.AllSwapped? || e.Unlock? || e.AllUnlocked? ||
             (e.AllLocked? && e.t < |s.txs| && s.txs[e.t].phase.Locking? && !s.txs[e.t].phase.commit)
    ensures Inv(s', init)
  {
    assert PhaseOnly(s, s', e.t);
    PhaseOnlyKeeps(s, s', e.t, init);
  }

  lemma StepKeeps(s: Sys, e: Event, s': Sys, init: Values)
    requires Inv(s, init) && Next(s, e, s')
    ensures Inv(s', init)
  {
    match e
    case Begin(_) => BeginKeeps(s, e, s', init);
    case Open(_, _, _, _) => OpenKeeps(s, e, s', init);
    case Access(_, _, _) => AccessKeeps(s, e, s', init);
    case AllLocked(t) =>
      if s.txs[t].phase.commit { CommitPointKeeps(s, e, s', init); } else { QuietKeeps(s, e, s', init); }
    case Swap(_) => SwapKeeps(s, e, s', init);
    case Finish(_) => FinishKeeps(s, e, s', init);
    case Outside(_, _, _) => OutsideKeeps(s, e, s', init);
    case _ => QuietKeeps(s, e, s', init);
  }
}
