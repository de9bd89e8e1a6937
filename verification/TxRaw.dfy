/**
 Writes by a process that is not inside a transaction.  idata and bdata then hand
 out the object's stable payload with no look at xobj->writer, so a plain writei
 can change an object that another process's transaction has shadowed.
 */
module TxRaw {
  import opened Tx
  import opened TxMachine
  import opened TxSteps

  /** txdata outside a transaction: the payload is written whoever has the object. */
  function RawWrite(s: Sys, h: Header, v: Data): (r: Sys)
    requires h in s.data && s.data[h] in s.mem
  {
    s.(mem := s.mem[s.data[h] := s.mem[s.data[h]].(v := v)])
  }

  /** The write with its place in the history. */
  function RawStep(s: Sys, h: Header, v: Data): (r: Sys)
    requires h in s.data && s.data[h] in s.mem
  {
    RawWrite(s, h, v).(history := s.history + [Loaded(h, v)])
  }

  // ---- Journals that started from another value ----

  predicate NoAct(journal: seq<Act>, h: Header) {
    forall i :: 0 <= i < |journal| ==> journal[i].h != h
  }

  /** The first thing the journal does with h is to store into it. */
  predicate PutsFirst(journal: seq<Act>, h: Header) {
    journal != [] &&
    var front, a := journal[..|journal| - 1], journal[|journal| - 1];
    PutsFirst(front, h) || (NoAct(front, h) && a == Put(h, a.v))
  }

  /** What a journal would have seen and left if h had started with v. */
  lemma {:induction false} OtherStart(vals: Values, journal: seq<Act>, h: Header, v: Data)
    requires Faithful(vals, journal) && h in vals && v != vals[h]
    ensures h in Perform(vals, journal)
    ensures PutsFirst(journal, h) ==>
      Faithful(vals[h := v], journal) && Perform(vals[h := v], journal) == Perform(vals, journal)
    ensures NoAct(journal, h) ==>
      && Faithful(vals[h := v], journal) && Perform(vals, journal)[h] == vals[h]
      && Perform(vals[h := v], journal) == Perform(vals, journal)[h := v]
    ensures !PutsFirst(journal, h) && !NoAct(journal, h) ==> !Faithful(vals[h := v], journal)
  {
    if journal != [] {
      var front, a := journal[..|journal| - 1], journal[|journal| - 1];
      OtherStart(vals, front, h, v);
      assert NoAct(journal, h) <==> NoAct(front, h) && a.h != h;
    }
  }

  // ---- When a raw write is harmless ----

  /** Transaction tx does not mind what h's payload was: it has stored into its copy before reading it, or will not swap it in. */
  predicate Indifferent(tx: Txn, h: Header) {
    && (Tentative(tx) ==> PutsFirst(tx.journal, h))
    && forall j: nat :: j < |tx.ws| && tx.ws[j].header == h ==> !ToSwap(tx, j)
  }

  /** Every live workset that has h is indifferent to it. */
  predicate Harmless(s: Sys, h: Header) {
    forall t :: 0 <= t < |s.txs| && Has(s.txs[t].ws, h) ==> Indifferent(s.txs[t], h)
  }

  lemma RawOwnership(s: Sys, h: Header, v: Data)
    requires Ownership(s) && h in s.data
    ensures Ownership(RawStep(s, h, v))
  {
    forall t | 0 <= t < |s.txs| ensures OwnsWorkset(RawStep(s, h, v), t) {
      assert OwnsWorkset(s, t);
    }
  }

  lemma RawSerial(init: Values, history: seq<Record>, h: Header, v: Data)
    requires SerialFaithful(init, history)
    ensures SerialFaithful(init, history + [Loaded(h, v)])
    ensures Serial(init, history + [Loaded(h, v)]) == Serial(init, history)[h := v]
  {
    var history' := history + [Loaded(h, v)];
    assert history'[..|history'| - 1] == history;
  }

  lemma SamePending(s: Sys, h: Header, v: Data, k: Header)
    requires h in s.data && s.data[h] in s.mem
    ensures PendingSwap(RawStep(s, h, v), k) <==> PendingSwap(s, k)
  {
    var s' := RawStep(s, h, v);
    if PendingSwap(s, k) {
      var t: nat, j: nat :| t < |s.txs| && ToSwap(s.txs[t], j) && s.txs[t].ws[j].header == k;
      assert ToSwap(s'.txs[t], j) && s'.txs[t].ws[j].header == k;
    }
    if PendingSwap(s', k) {
      var t: nat, j: nat :| t < |s'.txs| && ToSwap(s'.txs[t], j) && s'.txs[t].ws[j].header == k;
      assert ToSwap(s.txs[t], j) && s.txs[t].ws[j].header == k;
    }
  }

  /** The shadows that are about to be swapped in do not change. */
  lemma RawShadows(s: Sys, h: Header, v: Data, t: TxId, j: nat)
    requires Ownership(s) && h in s.data && t < |s.txs| && ToSwap(s.txs[t], j)
    ensures OwnsWorkset(s, t) && OwnsWorkset(RawStep(s, h, v), t) && s.txs[t].ws[j].header in s.data
    ensures RawStep(s, h, v).mem[s.txs[t].ws[j].shadow] == s.mem[s.txs[t].ws[j].shadow]
  {
    RawOwnership(s, h, v);
    assert OwnsWorkset(s, t) && HasShadow(s.txs[t], j);
  }

  /** A payload about to be replaced by a shadow must not differ from the shadow. */
  lemma RawAgrees(s: Sys, h: Header, v: Data, vals: Values)
    requires Ownership(s) && Agrees(s, vals) && h in s.data && Ownership(RawStep(s, h, v))
    requires v == vals[h] || !PendingSwap(s, h)
    ensures Agrees(RawStep(s, h, v), vals[h := v])
  {
    var s', vals' := RawStep(s, h, v), vals[h := v];
    forall k ensures PendingSwap(s', k) <==> PendingSwap(s, k) { SamePending(s, h, v, k); }
    forall t: nat, j: nat | t < |s.txs| && ToSwap(s'.txs[t], j)
      ensures OwnsWorkset(s', t) && s'.mem[s'.txs[t].ws[j].shadow].v == vals'[s'.txs[t].ws[j].header]
    {
      assert ToSwap(s.txs[t], j);
      RawShadows(s, h, v, t, j);
    }
  }

  lemma RawDisagrees(s: Sys, h: Header, v: Data, vals: Values)
    requires Ownership(s) && Agrees(s, vals) && h in s.data && Ownership(RawStep(s, h, v))
    requires v != vals[h] && PendingSwap(s, h)
    ensures !Agrees(RawStep(s, h, v), vals[h := v])
  {
    var t: nat, j: nat :| t < |s.txs| && ToSwap(s.txs[t], j) && s.txs[t].ws[j].header == h;
    RawShadows(s, h, v, t, j);
    assert ToSwap(RawStep(s, h, v).txs[t], j);
  }

  /** An open transaction that has h could still run alone exactly if it stored into h first, or nothing changed. */
  lemma RawRuns(s: Sys, h: Header, v: Data, vals: Values, t: TxId)
    requires Ownership(s) && vals.Keys == s.data.Keys && h in s.data && Ownership(RawStep(s, h, v))
    requires t < |s.txs| && OwnsWorkset(s, t) && CouldRun(s, vals, t)
    ensures OwnsWorkset(RawStep(s, h, v), t)
    ensures CouldRun(RawStep(s, h, v), vals[h := v], t) <==>
      (v == vals[h] || !Has(s.txs[t].ws, h) || !Tentative(s.txs[t]) || PutsFirst(s.txs[t].journal, h))
  {
    var s', tx := RawStep(s, h, v), s.txs[t];
    assert OwnsWorkset(s', t);
    if Tentative(tx) {
      forall j | 0 <= j < |tx.ws| ensures s'.mem[tx.ws[j].shadow] == s.mem[tx.ws[j].shadow] && Has(tx.ws, tx.ws[j].header) {
        assert HasShadow(tx, j);
      }
      if v == vals[h] {
        assert vals[h := v] == vals;
      } else if !Has(tx.ws, h) {
        PerformAgree(vals, vals[h := v], tx.journal, tx.ws);
      } else {
        OtherStart(vals, tx.journal, h, v);
      }
    }
  }

  /** Transaction t minds the raw write if it is open, has h and did not store into it first. */
  predicate Minds(tx: Txn, h: Header) {
    Has(tx.ws, h) && Tentative(tx) && !PutsFirst(tx.journal, h)
  }

  lemma RawRunsAll(s: Sys, s': Sys, h: Header, v: Data, vals: Values, vals': Values)
    requires Ownership(s) && vals.Keys == s.data.Keys && h in s.data && Ownership(s')
    requires s' == RawStep(s, h, v) && vals' == vals[h := v]
    requires forall t :: 0 <= t < |s.txs| ==> CouldRun(s, vals, t)
    ensures (forall t :: 0 <= t < |s'.txs| ==> CouldRun(s', vals', t)) <==>
      (v == vals[h] || forall t :: 0 <= t < |s.txs| ==> !Minds(s.txs[t], h))
  {
    forall t | 0 <= t < |s.txs|
      ensures OwnsWorkset(s', t)
      ensures CouldRun(s', vals', t) <==> (v == vals[h] || !Minds(s.txs[t], h))
    {
      assert OwnsWorkset(s, t) && CouldRun(s, vals, t);
      RawRuns(s, h, v, vals, t);
    }
  }

  /**
   Exactly when a raw write takes its place in the serial order without disturbing anybody: it stores
   what is there already, or every live workset that has the object is indifferent to its payload.
   */
  lemma RawWriteExact(s: Sys, init: Values, h: Header, v: Data)
    requires Inv(s, init) && h in s.data
    ensures h in Serial(init, s.history)
    ensures Inv(RawStep(s, h, v), init) <==> (v == Serial(init, s.history)[h] || Harmless(s, h))
  {
    var vals := Serial(init, s.history);
    RawOwnership(s, h, v);
    RawSerial(init, s.history, h, v);
    if v == vals[h] || !PendingSwap(s, h) { RawAgrees(s, h, v, vals); } else { RawDisagrees(s, h, v, vals); }
    RawRunsAll(s, RawStep(s, h, v), h, v, vals, vals[h := v]);
    HarmlessIs(s, h);
  }

  lemma HarmlessIs(s: Sys, h: Header)
    ensures Harmless(s, h) <==> !PendingSwap(s, h) && forall t :: 0 <= t < |s.txs| ==> !Minds(s.txs[t], h)
  {
    if PendingSwap(s, h) {
      var t: nat, j: nat :| t < |s.txs| && ToSwap(s.txs[t], j) && s.txs[t].ws[j].header == h;
      assert Has(s.txs[t].ws, h);
    } else {
      forall t, j: nat | 0 <= t < |s.txs| && j < |s.txs[t].ws| && s.txs[t].ws[j].header == h ensures !ToSwap(s.txs[t], j) {
      }
    }
  }

  // ---- The write is lost ----

  /** Transaction t has h and has not swapped its copy in. */
  ghost predicate Shadows(s: Sys, t: TxId, h: Header) {
    t < |s.txs| && exists j: nat :: j < |s.txs[t].ws| && s.txs[t].ws[j].header == h && HasShadow(s.txs[t], j)
  }

  /** Event e is t's swap of h. */
  predicate SwapsIn(s: Sys, e: Event, t: TxId, h: Header) {
    && e == Swap(t) && t < |s.txs| && s.txs[t].phase.Swapping? && s.txs[t].phase.i < |s.txs[t].ws|
    && s.txs[t].ws[s.txs[t].phase.i].header == h
  }

  /** The swap frees the page that the raw write changed. */
  lemma LostSwap(s: Sys, e: Event, s': Sys, t: TxId, h: Header, v: Data)
    requires Ownership(s) && h in s.data && Next(s, e, s') && SwapsIn(s, e, t, h)
    ensures Next(RawWrite(s, h, v), e, s')
  {
    var b := RawWrite(s, h, v);
    assert OwnsWorkset(s, t) && HasShadow(s.txs[t], s.txs[t].phase.i);
    assert s'.mem == SwapDone(b, t).mem;
  }

  /** Nobody else can take the object, so nobody copies what the raw write left. */
  lemma LostOpen(s: Sys, e: Event, s': Sys, t: TxId, h: Header, v: Data)
    requires Ownership(s) && h in s.data && Shadows(s, t, h) && Next(s, e, s') && e.Open?
    ensures h in s'.data && s'.data[h] in s'.mem && Next(RawWrite(s, h, v), e, RawWrite(s', h, v))
  {
    assert OwnsWorkset(s, t) && h in s.writer && s.writer[h] == t && Has(s.txs[t].ws, h);
    assert s'.data == s.data && s.data[h] != e.page;
    if s' != SetTx(s, e.t, s.txs[e.t].(doomed := true)) {
      assert e.h != h && s.data[e.h] != s.data[h];
      var b, x := RawWrite(s, h, v), Entry(e.h, e.page, e.readOnly);
      assert RawWrite(s', h, v).mem == Taken(b, e.t, x).mem;
    }
  }

  lemma LostAccess(s: Sys, e: Event, s': Sys, h: Header, v: Data)
    requires Ownership(s) && h in s.data && Next(s, e, s') && e.Access?
    ensures h in s'.data && s'.data[h] in s'.mem && Next(RawWrite(s, h, v), e, RawWrite(s', h, v))
  {
    assert OwnsWorkset(s, e.t) && HasShadow(s.txs[e.t], e.j);
    assert s.txs[e.t].ws[e.j].shadow != s.data[h];
    assert RawWrite(s', h, v).mem == Accessed(RawWrite(s, h, v), e.t, e.j, e.a).mem;
  }

  lemma LostOtherSwap(s: Sys, e: Event, s': Sys, t: TxId, h: Header, v: Data)
    requires Ownership(s) && h in s.data && Shadows(s, t, h) && Next(s, e, s') && e.Swap? && !SwapsIn(s, e, t, h)
    ensures h in s'.data && s'.data[h] in s'.mem && Next(RawWrite(s, h, v), e, RawWrite(s', h, v))
  {
    var x := s.txs[e.t].ws[s.txs[e.t].phase.i];
    assert OwnsWorkset(s, t) && OwnsWorkset(s, e.t) && HasShadow(s.txs[e.t], s.txs[e.t].phase.i);
    assert s.writer[x.header] == e.t && s.writer[h] == t;
    assert x.header != h && x.shadow != s.data[h] && s.data[x.header] != s.data[h];
    assert RawWrite(s', h, v).mem == SwapDone(RawWrite(s, h, v), e.t).mem;
  }

  lemma LostFinish(s: Sys, e: Event, s': Sys, h: Header, v: Data)
    requires Ownership(s) && h in s.data && Next(s, e, s') && e.Finish?
    ensures h in s'.data && s'.data[h] in s'.mem && Next(RawWrite(s, h, v), e, RawWrite(s', h, v))
  {
    var tx := s.txs[e.t];
    if tx.phase.i < |tx.ws| && !tx.phase.commit {
      assert OwnsWorkset(s, e.t) && HasShadow(tx, tx.phase.i);
      var page := tx.ws[tx.phase.i].shadow;
      assert page != s.data[h];
      assert RawWrite(s', h, v).mem == RawWrite(s, h, v).mem - {page};
    }
  }

  lemma LostOutside(s: Sys, e: Event, s': Sys, t: TxId, h: Header, v: Data)
    requires Ownership(s) && h in s.data && Shadows(s, t, h) && Next(s, e, s') && e.Outside?
    ensures h in s'.data && s'.data[h] in s'.mem && Next(RawWrite(s, h, v), e, RawWrite(s', h, v))
  {
    assert Has(s.txs[t].ws, h) && e.h != h && s.data[e.h] != s.data[h];
    var b := RawWrite(s, h, v);
    assert RawWrite(s', h, v).mem == b.mem[s.data[e.h] := b.mem[s.data[e.h]].(v := e.v)];
  }

  lemma LostQuiet(s: Sys, e: Event, s': Sys, h: Header, v: Data)
    requires Ownership(s) && h in s.data && Next(s, e, s')
    requires !e.Open? && !e.Access? && !e.Swap? && !e.Finish? && !e.Outside?
    ensures h in s'.data && s'.data[h] in s'.mem && Next(RawWrite(s, h, v), e, RawWrite(s', h, v))
  {
  }

  /** While t has the object, every step goes as it would have gone without the raw write. */
  lemma LostStep(s: Sys, e: Event, s': Sys, t: TxId, h: Header, v: Data)
    requires Ownership(s) && h in s.data && Shadows(s, t, h) && Next(s, e, s') && !SwapsIn(s, e, t, h)
    ensures h in s'.data && s'.data[h] in s'.mem && Next(RawWrite(s, h, v), e, RawWrite(s', h, v))
  {
    if e.Open? {
      LostOpen(s, e, s', t, h, v);
    } else if e.Access? {
      LostAccess(s, e, s', h, v);
    } else if e.Swap? {
      LostOtherSwap(s, e, s', t, h, v);
    } else if e.Finish? {
      LostFinish(s, e, s', h, v);
    } else if e.Outside? {
      LostOutside(s, e, s', t, h, v);
    } else {
      LostQuiet(s, e, s', h, v);
    }
  }

  /** A stretch of a run, from any state that a run can reach. */
  ghost predicate Stretch(ss: seq<Sys>, es: seq<Event>) {
    |ss| == |es| + 1 && forall i {:trigger es[i]} :: 0 <= i < |es| ==> Next(ss[i], es[i], ss[i + 1])
  }

  lemma {:induction false} StretchKeepsInv(ss: seq<Sys>, es: seq<Event>, init: Values, i: nat)
    requires Stretch(ss, es) && Inv(ss[0], init) && i < |ss|
    ensures Inv(ss[i], init) && ss[i].data.Keys == ss[0].data.Keys
  {
    if i > 0 {
      StretchKeepsInv(ss, es, init, i - 1);
      StepKeeps(ss[i - 1], es[i - 1], ss[i], init);
      KeysKept(ss[i - 1], es[i - 1], ss[i]);
    }
  }

  lemma KeysKept(s: Sys, e: Event, s': Sys)
    requires Ownership(s) && Next(s, e, s')
    ensures s'.data.Keys == s.data.Keys
  {
    if e.Swap? { assert OwnsWorkset(s, e.t); }
  }

  /** Once t has swapped h in, it has no shadow of it any more. */
  lemma SwappedIn(s: Sys, e: Event, s': Sys, t: TxId, h: Header)
    requires Ownership(s) && Next(s, e, s') && SwapsIn(s, e, t, h)
    ensures !Shadows(s', t, h)
  {
    assert OwnsWorkset(s, t);
    forall j: nat | j < |s'.txs[t].ws| && s'.txs[t].ws[j].header == h ensures !HasShadow(s'.txs[t], j) {
    }
  }

  lemma LostNext(s: Sys, e: Event, s': Sys, t: TxId, h: Header, v: Data)
    requires Ownership(s) && h in s.data && Shadows(s, t, h) && Next(s, e, s') && Shadows(s', t, h)
    ensures h in s'.data && s'.data[h] in s'.mem && Next(RawWrite(s, h, v), e, RawWrite(s', h, v))
  {
    assert !SwapsIn(s, e, t, h) by { if SwapsIn(s, e, t, h) { SwappedIn(s, e, s', t, h); } }
    LostStep(s, e, s', t, h, v);
  }

  /**
   A raw write to an object that a transaction has shadowed is lost when the transaction commits:
   whatever is written, whatever everybody does meanwhile, the same events lead to the very state
   they would have led to without the write.
   */
  lemma RawWriteIsLost(ss: seq<Sys>, es: seq<Event>, init: Values, t: TxId, h: Header, v: Data) returns (ts: seq<Sys>)
    requires Stretch(ss, es) && Inv(ss[0], init) && h in ss[0].data && es != []
    requires forall i :: 0 <= i < |es| ==> Shadows(ss[i], t, h)
    requires SwapsIn(ss[|es| - 1], es[|es| - 1], t, h)
    ensures ss[0].data[h] in ss[0].mem && Stretch(ts, es)
    ensures ts[0] == RawWrite(ss[0], h, v) && ts[|es|] == ss[|es|]
  {
    var n := |es| - 1;
    forall i | 0 <= i <= n ensures h in ss[i].data && ss[i].data[h] in ss[i].mem {
      StretchHas(ss, es, init, h, i);
    }
    ts := seq(|es| + 1, i requires 0 <= i <= |es| => if i <= n then RawWrite(ss[i], h, v) else ss[i]);
    forall i | 0 <= i < |es| ensures Next(ts[i], es[i], ts[i + 1]) {
      StretchHas(ss, es, init, h, i);
      if i == n {
        LostSwap(ss[n], es[n], ss[|es|], t, h, v);
      } else {
        LostNext(ss[i], es[i], ss[i + 1], t, h, v);
      }
    }
  }

  lemma StretchHas(ss: seq<Sys>, es: seq<Event>, init: Values, h: Header, i: nat)
    requires Stretch(ss, es) && Inv(ss[0], init) && h in ss[0].data && i < |ss|
    ensures h in ss[i].data && ss[i].data[h] in ss[i].mem && Ownership(ss[i])
  {
    StretchKeepsInv(ss, es, init, i);
  }

  // ---- No serial order explains it ----

  /** The objects' values that a serial order leaves, if every read saw what it sees there. */
  predicate Explains(init: Values, history: seq<Record>, vals: Values) {
    SerialFaithful(init, history) && Serial(init, history) == vals
  }

  lemma LoadedFirst(init: Values, history: seq<Record>, journal: seq<Act>, h: Header, v: Data)
    requires SerialFaithful(init, history)
    ensures var vals := Serial(init, history);
      && (SerialFaithful(init, history + [Loaded(h, v)] + [Ran(journal)]) <==> Faithful(vals[h := v], journal))
      && Serial(init, history + [Loaded(h, v)] + [Ran(journal)]) == Perform(vals[h := v], journal)
  {
    RawSerial(init, history, h, v);
    var front := history + [Loaded(h, v)];
    assert (front + [Ran(journal)])[..|front|] == front;
  }

  lemma LoadedLast(init: Values, history: seq<Record>, journal: seq<Act>, h: Header, v: Data)
    requires SerialFaithful(init, history) && Faithful(Serial(init, history), journal)
    ensures SerialFaithful(init, history + [Ran(journal)] + [Loaded(h, v)])
    ensures Serial(init, history + [Ran(journal)] + [Loaded(h, v)]) == Perform(Serial(init, history), journal)[h := v]
  {
    CommitPointSerial(init, history, journal);
    RawSerial(init, history + [Ran(journal)], h, v);
  }

  /**
   The lost write leaves the values that the committed transaction left alone.  Some order of the two
   explains them exactly if the write changed nothing, the transaction stored into the object before
   reading it, or the write happened to store what the transaction leaves.
   */
  lemma ExplainedExactly(init: Values, history: seq<Record>, journal: seq<Act>, h: Header, v: Data)
    requires SerialFaithful(init, history) && Faithful(Serial(init, history), journal) && h in Serial(init, history)
    ensures var vals := Serial(init, history);
      var left := Perform(vals, journal);
      && h in left
      && ((|| Explains(init, history + [Loaded(h, v)] + [Ran(journal)], left)
           || Explains(init, history + [Ran(journal)] + [Loaded(h, v)], left)) <==>
          v == vals[h] || PutsFirst(journal, h) || v == left[h])
  {
    var vals := Serial(init, history);
    var left := Perform(vals, journal);
    LoadedFirst(init, history, journal, h, v);
    LoadedLast(init, history, journal, h, v);
    if v == vals[h] {
      assert vals[h := v] == vals;
      InPerform(vals, journal, h);
    } else {
      OtherStart(vals, journal, h, v);
      assert NoAct(journal, h) ==> left[h := v][h] != left[h];
    }
    assert h in left && (v == left[h] <==> left[h := v] == left) by { if left[h := v] == left { assert left[h := v][h] == v; } }
  }

  lemma {:induction false} InPerform(vals: Values, journal: seq<Act>, h: Header)
    requires h in vals
    ensures h in Perform(vals, journal)
  {
    if journal != [] {
      InPerform(vals, journal[..|journal| - 1], h);
    }
  }

  // ---- A run in which it happens ----

  /** One object, one transaction that only reads it, stopped after `i` steps of its life. */
  function Reader(was: Data, now: Data, i: nat): (s: Sys) {
    var fresh0 := map[10 := Cell(Stable(0), now)];
    var copied := map[10 := Cell(Stable(0), now), 11 := Cell(Private(0, 0), was)];
    var e := Entry(0, 11, true);
    var j := [Get(0, was)];
    var d, w := map[0 := 10], map[0 := 0];
    if i == 0 then Sys(map[], d, fresh0, map[], [Txn(Out, [], false, [])], [])
    else if i == 1 then Sys(map[], d, fresh0, map[], [Txn(Working, [], false, [])], [])
    else if i == 2 then Sys(w, d, copied, map[], [Txn(Working, [e], false, [])], [])
    else if i == 3 then Sys(w, d, copied, map[], [Txn(Working, [e], false, j)], [])
    else if i == 4 then Sys(w, d, copied, map[], [Txn(Locking(0, true), [e], false, j)], [])
    else if i == 5 then Sys(w, d, copied, map[0 := 0], [Txn(Locking(1, true), [e], false, j)], [])
    else if i == 6 then Sys(w, d, copied, map[0 := 0], [Txn(Swapping(0), [e], false, j)], [Ran(j)])
    else Sys(w, map[0 := 11], map[11 := Cell(Stable(0), was)], map[0 := 0], [Txn(Swapping(1), [e], false, j)], [Ran(j)])
  }

  function ReaderEvent(was: Data, i: nat): (e: Event) {
    if i == 0 then Begin(0) else if i == 1 then Open(0, 0, 11, true) else if i == 2 then Access(0, 0, Get(0, was))
    else if i == 3 then Commit(0) else if i == 4 then Lock(0) else if i == 5 then AllLocked(0) else Swap(0)
  }

  lemma ReaderOpens(was: Data, now: Data, i: nat)
    requires i < 3 && (i == 1 ==> was == now)
    ensures Next(Reader(was, now, i), ReaderEvent(was, i), Reader(was, now, i + 1))
  {
    assert Inserted([], Entry(0, 11, true)) == [Entry(0, 11, true)];
    assert [] + [Get(0, was)] == [Get(0, was)];
  }

  lemma ReaderCommits(was: Data, now: Data, i: nat)
    requires 3 <= i < 6
    ensures Next(Reader(was, now, i), ReaderEvent(was, i), Reader(was, now, i + 1))
  {
  }

  lemma ReaderSwaps(was: Data, now: Data)
    ensures Next(Reader(was, now, 6), ReaderEvent(was, 6), Reader(was, now, 7))
  {
    var s, s' := Reader(was, now, 6), Reader(was, now, 7);
    assert s'.mem == (s.mem - {10})[11 := Cell(Stable(0), was)];
    assert s' == SwapDone(s, 0);
  }

  /**
   A process outside any transaction writes an object that a transaction has read, and the transaction
   commits: the write is gone, and neither order of the two explains what was read and what is left.
   */
  lemma RawWriteUnexplained(was: Data, now: Data)
    requires was != now
    ensures Init(Reader(was, was, 0), map[0 := was])
    ensures forall i :: 0 <= i < 3 ==> Next(Reader(was, was, i), ReaderEvent(was, i), Reader(was, was, i + 1))
    ensures RawWrite(Reader(was, was, 3), 0, now) == Reader(was, now, 3)
    ensures forall i :: 3 <= i < 7 ==> Next(Reader(was, now, i), ReaderEvent(was, i), Reader(was, now, i + 1))
    ensures var s, journal := Reader(was, now, 7), [Get(0, was)];
      var left := map[0 := s.mem[s.data[0]].v];
      && s.history == [Ran(journal)]
      && !Explains(map[0 := was], [] + [Loaded(0, now)] + [Ran(journal)], left)
      && !Explains(map[0 := was], [] + [Ran(journal)] + [Loaded(0, now)], left)
  {
    forall i | 0 <= i < 3 ensures Next(Reader(was, was, i), ReaderEvent(was, i), Reader(was, was, i + 1)) {
      ReaderOpens(was, was, i);
    }
    forall i | 3 <= i < 7 ensures Next(Reader(was, now, i), ReaderEvent(was, i), Reader(was, now, i + 1)) {
      if i < 6 { ReaderCommits(was, now, i); } else { ReaderSwaps(was, now); }
    }
    var journal := [Get(0, was)];
    assert journal[..0] == [];
    assert !PutsFirst([], 0) && !PutsFirst(journal, 0);
    assert Perform(map[0 := was], []) == map[0 := was];
    assert Perform(map[0 := was], journal) == map[0 := was];
    ExplainedExactly(map[0 := was], [], journal, 0, now);
  }
}
