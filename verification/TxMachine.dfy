/**
 The transaction layer as a machine: any number of transactions interleaving
 txbegin, accesses through txshadow, txcommit and txabort, with the lock, swap,
 unlock and finish loops of commit and abort taken one iteration at a time; and
 the invariant that makes every run serializable.
 */
module TxMachine {
  import opened Tx

  /** What a transaction's program did: each access with the value it saw or stored. */
  datatype Act = Get(h: Header, v: Data) | Put(h: Header, v: Data)

  datatype Phase =
    | Out                             // not inside a transaction
    | Working
    | Locking(i: nat, commit: bool)
    | Swapping(i: nat)
    | Unlocking(i: nat, commit: bool)
    | Finishing(i: nat, commit: bool) // commit_fn or abort_fn loop

  datatype Txn = Txn(phase: Phase, ws: seq<Entry>, doomed: bool, journal: seq<Act>)

  /** Who uses an allocated page. */
  datatype Owner = Stable(h: Header) | Private(t: TxId, h: Header)
  datatype Cell = Cell(owner: Owner, v: Data)

  /** History: a transaction that committed, or an object written outside transactions. */
  datatype Record = Ran(journal: seq<Act>) | Loaded(h: Header, v: Data)

  datatype Sys = Sys(
    writer: map<Header, TxId>, data: map<Header, Page>, mem: map<Page, Cell>,
    locks: map<Header, TxId>, txs: seq<Txn>, history: seq<Record>)

  datatype Event =
    | Begin(t: TxId)
    | Open(t: TxId, h: Header, page: Page, readOnly: bool)
    | Access(t: TxId, j: nat, a: Act)
    | Commit(t: TxId)
    | Abort(t: TxId)
    | Lock(t: TxId)
    | AllLocked(t: TxId)
    | Swap(t: TxId)
    | AllSwapped(t: TxId)
    | Unlock(t: TxId)
    | AllUnlocked(t: TxId)
    | Finish(t: TxId)
    | Outside(h: Header, v: Data, reset: bool) // initxobj and reload, or a write outside any transaction

  // ---- Serial execution ----

  type Values = map<Header, Data>

  function Apply(vals: Values, a: Act): (r: Values) {
    if a.Put? then vals[a.h := a.v] else vals
  }

  function Perform(vals: Values, journal: seq<Act>): (r: Values) {
    if journal == [] then vals
    else Apply(Perform(vals, journal[..|journal| - 1]), journal[|journal| - 1])
  }

  /** Running the journal alone from `vals` makes every read see what it saw. */
  predicate Faithful(vals: Values, journal: seq<Act>) {
    journal == [] ||
    var front, a := journal[..|journal| - 1], journal[|journal| - 1];
    && Faithful(vals, front)
    && (a.Get? ==> a.h in Perform(vals, front) && Perform(vals, front)[a.h] == a.v)
  }

  /** The objects' values after running the history's records one after another. */
  function Serial(init: Values, history: seq<Record>): (r: Values) {
    if history == [] then init
    else
      var vals, rec := Serial(init, history[..|history| - 1]), history[|history| - 1];
      if rec.Ran? then Perform(vals, rec.journal) else vals[rec.h := rec.v]
  }

  predicate SerialFaithful(init: Values, history: seq<Record>) {
    history == [] ||
    var front, rec := history[..|history| - 1], history[|history| - 1];
    && SerialFaithful(init, front)
    && (rec.Ran? ==> Faithful(Serial(init, front), rec.journal))
  }

  // ---- Steps ----

  predicate Live(s: Sys, t: TxId) {
    t < |s.txs|
  }

  function SetTx(s: Sys, t: TxId, tx: Txn): (r: Sys)
    requires t < |s.txs|
  {
    s.(txs := s.txs[t := tx])
  }

  /** txshadow's first access: take the object and copy its payload into a fresh page. */
  function Taken(s: Sys, t: TxId, e: Entry): (r: Sys)
    requires t < |s.txs| && e.header in s.data && s.data[e.header] in s.mem
  {
    SetTx(s, t, s.txs[t].(ws := Inserted(s.txs[t].ws, e)))
    .(writer := s.writer[e.header := t],
      mem := s.mem[e.shadow := Cell(Private(t, e.header), s.mem[s.data[e.header]].v)])
  }

  /** The program reads or writes its shadow of entry j. */
  function Accessed(s: Sys, t: TxId, j: nat, a: Act): (r: Sys)
    requires t < |s.txs| && j < |s.txs[t].ws| && s.txs[t].ws[j].shadow in s.mem
  {
    var page := s.txs[t].ws[j].shadow;
    SetTx(s, t, s.txs[t].(journal := s.txs[t].journal + [a]))
    .(mem := if a.Put? then s.mem[page := s.mem[page].(v := a.v)] else s.mem)
  }

  /** One iteration of the swap loop: free the old payload, point at the shadow. */
  function SwapDone(s: Sys, t: TxId): (r: Sys)
    requires t < |s.txs| && s.txs[t].phase.Swapping? && s.txs[t].phase.i < |s.txs[t].ws|
    requires var e := s.txs[t].ws[s.txs[t].phase.i]; e.header in s.data && e.shadow in s.mem
  {
    var tx := s.txs[t];
    var e := tx.ws[tx.phase.i];
    SetTx(s, t, tx.(phase := Swapping(tx.phase.i + 1)))
    .(data := s.data[e.header := e.shadow],
      mem := (s.mem - {s.data[e.header]})[e.shadow := Cell(Stable(e.header), s.mem[e.shadow].v)])
  }

  /** No live workset holds the object, as for an object whose header is recycled. */
  predicate Unused(s: Sys, h: Header) {
    forall t :: 0 <= t < |s.txs| ==> !Has(s.txs[t].ws, h)
  }

  /** One atomic step.  A refused access leaves the transaction fit only for abort. */
  ghost predicate Next(s: Sys, e: Event, s': Sys) {
    if e.Outside? then
      && e.h in s.data && s.data[e.h] in s.mem && Unused(s, e.h)
      && s' == s.(writer := if e.reset then s.writer - {e.h} else s.writer, history := s.history + [Loaded(e.h, e.v)],
                  mem := s.mem[s.data[e.h] := s.mem[s.data[e.h]].(v := e.v)])
    else
      && e.t < |s.txs|
      && var t, tx := e.t, s.txs[e.t];
      match e
      case Begin(_) =>
        tx.phase.Out? && s' == SetTx(s, t, Txn(Working, [], false, []))
      case Open(_, h, page, ro) =>
        && tx.phase.Working? && !tx.doomed && h in s.data && s.data[h] in s.mem
        && !Has(tx.ws, h) && page !in s.mem
        && s' == if |tx.ws| >= MAX_WORKSET || (h in s.writer && s.writer[h] != t)
                 then SetTx(s, t, tx.(doomed := true))
                 else Taken(s, t, Entry(h, page, ro))
      case Access(_, j, a) =>
        && tx.phase.Working? && !tx.doomed && j < |tx.ws| && tx.ws[j].header == a.h
        && tx.ws[j].shadow in s.mem
        && (a.Get? ==> s.mem[tx.ws[j].shadow].v == a.v)
        && s' == Accessed(s, t, j, a)
      case Commit(_) =>
        tx.phase.Working? && !tx.doomed && s' == SetTx(s, t, tx.(phase := Locking(0, true)))
      case Abort(_) =>
        tx.phase.Working? && s' == SetTx(s, t, tx.(phase := Locking(0, false)))
      case Lock(_) =>
        && tx.phase.Locking? && tx.phase.i < |tx.ws| && tx.ws[tx.phase.i].header !in s.locks
        && s' == SetTx(s, t, tx.(phase := Locking(tx.phase.i + 1, tx.phase.commit)))
                 .(locks := s.locks[tx.ws[tx.phase.i].header := t])
      case AllLocked(_) =>
        && tx.phase.Locking? && tx.phase.i == |tx.ws|
        && s' == if tx.phase.commit
                 then SetTx(s, t, tx.(phase := Swapping(0))).(history := s.history + [Ran(tx.journal)])
                 else SetTx(s, t, tx.(phase := Unlocking(0, false)))
      case Swap(_) =>
        && tx.phase.Swapping? && tx.phase.i < |tx.ws|
        && var h, page := tx.ws[tx.phase.i].header, tx.ws[tx.phase.i].shadow;
        && h in s.data && s.data[h] in s.mem && page in s.mem
        && s' == SwapDone(s, t)
      case AllSwapped(_) =>
        && tx.phase.Swapping? && tx.phase.i == |tx.ws|
        && s' == SetTx(s, t, tx.(phase := Unlocking(0, true)))
      case Unlock(_) =>
        && tx.phase.Unlocking? && tx.phase.i < |tx.ws|
        && s' == SetTx(s, t, tx.(phase := Unlocking(tx.phase.i + 1, tx.phase.commit)))
                 .(locks := s.locks - {tx.ws[tx.phase.i].header})
      case AllUnlocked(_) =>
        && tx.phase.Unlocking? && tx.phase.i == |tx.ws|
        && s' == SetTx(s, t, tx.(phase := Finishing(0, tx.phase.commit)))
      case Finish(_) =>
        && tx.phase.Finishing?
        && s' == if tx.phase.i < |tx.ws|
                 then SetTx(s, t, tx.(phase := Finishing(tx.phase.i + 1, tx.phase.commit)))
                      .(mem := if tx.phase.commit then s.mem else s.mem - {tx.ws[tx.phase.i].shadow})
                 else SetTx(s, t, Txn(Out, [], false, []))
  }

  // ---- The invariant ----

  /** Entry j still has its private shadow page. */
  predicate HasShadow(tx: Txn, j: nat) {
    match tx.phase
    case Swapping(i) => i <= j
    case Unlocking(_, commit) => !commit
    case Finishing(i, commit) => !commit && i <= j
    case _ => true
  }

  /** Entry j is being committed and its payload pointer has not moved yet. */
  predicate ToSwap(tx: Txn, j: nat) {
    tx.phase.Swapping? && tx.phase.i <= j < |tx.ws|
  }

  /** The transaction's accesses will count if it commits. */
  predicate Tentative(tx: Txn) {
    tx.phase.Working? || (tx.phase.Locking? && tx.phase.commit)
  }

  /** Worksets are sorted, within bounds, and hold only objects the transaction has taken. */
  ghost predicate OwnsWorkset(s: Sys, t: TxId)
    requires t < |s.txs|
  {
    var tx := s.txs[t];
    && Sorted(tx.ws)
    && (tx.phase.Out? ==> tx.ws == [])
    && forall j :: 0 <= j < |tx.ws| ==>
         var e := tx.ws[j];
         && e.header in s.data
         && e.header in s.writer && s.writer[e.header] == t
         && (HasShadow(tx, j) ==> e.shadow in s.mem && s.mem[e.shadow].owner == Private(t, e.header))
  }

  ghost predicate Ownership(s: Sys) {
    && (forall t :: 0 <= t < |s.txs| ==> OwnsWorkset(s, t))
    && (forall h :: h in s.data ==> s.data[h] in s.mem && s.mem[s.data[h]].owner == Stable(h))
  }

  /** Some commit in progress has yet to move the object's payload pointer. */
  ghost predicate PendingSwap(s: Sys, h: Header) {
    exists t: nat, j: nat :: t < |s.txs| && ToSwap(s.txs[t], j) && s.txs[t].ws[j].header == h
  }

  /** The objects' payloads are `vals`, apart from swaps in progress, whose shadows are. */
  ghost predicate Agrees(s: Sys, vals: Values)
    requires Ownership(s)
  {
    && vals.Keys == s.data.Keys
    && (forall h :: h in s.data && !PendingSwap(s, h) ==> s.mem[s.data[h]].v == vals[h])
    && (forall t: nat, j: nat :: t < |s.txs| && ToSwap(s.txs[t], j) ==>
          OwnsWorkset(s, t) && s.mem[s.txs[t].ws[j].shadow].v == vals[s.txs[t].ws[j].header])
  }

  predicate Touches(journal: seq<Act>, ws: seq<Entry>) {
    forall i :: 0 <= i < |journal| ==> Has(ws, journal[i].h)
  }

  /** A tentative transaction could run now, alone, and see and store exactly what it did. */
  ghost predicate CouldRun(s: Sys, vals: Values, t: TxId)
    requires t < |s.txs| && OwnsWorkset(s, t)
  {
    var tx := s.txs[t];
    Tentative(tx) ==>
      && Touches(tx.journal, tx.ws)
      && Faithful(vals, tx.journal)
      && forall j :: 0 <= j < |tx.ws| ==>
           && tx.ws[j].header in Perform(vals, tx.journal)
           && s.mem[tx.ws[j].shadow].v == Perform(vals, tx.journal)[tx.ws[j].header]
  }

  ghost predicate Inv(s: Sys, init: Values) {
    && Ownership(s)
    && SerialFaithful(init, s.history)
    && Agrees(s, Serial(init, s.history))
    && forall t :: 0 <= t < |s.txs| ==> CouldRun(s, Serial(init, s.history), t)
  }

  /** Nobody in a transaction, every payload in its own page. */
  ghost predicate Init(s: Sys, init: Values) {
    && s.history == [] && s.locks == map[]
    && (forall t :: 0 <= t < |s.txs| ==> s.txs[t].phase.Out? && s.txs[t].ws == [])
    && init.Keys == s.data.Keys
    && forall h :: h in s.data ==> s.data[h] in s.mem && s.mem[s.data[h]] == Cell(Stable(h), init[h])
  }
}
