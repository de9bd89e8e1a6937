/**
 The buffer cache under the log and under transactions, told from the events of a
 run: who has which buffer, what the log lists, what every block holds and what of it
 is on disk.
 */
module CacheTold {
  import opened Bio
  import opened CacheReads
  import opened CacheRuns

  datatype Ledger = Ledger(
    waiting: multiset<Key>, held: map<Key, nat>, leaving: multiset<Key>, shadows: map<Key, Shadow>,
    listed: seq<nat>, installed: nat, ops: set<nat>, committing: bool,
    contents: map<Key, Block>, disk: map<Key, Block>)

  function Started(disk: map<Key, Block>): (g: Ledger) {
    Ledger(multiset{}, map[], multiset{}, map[], [], 0, {}, false, disk, disk)
  }

  function Listing(listed: seq<nat>, b: nat): (r: seq<nat>) {
    if b in listed then listed else listed + [b]
  }

  /** What one event, if it does not panic, adds to the story. */
  function Tell(g: Ledger, e: Event): (r: Ledger) {
    match e
    case Begin(p) => g.(ops := g.ops + {p})
    case End(p) => g.(ops := g.ops - {p}, committing := g.ops == {p})
    case Get(k, _) => g.(waiting := g.waiting + multiset{k})
    case Lock(p, k) => g.(waiting := g.waiting - multiset{k}, held := g.held[k := p])
    case Edit(_, k, v) => g.(contents := g.contents[k := v])
    case LogWrite(_, k) => g.(listed := Listing(g.listed, k.block))
    case Write(_, k) => if k in g.contents then g.(disk := g.disk[k := g.contents[k]]) else g
    case Unlock(_, k) => g.(held := g.held - {k}, leaving := g.leaving + multiset{k})
    case Unref(k) => g.(leaving := g.leaving - multiset{k})
    case CopyOut(_, k, v) => g.(contents := g.contents[k := v])
    case Install(_, k, v) => g.(contents := g.contents[k := v])
    case Unpin(_) => g.(installed := g.installed + 1)
    case CommitDone => g.(listed := [], installed := 0, committing := false)
    case Shade(_, k) => g.(shadows := g.shadows[k := Private])
    case SwapIn(k, v) => g.(contents := g.contents[k := v], shadows := g.shadows[k := Swapped])
    case Record(_, k) => g.(listed := Listing(g.listed, k.block), shadows := g.shadows[k := Recorded])
    case Unshade(k) => g.(shadows := g.shadows - {k})
  }

  function Told(disk: map<Key, Block>, es: seq<Event>): (g: Ledger) {
    if es == [] then Started(disk) else Tell(Told(disk, es[..|es| - 1]), es[|es| - 1])
  }

  ghost predicate SameUsers(s: Sys, g: Ledger) {
    && s.waiting == g.waiting && s.leaving == g.leaving && s.shadows == g.shadows
    && s.held.Keys == g.held.Keys && forall k :: k in s.held ==> s.held[k].p == g.held[k]
  }

  predicate SameLog(log: Journal, g: Ledger) {
    log.blocks == g.listed && log.installed == g.installed && log.ops.Keys == g.ops && log.committing == g.committing
  }

  predicate SameContents(t: Table, g: Ledger) {
    t.truth == g.contents && t.disk == g.disk
  }

  lemma ListingUsers(s: Sys, e: Event, g: Ledger)
    requires Enabled(s, e) && (e.LogWrite? || e.Record?) && !Step(s, e).panicked && SameUsers(s, g)
    ensures SameUsers(Step(s, e), Tell(g, e))
  {
  }

  lemma ListingLog(s: Sys, e: Event, g: Ledger)
    requires Enabled(s, e) && (e.LogWrite? || e.Record?) && !Step(s, e).panicked && SameLog(s.log, g)
    ensures SameLog(Step(s, e).log, Tell(g, e))
  {
  }

  lemma TellHolders(s: Sys, e: Event, g: Ledger)
    requires Enabled(s, e) && SameUsers(s, g) && !Step(s, e).panicked && ByHolder(e)
    ensures SameUsers(Step(s, e), Tell(g, e))
  {
  }

  lemma TellOthers(s: Sys, e: Event, g: Ledger)
    requires Enabled(s, e) && SameUsers(s, g) && !Step(s, e).panicked && !ByHolder(e) && !e.LogWrite? && !e.Record?
    ensures SameUsers(Step(s, e), Tell(g, e))
  {
  }

  lemma TellJournal(s: Sys, e: Event, g: Ledger)
    requires Enabled(s, e) && SameLog(s.log, g) && !Step(s, e).panicked && !e.LogWrite? && !e.Record?
    ensures SameLog(Step(s, e).log, Tell(g, e))
  {
  }

  lemma TellUsers(s: Sys, e: Event, g: Ledger)
    requires Enabled(s, e) && SameUsers(s, g) && !Step(s, e).panicked
    ensures SameUsers(Step(s, e), Tell(g, e))
  {
    if e.LogWrite? || e.Record? {
      ListingUsers(s, e, g);
    } else if ByHolder(e) {
      TellHolders(s, e, g);
    } else {
      TellOthers(s, e, g);
    }
  }

  lemma TellLog(s: Sys, e: Event, g: Ledger)
    requires Enabled(s, e) && SameLog(s.log, g) && !Step(s, e).panicked
    ensures SameLog(Step(s, e).log, Tell(g, e))
  {
    if e.LogWrite? || e.Record? { ListingLog(s, e, g); } else { TellJournal(s, e, g); }
  }

  lemma WriteSaves(s: Sys, e: Event)
    requires Inv(s) && Enabled(s, e) && e.Write?
    ensures e.k in s.t.truth && Step(s, e).t.disk == s.t.disk[e.k := s.t.truth[e.k]]
  {
    Referred(s, e.k);
    assert KeyOk(s, e.k) && SlotOk(s.t, s.t.index[e.k]);
  }

  predicate ByHolder(e: Event) {
    e.Get? || e.Lock? || e.Unlock? || e.Unref? || e.Shade? || e.Unshade?
  }

  lemma HolderSaves(s: Sys, e: Event)
    requires Enabled(s, e) && ByHolder(e)
    ensures Step(s, e).t.disk == s.t.disk
  {
  }

  lemma LogSaves(s: Sys, e: Event)
    requires Enabled(s, e) && !ByHolder(e) && !Stores(e) && !e.Write?
    ensures Step(s, e).t.disk == s.t.disk
  {
  }

  lemma StoreSaves(s: Sys, e: Event)
    requires Enabled(s, e) && Stores(e)
    ensures Step(s, e).t.disk == s.t.disk
  {
  }

  lemma OnlyWriteSaves(s: Sys, e: Event)
    requires Enabled(s, e) && !e.Write?
    ensures Step(s, e).t.disk == s.t.disk
  {
    if ByHolder(e) { HolderSaves(s, e); } else if Stores(e) { StoreSaves(s, e); } else { LogSaves(s, e); }
  }

  lemma TellContents(s: Sys, e: Event, g: Ledger)
    requires Inv(s) && Enabled(s, e) && Disciplined(s, e) && SameContents(s.t, g) && !Step(s, e).panicked
    ensures SameContents(Step(s, e).t, Tell(g, e))
  {
    StepKeeps(s, e);
    if e.Write? { WriteSaves(s, e); } else { OnlyWriteSaves(s, e); }
  }

  /** A panic is the end of a run. */
  lemma PanicIsLast(ss: seq<Sys>, es: seq<Event>, i: nat)
    requires Run(ss, es) && i < |es|
    ensures !ss[i].panicked
  {
    assert Follows(ss, es, i);
  }

  /**
   In every run, up to a panic, the events tell everything: who waits for, holds and is leaving which
   buffer, which blocks are shadowed, what the log lists and how much of it is installed, what every
   block holds, and what of it is on disk.
   */
  lemma {:induction false} ToldInEveryRun(disk: map<Key, Block>, ss: seq<Sys>, es: seq<Event>, i: nat)
    requires Run(ss, es) && Careful(ss, es) && Start(ss[0], disk) && i < |ss| && !ss[i].panicked
    ensures var g := Told(disk, es[..i]);
      SameUsers(ss[i], g) && SameLog(ss[i].log, g) && SameContents(ss[i].t, g)
  {
    if i > 0 {
      PanicIsLast(ss, es, i - 1);
      ToldInEveryRun(disk, ss, es, i - 1);
      StartInv(ss[0], disk);
      RunKeepsInv(ss, es, i - 1);
      TellFollows(disk, ss, es, i - 1);
    }
  }

  lemma TellFollows(disk: map<Key, Block>, ss: seq<Sys>, es: seq<Event>, i: nat)
    requires Run(ss, es) && Careful(ss, es) && i < |es| && !ss[i + 1].panicked && Inv(ss[i])
    requires var g := Told(disk, es[..i]); SameUsers(ss[i], g) && SameLog(ss[i].log, g) && SameContents(ss[i].t, g)
    ensures var g := Told(disk, es[..i + 1]); SameUsers(ss[i + 1], g) && SameLog(ss[i + 1].log, g) && SameContents(ss[i + 1].t, g)
  {
    assert Follows(ss, es, i) && Disciplined(ss[i], es[i]);
    var g := Told(disk, es[..i]);
    TellUsers(ss[i], es[i], g);
    TellLog(ss[i], es[i], g);
    TellContents(ss[i], es[i], g);
    assert es[..i + 1][..i] == es[..i];
  }

  /** In every run a buffer that somebody holds has what the events say its block holds, and its sleeplock has one holder. */
  lemma HolderSeesTold(disk: map<Key, Block>, ss: seq<Sys>, es: seq<Event>, i: nat, k: Key)
    requires Run(ss, es) && Careful(ss, es) && Start(ss[0], disk) && i < |ss| && !ss[i].panicked && k in Told(disk, es[..i]).held
    ensures Holds(ss[i], Told(disk, es[..i]).held[k], k)
    ensures k in Told(disk, es[..i]).contents && ss[i].t.bufs[ss[i].t.index[k]].data == Told(disk, es[..i]).contents[k]
  {
    ToldInEveryRun(disk, ss, es, i);
    StartInv(ss[0], disk);
    RunKeepsInv(ss, es, i);
    HeldContents(ss[i], k);
  }
}
