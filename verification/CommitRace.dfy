/**
 The log's commit against a transaction's: a run from a booted machine in which a
 transaction swaps its shadow of a logged block in between write_log's copy of the
 block and install_trans' copy back, and loses its change.
 */
module CommitRace {
  import opened Bio
  import opened CacheRuns
  import opened CacheReads
  import opened CacheTrips
  import Log

  // ---- The stages ----

  /** The event stores nothing new into block k. */
  predicate Quiet(e: Event, k: Key) {
    Stores(e) && e.k == k ==> e.Install?
  }

  /** The events es' are es and more, with nothing new stored into block k. */
  ghost predicate Adds(es: seq<Event>, es': seq<Event>, k: Key) {
    |es| <= |es'| && es'[..|es|] == es && forall i {:trigger es'[i]} :: |es| <= i < |es'| ==> Quiet(es'[i], k)
  }

  lemma AddsOne(es: seq<Event>, es': seq<Event>, e: Event, k: Key)
    requires Adds(es, es', k) && Quiet(e, k)
    ensures Adds(es, es' + [e], k)
  {
    assert (es' + [e])[..|es|] == es'[..|es|];
  }

  lemma AddsTwo(es: seq<Event>, es': seq<Event>, e: Event, f: Event, k: Key)
    requires Adds(es, es', k) && Quiet(e, k) && Quiet(f, k)
    ensures Adds(es, es' + [e] + [f], k)
  {
    AddsOne(es, es', e, k);
    AddsOne(es, es' + [e], f, k);
  }

  lemma AddsTwice(es: seq<Event>, es': seq<Event>, fs: seq<Event>, k: Key)
    requires Adds(es, es', k) && Adds(es', fs, k)
    ensures Adds(es, fs, k)
  {
    assert fs[..|es|] == fs[..|es'|][..|es|];
    forall i | |es| <= i < |fs| ensures Quiet(fs[i], k) {
      if i < |es'| { assert fs[..|es'|][i] == es'[i]; }
    }
  }

  lemma AddsNothing(es: seq<Event>, k: Key)
    ensures Adds(es, es, k)
  {
    assert es[..|es|] == es;
  }

  /** An operation of process 0 logs block k with contents v. */
  lemma LogsBlock(s: Sys, disk: map<Key, Block>, k: Key, v: Block) returns (tr: Trip, r: Sys)
    requires Start(s, disk) && k.dev == ROOTDEV && k in disk && !InLog(s.log, k)
    ensures At(tr, s, r) && r.t.truth == disk[k := v] && r.held == map[] && r.shadows == map[]
    ensures r.log == s.log.(blocks := [k.block], ops := map[0 := 1])
  {
    StartInv(s, disk);
    tr := Trip([s], []);
    tr, r := Go(tr, s, s, Begin(0));
    tr, r := LogsOne(tr, s, r, 0, k, v);
    assert [] + [k.block] == [k.block] && r.log.ops == map[0 := 1];
  }

  /** A transaction of process 1 shadows block k; then the operation ends, which starts the commit. */
  lemma ShadowsBlock(tr: Trip, s: Sys, r: Sys, k: Key) returns (tr': Trip, r': Sys)
    requires At(tr, s, r) && r.held == map[] && r.shadows == map[] && r.log.ops == map[0 := 1] && |r.log.blocks| == 1
    requires k.dev == ROOTDEV && k in r.t.truth && !InLog(r.log, k)
    ensures At(tr', s, r') && r'.t.truth == r.t.truth && r'.held == map[] && r'.shadows == map[k := Private]
    ensures r'.log == r.log.(ops := map[], committing := true)
  {
    var b;
    tr', r', b := GoOpen(tr, s, r, 1, k);
    Referred(r', k);
    tr', r' := Go(tr', s, r', Shade(1, k));
    tr', r' := GoClose(tr', s, r', 1, k);
    tr', r' := Go(tr', s, r', End(0));
    assert r'.log.ops == map[] && r'.held == map[];
  }

  /** write_log's copy of the one entry. */
  lemma GoCopy(tr: Trip, s: Sys, r: Sys, l: Key, k: Key, v: Block) returns (tr': Trip, r': Sys)
    requires At(tr, s, r) && r.log.committing && r.log.copies == [] && r.log.installed == 0 && r.log.blocks == [k.block]
    requires l == LogKey(r.log, 0) && k.dev == ROOTDEV && k != l && l in r.held && k in r.held && r.held[l].p == r.held[k].p == 0
    requires k in r.t.truth && r.t.truth[k] == v
    ensures At(tr', s, r') && r'.t.truth == r.t.truth[l := v] && tr'.es == tr.es + [CopyOut(0, l, v)]
    ensures r' == r.(t := r'.t, held := r.held[l := Hold(0, true, false)], log := r.log.(copies := [v]))
  {
    HeldContents(r, k);
    HeldContents(r, l);
    tr', r' := Go(tr, s, r, CopyOut(0, l, v));
    assert [] + [v] == [v];
  }

  /** write_log's round for the one entry. */
  lemma CopiesBlock(tr: Trip, s: Sys, r: Sys, k: Key, v: Block) returns (tr': Trip, r': Sys)
    requires At(tr, s, r) && r.held == map[] && |r.shadows| <= 1 && r.log.committing && r.log.copies == [] && r.log.installed == 0
    requires r.log.blocks == [k.block] && k.dev == ROOTDEV && k in r.t.truth && r.t.truth[k] == v && LogKey(r.log, 0) in r.t.truth
    ensures At(tr', s, r') && r'.t.truth == r.t.truth[LogKey(r.log, 0) := v] && r'.held == map[] && r'.shadows == r.shadows
    ensures r'.log == r.log.(copies := [v])
  {
    var l := LogKey(r.log, 0);
    assert !InLog(r.log, Key(ROOTDEV, r.log.blocks[0]));
    tr', r' := GoOpenBoth(tr, s, r, l, k);
    tr', r' := GoCopy(tr', s, r', l, k, v);
    tr', r' := GoWrite(tr', s, r', 0, l);
    tr', r' := GoCloseBoth(tr', s, r', k, l);
  }

  /** write_head, with contents v for the header block. */
  lemma WritesHead(tr: Trip, s: Sys, r: Sys, v: Block, k: Key) returns (tr': Trip, r': Sys)
    requires At(tr, s, r) && r.held == map[] && |r.shadows| <= 1 && |r.log.blocks| == 1 && Key(ROOTDEV, r.log.start) in r.t.truth
    ensures At(tr', s, r') && r'.t.truth == r.t.truth[Key(ROOTDEV, r.log.start) := v] && r'.held == map[]
    ensures r'.shadows == r.shadows && r'.log == r.log && (k != Key(ROOTDEV, r.log.start) ==> Adds(tr.es, tr'.es, k))
  {
    var head, b := Key(ROOTDEV, r.log.start), 0;
    tr', r', b := GoOpen(tr, s, r, 0, head);
    var e1 := tr'.es;
    tr', r' := GoEdit(tr', s, r', 0, head, v);
    tr', r' := GoWrite(tr', s, r', 0, head);
    var e2 := tr'.es;
    tr', r' := GoClose(tr', s, r', 0, head);
    assert r'.held == map[];
    if k != head {
      AddsNothing(tr.es, k);
      AddsTwo(tr.es, tr.es, Get(head, b), Lock(0, head), k);
      AddsTwo(tr.es, e1, Edit(0, head, v), Write(0, head), k);
      AddsTwo(tr.es, e2, Unlock(0, head), Unref(head), k);
    }
  }

  lemma GoUnpin(tr: Trip, s: Sys, r: Sys, k: Key) returns (tr': Trip, r': Sys)
    requires At(tr, s, r) && r.log.committing && r.log.home && r.log.installed == 0 && r.log.blocks == [k.block] && k.dev == ROOTDEV
    requires k in r.held && r.held[k] == Hold(0, false, true)
    ensures At(tr', s, r') && r'.t.truth == r.t.truth && tr'.es == tr.es + [Unpin(0)]
    ensures r' == r.(t := r'.t, log := r.log.(installed := 1, home := false))
  {
    Referred(r, k);
    tr', r' := Go(tr, s, r, Unpin(0));
  }

  /** install_trans' copy, bwrite and bunpin of the one entry. */
  lemma GoInstall(tr: Trip, s: Sys, r: Sys, l: Key, k: Key, v: Block) returns (tr': Trip, r': Sys)
    requires At(tr, s, r) && r.log.committing && r.log.copies == [v] && r.log.installed == 0 && r.log.blocks == [k.block]
    requires l == LogKey(r.log, 0) && k.dev == ROOTDEV && k != l && l in r.held && k in r.held && r.held[l].p == r.held[k].p == 0
    ensures At(tr', s, r') && r'.t.truth == r.t.truth[k := v] && r'.shadows == r.shadows
    ensures r'.held == r.held[k := Hold(0, false, true)] && r'.log == r.log.(installed := 1, home := false)
    ensures tr'.es == tr.es + [Install(0, k, v)] + [Write(0, k)] + [Unpin(0)]
  {
    assert CopyOk(r.log, r.t.truth, 0);
    HeldContents(r, k);
    HeldContents(r, l);
    tr', r' := Go(tr, s, r, Install(0, k, v));
    tr', r' := GoWrite(tr', s, r', 0, k);
    tr', r' := GoUnpin(tr', s, r', k);
  }

  /** bread of the log block and of the home block. */
  lemma GoOpenBoth(tr: Trip, s: Sys, r: Sys, l: Key, k: Key) returns (tr': Trip, r': Sys)
    requires At(tr, s, r) && r.held == map[] && |r.shadows| <= 1 && |r.log.blocks| == 1 && l != k
    requires l.dev != 0 && k.dev != 0 && l in r.t.truth && k in r.t.truth
    ensures At(tr', s, r') && r'.t.truth == r.t.truth && Adds(tr.es, tr'.es, k)
    ensures r' == r.(t := r'.t, held := map[l := Hold(0, false, false), k := Hold(0, false, false)])
  {
    var b, c;
    tr', r', b := GoOpen(tr, s, r, 0, l);
    var e1 := tr'.es;
    tr', r', c := GoOpen(tr', s, r', 0, k);
    AddsNothing(tr.es, k);
    AddsTwo(tr.es, tr.es, Get(l, b), Lock(0, l), k);
    AddsTwo(tr.es, e1, Get(k, c), Lock(0, k), k);
  }

  /** brelse of two blocks. */
  lemma GoCloseBoth(tr: Trip, s: Sys, r: Sys, l: Key, k: Key) returns (tr': Trip, r': Sys)
    requires At(tr, s, r) && l != k && r.held.Keys == {l, k}
    requires r.held[l].p == r.held[k].p == 0 && !r.held[l].edited && !r.held[k].edited
    ensures At(tr', s, r') && r'.t.truth == r.t.truth && Adds(tr.es, tr'.es, k) && r' == r.(t := r'.t, held := map[])
  {
    tr', r' := GoClose(tr, s, r, 0, l);
    var e1 := tr'.es;
    tr', r' := GoClose(tr', s, r', 0, k);
    assert r'.held == map[];
    AddsNothing(tr.es, k);
    AddsTwo(tr.es, tr.es, Unlock(0, l), Unref(l), k);
    AddsTwo(tr.es, e1, Unlock(0, k), Unref(k), k);
  }

  /** install_trans' round for the one entry, whose contents are no longer those copied. */
  lemma InstallsBlock(tr: Trip, s: Sys, r: Sys, k: Key, v: Block) returns (tr': Trip, r': Sys)
    requires At(tr, s, r) && r.held == map[] && |r.shadows| <= 1 && r.log.committing && r.log.copies == [v] && r.log.installed == 0
    requires r.log.blocks == [k.block] && k.dev == ROOTDEV && k in r.t.truth
    ensures At(tr', s, r') && r'.t.truth == r.t.truth[k := v] && r'.held == map[] && r'.shadows == r.shadows
    ensures r'.log == r.log.(installed := 1, home := false) && Adds(tr.es, tr'.es, k)
  {
    var l := LogKey(r.log, 0);
    assert CopyOk(r.log, r.t.truth, 0) && !InLog(r.log, Key(ROOTDEV, r.log.blocks[0]));
    var tr1, r1 := GoOpenBoth(tr, s, r, l, k);
    var tr2, r2 := GoInstall(tr1, s, r1, l, k, v);
    tr', r' := GoCloseBoth(tr2, s, r2, l, k);
    AddsTwo(tr.es, tr1.es, Install(0, k, v), Write(0, k), k);
    AddsOne(tr.es, tr1.es + [Install(0, k, v)] + [Write(0, k)], Unpin(0), k);
    AddsTwice(tr.es, tr2.es, tr'.es, k);
  }

  // ---- The run ----

  lemma {:induction false} LatestKept(disk: map<Key, Block>, es: seq<Event>, k: Key, v: Block, a: nat, b: nat)
    requires a <= b <= |es| && k in Latest(disk, es, a) && Latest(disk, es, a)[k] == v
    requires forall i {:trigger es[i]} :: a <= i < b ==> Quiet(es[i], k)
    ensures k in Latest(disk, es, b) && Latest(disk, es, b)[k] == v
    decreases b
  {
    if a < b {
      LatestKept(disk, es, k, v, a, b - 1);
    }
  }

  /** The last contents stored are those swapped in. */
  lemma LatestSwap(disk: map<Key, Block>, es: seq<Event>, fs: seq<Event>, k: Key, v: Block)
    requires Adds(es + [SwapIn(k, v)], fs, k) && |fs| > |es| + 1
    ensures k in Latest(disk, fs, |fs| - 1) && Latest(disk, fs, |fs| - 1)[k] == v
  {
    var n := |es| + 1;
    assert fs[n - 1] == fs[..n][n - 1] == SwapIn(k, v);
    LatestKept(disk, fs, k, v, n, |fs| - 1);
  }

  /** sys_txcommit's swap of the one shadow. */
  lemma GoSwap(tr: Trip, s: Sys, r: Sys, k: Key, v: Block) returns (tr': Trip, r': Sys)
    requires At(tr, s, r) && r.held == map[] && r.shadows == map[k := Private] && !InLog(r.log, k)
    ensures At(tr', s, r') && r'.t.truth == r.t.truth[k := v] && tr'.es == tr.es + [SwapIn(k, v)]
    ensures r' == r.(t := r'.t, shadows := map[k := Swapped])
  {
    Referred(r, k);
    tr', r' := Go(tr, s, r, SwapIn(k, v));
    assert r'.shadows == map[k := Swapped];
  }

  /** The next process to read block k. */
  lemma GoRead(tr: Trip, s: Sys, r: Sys, k: Key) returns (tr': Trip, r': Sys, b: nat)
    requires At(tr, s, r) && r.held == map[] && |r.shadows| <= 1 && r.log.blocks == [] && k.dev != 0 && k in r.t.truth
    ensures Leads(tr'.ss, tr'.es, s, r') && tr'.es == tr.es + [Get(k, b)] + [Lock(2, k)]
    ensures Cached(r', k) && r'.t.bufs[r'.t.index[k]].data == r.t.truth[k]
  {
    tr', r', b := GoOpen(tr, s, r, 2, k);
    HeldContents(r', k);
  }

  /** The part of the run up to write_head: block k is logged with v, shadowed, and copied to the log. */
  lemma CommitHalfway(s: Sys, disk: map<Key, Block>, k: Key, v: Block, head: Block) returns (tr: Trip, r: Sys)
    requires Start(s, disk) && k.dev == ROOTDEV && k in disk && !InLog(s.log, k)
    requires LogKey(s.log, 0) in disk && Key(ROOTDEV, s.log.start) in disk
    ensures At(tr, s, r) && r.held == map[] && r.shadows == map[k := Private]
    ensures r.log == s.log.(blocks := [k.block], copies := [v], committing := true)
    ensures r.t.truth == disk[k := v][LogKey(s.log, 0) := v][Key(ROOTDEV, s.log.start) := head]
  {
    tr, r := LogsBlock(s, disk, k, v);
    tr, r := ShadowsBlock(tr, s, r, k);
    tr, r := CopiesBlock(tr, s, r, k, v);
    tr, r := WritesHead(tr, s, r, head, k);
  }

  /** The rest of the commit, once the transaction has swapped its shadow in. */
  lemma CommitEnds(tr: Trip, s: Sys, r: Sys, k: Key, v: Block, head: Block) returns (tr': Trip, r': Sys)
    requires At(tr, s, r) && r.held == map[] && |r.shadows| <= 1 && k.dev == ROOTDEV && k in r.t.truth && !InLog(r.log, k)
    requires r.log == s.log.(blocks := [k.block], copies := [v], committing := true) && r.log.installed == 0
    requires Key(ROOTDEV, r.log.start) in r.t.truth
    ensures At(tr', s, r') && r'.held == map[] && r'.shadows == r.shadows && r'.log.blocks == [] && Adds(tr.es, tr'.es, k)
    ensures k in r'.t.truth && r'.t.truth[k] == v
  {
    var tr1, r1 := InstallsBlock(tr, s, r, k, v);
    var tr2, r2 := WritesHead(tr1, s, r1, head, k);
    tr', r' := Go(tr2, s, r2, CommitDone);
    AddsTwice(tr.es, tr1.es, tr2.es, k);
    AddsOne(tr.es, tr2.es, CommitDone, k);
  }

  /**
   A transaction's change lost to a commit of the log.  An operation logs block k with contents `was`
   and ends, which starts the commit; write_log copies the block; a transaction that had shadowed it
   swaps in `now`; install_trans puts `was` back.  The next process to read k finds `was`, although
   `now` was stored last.
   */
  lemma SwapIsLost(disk: map<Key, Block>, start: nat, k: Key, was: Block, now: Block, head: Block)
    returns (ss: seq<Sys>, es: seq<Event>)
    requires k.dev == ROOTDEV && k in disk && !(start <= k.block <= start + Log.LOGBLOCKS) && was != now
    requires Key(ROOTDEV, start) in disk && Key(ROOTDEV, start + 1) in disk
    ensures |es| > 0 && |ss| == |es| + 1 && ss[0] == Booted(disk, start) && Leads(ss, es, ss[0], ss[|es|])
    ensures var last := |es| - 1;
      var s := ss[|es|];
      && es[last].Lock? && es[last].k == k && Cached(s, k) && s.t.bufs[s.t.index[k]].data == was
      && k in Latest(disk, es, last) && Latest(disk, es, last)[k] == now
  {
    var s := Booted(disk, start);
    var tr, r := CommitHalfway(s, disk, k, was, head);
    var tr1, r1 := GoSwap(tr, s, r, k, now);
    var tr2, r2 := CommitEnds(tr1, s, r1, k, was, head);
    var tr3, r3, b := GoRead(tr2, s, r2, k);
    ss, es := tr3.ss, tr3.es;
    AddsTwo(tr1.es, tr2.es, Get(k, b), Lock(2, k), k);
    LatestSwap(disk, tr.es, es, k, now);
  }
}
