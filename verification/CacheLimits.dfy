/**
 Where the buffer cache's promises end: a change that is neither logged nor
 written before its buffer is released is lost, and a log that pins every buffer
 cannot be committed.
 */
module CacheLimits {
  import opened Bio
  import opened CacheRuns
  import opened CacheTrips
  import Log
  import LogRuns

  // ---- A release without log_write ----

  /** The table after block k's only reference is dropped, its buffer b goes to block other, and k is read again into c. */
  lemma Evicted(t: Table, b: nat, k: Key, other: Key, c: nat)
    requires Safe(t) && k in t.index && t.index[k] == b && t.refs[k] == 1 && k in t.truth && t.truth[k] != t.disk[k]
    requires other != k && other.dev != 0 && other in t.truth && other !in t.index
    requires c < NBUF && c != b && t.bufs[c].refcnt == 0
    ensures b < NBUF && t.bufs[b].refcnt == 1 && KeyOf(t.bufs[b]) == k
    ensures var t1 := Dropped(t, b); !NoBuffer(t1, other) && t1.bufs[b].refcnt == 0 && other !in t1.index
    ensures var t2 := Recycled(Dropped(t, b), b, other); !NoBuffer(t2, k) && t2.bufs[c].refcnt == 0 && k !in t2.index
  {
    assert PlaceOk(t, k) && SlotOk(t, b) && SlotOk(t, c);
    var t1 := Dropped(t, b);
    DroppedSafe(t, b);
    AllInUse(t1);
    RecycledSound(t1, b, other);
    var t2 := Recycled(t1, b, other);
    AllInUse(t2);
    assert t2.bufs[c].refcnt == 0;
  }

  /** The state once process p has released block k for good. */
  function Released(s: Sys, k: Key): (r: Sys)
    requires Cached(s, k) && s.t.bufs[s.t.index[k]].refcnt > 0
  {
    s.(t := Dropped(s.t, s.t.index[k]), held := s.held - {k})
  }

  lemma Releases(s: Sys, p: nat, k: Key)
    requires !s.panicked && Holds(s, p, k) && s.t.bufs[s.t.index[k]].refcnt > 0
    ensures Run([s, s.(held := s.held - {k}, leaving := s.leaving + multiset{k}), Released(s, k)], [Unlock(p, k), Unref(k)])
  {
    var mid := s.(held := s.held - {k}, leaving := s.leaving + multiset{k});
    assert mid.leaving - multiset{k} == s.leaving;
    TwoStepRun(s, Unlock(p, k), mid, Unref(k), Released(s, k));
  }

  lemma GetsUnused(s: Sys, k: Key, b: nat)
    requires !s.panicked && k.dev != 0 && k in s.t.truth && k !in s.t.index && b < |s.t.bufs| && s.t.bufs[b].refcnt == 0
    requires !NoBuffer(s.t, k)
    ensures Next(s, Get(k, b), s.(t := Recycled(s.t, b, k), waiting := s.waiting + multiset{k}))
  {
  }

  lemma LocksUnread(s: Sys, p: nat, k: Key, b: nat)
    requires !s.panicked && k in s.waiting && k !in s.held && Cached(s, k) && s.t.index[k] == b && !s.t.bufs[b].valid
    ensures var r := s.(t := Loaded(s.t, b), waiting := s.waiting - multiset{k}, held := s.held[k := Hold(p, false, false)]);
      Next(s, Lock(p, k), r) && Holds(r, p, k) && r.t.bufs[b].data == s.t.disk[k]
  {
  }

  /** Block k is evicted for another and read again. */
  lemma Rereads(s: Sys, p: nat, k: Key, b: nat, other: Key, c: nat) returns (ss: seq<Sys>, es: seq<Event>)
    requires !s.panicked && k !in s.held && b < |s.t.bufs| && c < |s.t.bufs| && b != c
    requires other != k && other.dev != 0 && other in s.t.truth && other !in s.t.index && s.t.bufs[b].refcnt == 0
    requires KeyOf(s.t.bufs[b]) == k && !NoBuffer(s.t, other)
    requires var t := Recycled(s.t, b, other); !NoBuffer(t, k) && t.bufs[c].refcnt == 0 && k !in t.index
    requires k.dev != 0 && k in s.t.truth && k in s.t.disk
    ensures Run(ss, es) && ss[0] == s && |es| == 3 && es[2] == Lock(p, k)
    ensures Holds(ss[3], p, k) && ss[3].t.truth == s.t.truth && ss[3].t.bufs[ss[3].t.index[k]].data == s.t.disk[k]
  {
    var s1 := s.(t := Recycled(s.t, b, other), waiting := s.waiting + multiset{other});
    var s2 := s1.(t := Recycled(s1.t, c, k), waiting := s1.waiting + multiset{k});
    var s3 := s2.(t := Loaded(s2.t, c), waiting := s2.waiting - multiset{k}, held := s.held[k := Hold(p, false, false)]);
    GetsUnused(s, other, b);
    GetsUnused(s1, k, c);
    LocksUnread(s2, p, k, c);
    ss, es := [s, s1, s2, s3], [Get(other, b), Get(k, c), Lock(p, k)];
    assert Follows(ss, es, 0) && Follows(ss, es, 1) && Follows(ss, es, 2);
  }

  /**
   A holder that releases an unsettled buffer can lose its change: once the buffer is recycled, the
   next reader finds the old contents.  ialloc does this inside a transaction, where log_write does
   nothing.
   */
  lemma UnsettledReleaseLoses(s: Sys, p: nat, k: Key, other: Key, c: nat) returns (ss: seq<Sys>, es: seq<Event>)
    requires Inv(s) && !s.panicked && Holds(s, p, k) && !Settled(s, k) && Refs(s, k) == 1
    requires other != k && other.dev != 0 && other in s.t.truth && other !in s.t.index
    requires c < NBUF && c != s.t.index[k] && s.t.bufs[c].refcnt == 0
    ensures Run(ss, es) && ss[0] == s && |es| == 5 && es[..2] == [Unlock(p, k), Unref(k)] && es[4] == Lock(p, k)
    ensures Holds(ss[5], p, k) && k in s.t.truth && ss[5].t.truth == s.t.truth
    ensures ss[5].t.bufs[ss[5].t.index[k]].data != s.t.truth[k]
  {
    Referred(s, k);
    assert KeyOk(s, k);
    Evicted(s.t, s.t.index[k], k, other, c);
    Releases(s, p, k);
    var ts, fs := Rereads(Released(s, k), p, k, s.t.index[k], other, c);
    ss := [s, s.(held := s.held - {k}, leaving := s.leaving + multiset{k}), Released(s, k)];
    RunsConcat(ss, [Unlock(p, k), Unref(k)], ts, fs);
    ss, es := ss + ts[1..], [Unlock(p, k), Unref(k)] + fs;
  }

  /** The first block read after boot is in the first buffer, and nothing else is cached. */
  lemma FirstRead(disk: map<Key, Block>, start: nat, p: nat, k: Key) returns (tr: Trip, r: Sys)
    requires k.dev != 0 && k in disk
    ensures At(tr, Booted(disk, start), r) && tr.es == [Get(k, 0), Lock(p, k)] && Holds(r, p, k)
    ensures r.t.index == map[k := 0] && r.t.disk == disk && r.t.truth == disk && |r.t.bufs| == NBUF && r.t.bufs[1].refcnt == 0
    ensures r.held == map[k := Hold(p, false, false)] && r.shadows == map[] && r.log.blocks == [] && r.log.start == start
  {
    var s := Booted(disk, start);
    AllInUse(s.t);
    tr, r := Go(Trip([s], []), s, s, Get(k, 0));
    assert r.t == Recycled(s.t, 0, k) && r.t.index == map[k := 0];
    tr, r := Go(tr, s, r, Lock(p, k));
  }

  lemma FirstChange(disk: map<Key, Block>, start: nat, p: nat, k: Key, v: Block) returns (tr: Trip, r: Sys)
    requires k.dev != 0 && k in disk && !IsCopy(Booted(disk, start).log, k)
    ensures At(tr, Booted(disk, start), r) && tr.es == [Get(k, 0), Lock(p, k), Edit(p, k, v)] && Holds(r, p, k)
    ensures r.t.index == map[k := 0] && r.t.disk == disk && r.t.truth == disk[k := v] && |r.t.bufs| == NBUF && r.t.bufs[1].refcnt == 0
    ensures r.held == map[k := Hold(p, true, false)] && r.shadows == map[] && r.log.blocks == []
  {
    tr, r := FirstRead(disk, start, p, k);
    tr, r := Go(tr, Booted(disk, start), r, Edit(p, k, v));
  }

  /**
   The same from a machine that has just come up: a process changes block k and releases it without
   log_write or bwrite; another block takes its buffer; whoever reads k then finds the old contents.
   */
  lemma UnloggedChangeLost(disk: map<Key, Block>, start: nat, p: nat, k: Key, v: Block, other: Key) returns (ss: seq<Sys>, es: seq<Event>)
    requires k.dev != 0 && k in disk && !IsCopy(Booted(disk, start).log, k) && v != disk[k]
    requires other != k && other.dev != 0 && other in disk
    ensures Run(ss, es) && ss[0] == Booted(disk, start) && |es| == 8
    ensures es[..5] == [Get(k, 0), Lock(p, k), Edit(p, k, v), Unlock(p, k), Unref(k)] && es[7] == Lock(p, k)
    ensures Holds(ss[8], p, k) && ss[8].t.bufs[ss[8].t.index[k]].data != v
  {
    var tr, r := FirstChange(disk, start, p, k, v);
    var ts, fs := UnsettledReleaseLoses(r, p, k, other, 1);
    RunsConcat(tr.ss, tr.es, ts, fs);
    ss, es := tr.ss + ts[1..], tr.es + fs;
    assert es[..5] == tr.es + fs[..2];
  }

  // ---- A log that pins every buffer ----

  /** With nothing else held, the blocks in use are those of the entries not yet installed. */
  lemma OnlyPins(s: Sys)
    requires Inv(s) && Idle(s)
    ensures |InUse(s.t.refs)| == |s.log.blocks| - s.log.installed
  {
    var rest := s.log.blocks[s.log.installed..];
    forall k ensures k in s.t.refs <==> k in KeysOf(rest) {
      assert KeyOk(s, k);
    }
    assert InUse(s.t.refs) == KeysOf(rest);
    KeysOfSize(rest);
  }

  /**
   With nothing else held, a commit of n entries finds a buffer for the log block it reads first if
   and only if n < NBUF.
   */
  lemma CommitFindsBuffer(s: Sys, k: Key)
    requires Inv(s) && Idle(s) && s.log.installed == 0 && !Pinned(s.log, k)
    ensures !NoBuffer(s.t, k) <==> |s.log.blocks| < NBUF
  {
    OnlyPins(s);
    assert KeyOk(s, k);
  }

  // ---- A run that fills the log ----

  /** Three operations that have logged the first m of the blocks from h on, ten each. */
  ghost predicate Filled(s: Sys, h: nat, m: nat) {
    && Idle(s) && !s.log.committing && s.log.blocks == seq(m, i => h + i) && s.log.installed == 0
    && (s.log.start + Log.LOGBLOCKS < h || h + Log.LOGBLOCKS <= s.log.start)
    && s.log.ops == map[0 := LogRuns.Used(m, 0), 1 := LogRuns.Used(m, 1), 2 := LogRuns.Used(m, 2)]
  }

  lemma {:induction false} FillsLog(tr: Trip, s: Sys, r: Sys, h: nat, m: nat) returns (tr': Trip, r': Sys)
    requires At(tr, s, r) && Filled(r, h, 0) && m <= Log.LOGBLOCKS
    requires forall b: nat {:trigger Key(ROOTDEV, b)} :: h <= b < h + m ==> Key(ROOTDEV, b) in r.t.truth
    ensures At(tr', s, r') && Filled(r', h, m) && r'.t.truth.Keys == r.t.truth.Keys && r'.log.start == r.log.start
    decreases m
  {
    if m == 0 {
      tr', r' := tr, r;
    } else {
      var n := m - 1;
      tr', r' := FillsLog(tr, s, r, h, n);
      FillsOne(r', h, n);
      tr', r' := LogsOne(tr', s, r', n / Log.MAXOPBLOCKS, Key(ROOTDEV, h + n), []);
    }
  }

  lemma FillsOne(s: Sys, h: nat, n: nat)
    requires Filled(s, h, n) && n < Log.LOGBLOCKS
    ensures var p := n / Log.MAXOPBLOCKS;
      && p in s.log.ops && s.log.ops[p] < Log.MAXOPBLOCKS && h + n !in s.log.blocks
      && s.log.blocks + [h + n] == seq(n + 1, i => h + i)
      && s.log.ops[p := s.log.ops[p] + 1] ==
         map[0 := LogRuns.Used(n + 1, 0), 1 := LogRuns.Used(n + 1, 1), 2 := LogRuns.Used(n + 1, 2)]
  {
    var p := n / Log.MAXOPBLOCKS;
    assert p == 0 || p == 1 || p == 2;
  }

  /** Three begin_ops. */
  lemma Begins(disk: map<Key, Block>, start: nat, h: nat) returns (tr: Trip, r: Sys)
    requires start + Log.LOGBLOCKS < h || h + Log.LOGBLOCKS <= start
    ensures At(tr, Booted(disk, start), r) && Filled(r, h, 0) && r.t.truth == disk && r.log.start == start
  {
    var s := Booted(disk, start);
    tr, r := Go(Trip([s], []), s, s, Begin(0));
    assert r.log.ops == map[0 := 0] && r.log.ops.Keys == {0};
    tr, r := Go(tr, s, r, Begin(1));
    assert r.log.ops == map[0 := 0, 1 := 0] && r.log.ops.Keys == {0, 1};
    tr, r := Go(tr, s, r, Begin(2));
    assert r.log.ops == map[0 := 0, 1 := 0, 2 := 0];
    assert r.log.blocks == seq(0, i => h + i);
  }

  /** The three end_ops; the last one starts the commit. */
  lemma Ends(tr: Trip, s: Sys, r: Sys, h: nat) returns (tr': Trip, r': Sys)
    requires At(tr, s, r) && Filled(r, h, Log.LOGBLOCKS)
    ensures At(tr', s, r') && r'.t.truth == r.t.truth && r' == r.(log := r.log.(ops := map[], committing := true))
  {
    tr', r' := Go(tr, s, r, End(0));
    assert r'.log.ops.Keys == {1, 2};
    tr', r' := Go(tr', s, r', End(1));
    assert r'.log.ops.Keys == {2};
    tr', r' := Go(tr', s, r', End(2));
    assert r'.log.ops == map[];
  }

  /**
   Three operations that each log as many blocks as they have reserved, and nothing more, fill the
   log; the log then pins every buffer, and the commit's first bread, of its first log block, panics.
   */
  lemma FullLogCommitPanics(disk: map<Key, Block>, start: nat, h: nat) returns (ss: seq<Sys>, es: seq<Event>)
    requires forall b: nat {:trigger Key(ROOTDEV, b)} :: h <= b < h + Log.LOGBLOCKS ==> Key(ROOTDEV, b) in disk
    requires Key(ROOTDEV, start + 1) in disk && (start + Log.LOGBLOCKS < h || h + Log.LOGBLOCKS <= start)
    ensures |es| > 0 && |ss| == |es| + 1 && ss[0] == Booted(disk, start) && Leads(ss, es, ss[0], ss[|es|])
    ensures var s := ss[|es| - 1]; s.log.committing && Idle(s) && |s.log.blocks| == Log.LOGBLOCKS && s.log.installed == 0
    ensures es[|es| - 1] == Get(LogKey(ss[|es| - 1].log, 0), 0) && !ss[|es| - 1].panicked && ss[|es|].panicked
  {
    var s := Booted(disk, start);
    var tr, r := Begins(disk, start, h);
    tr, r := FillsLog(tr, s, r, h, Log.LOGBLOCKS);
    tr, r := Ends(tr, s, r, h);
    CommitFindsBuffer(r, LogKey(r.log, 0));
    var tr', r' := Go(tr, s, r, Get(LogKey(r.log, 0), 0));
    ss, es := tr'.ss, tr'.es;
  }
}
