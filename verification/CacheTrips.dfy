/** Building runs of the buffer cache step by step: what a process does with a block, from bread to brelse. */
module CacheTrips {
  import opened Bio
  import opened CacheRuns
  import Counting
  import Log

  /** One run after another. */
  lemma RunsConcat(ss: seq<Sys>, es: seq<Event>, ts: seq<Sys>, fs: seq<Event>)
    requires Run(ss, es) && Run(ts, fs) && ts[0] == ss[|es|]
    ensures Run(ss + ts[1..], es + fs) && (ss + ts[1..])[|es| + |fs|] == ts[|fs|]
    ensures Careful(ss, es) && Careful(ts, fs) ==> Careful(ss + ts[1..], es + fs)
  {
    var us, gs := ss + ts[1..], es + fs;
    assert forall i :: 0 <= i < |fs| ==> us[|es| + i] == ts[i];
    forall i: nat | i < |gs| ensures Follows(us, gs, i) {
      if i < |es| {
        assert Follows(ss, es, i);
      } else {
        assert Follows(ts, fs, i - |es|);
      }
    }
  }

  /** A run of two steps. */
  lemma TwoStepRun(s: Sys, e: Event, m: Sys, f: Event, r: Sys)
    requires Next(s, e, m) && Next(m, f, r)
    ensures Run([s, m, r], [e, f])
  {
    var ss, es := [s, m, r], [e, f];
    assert Follows(ss, es, 0) && Follows(ss, es, 1);
  }

  /** log_write is called by an operation that has added fewer entries than it has reserved. */
  predicate Thrifty(s: Sys, e: Event) {
    e.LogWrite? ==> e.p in s.log.ops && s.log.ops[e.p] < Log.MAXOPBLOCKS
  }

  /** A careful run from s to r in which every operation stays within its reservation. */
  ghost predicate Leads(ss: seq<Sys>, es: seq<Event>, s: Sys, r: Sys) {
    && Run(ss, es) && Careful(ss, es) && ss[0] == s && ss[|es|] == r
    && forall i {:trigger es[i]} :: 0 <= i < |es| ==> Thrifty(ss[i], es[i])
  }

  lemma LeadsOn(ss: seq<Sys>, es: seq<Event>, ts: seq<Sys>, fs: seq<Event>, s: Sys, m: Sys, r: Sys)
    requires Leads(ss, es, s, m) && Leads(ts, fs, m, r)
    ensures Leads(ss + ts[1..], es + fs, s, r)
  {
    RunsConcat(ss, es, ts, fs);
    var us, gs := ss + ts[1..], es + fs;
    assert forall i :: 0 <= i < |fs| ==> us[|es| + i] == ts[i];
    forall i | 0 <= i < |gs| ensures Thrifty(us[i], gs[i]) {
      if i >= |es| { assert Thrifty(ts[i - |es|], fs[i - |es|]); } else { assert Thrifty(ss[i], es[i]); }
    }
  }

  lemma OneStep(s: Sys, e: Event)
    requires Inv(s) && Enabled(s, e) && Disciplined(s, e) && Thrifty(s, e)
    ensures Leads([s, Step(s, e)], [e], s, Step(s, e)) && Inv(Step(s, e))
    ensures Step(s, e).t.truth == Stored(s.t.truth, e)
  {
    NextKeeps(s, e, Step(s, e));
    assert Follows([s, Step(s, e)], [e], 0);
  }

  // ---- Where runs start ----

  /** Only the log refers to blocks. */
  predicate Idle(s: Sys) {
    s.waiting == multiset{} && s.leaving == multiset{} && s.held == map[] && s.shadows == map[]
  }

  /** A machine that has just come up, its log's header at block `start`. */
  ghost function Booted(disk: map<Key, Block>, start: nat): (s: Sys)
    ensures Start(s, disk) && s.log.start == start && Idle(s) && Inv(s) && s.t.truth == disk
  {
    var s := Sys(Table(seq(NBUF, _ => Buf(0, 0, false, 0, [])), disk, map[], disk, multiset{}),
                 multiset{}, map[], multiset{}, map[], Journal(start, [], [], false, 0, map[], false), false);
    StartInv(s, disk);
    s
  }

  // ---- Steps that extend a run ----

  datatype Trip = Trip(ss: seq<Sys>, es: seq<Event>)

  /** The trip leads from s to r, within all rules. */
  ghost predicate At(tr: Trip, s: Sys, r: Sys) {
    Leads(tr.ss, tr.es, s, r) && Inv(r) && !r.panicked && r.waiting == multiset{} && r.leaving == multiset{}
  }

  lemma Go(tr: Trip, s: Sys, r: Sys, e: Event) returns (tr': Trip, r': Sys)
    requires Leads(tr.ss, tr.es, s, r) && Inv(r) && Enabled(r, e) && Disciplined(r, e) && Thrifty(r, e)
    ensures r' == Step(r, e) && tr' == Trip(tr.ss + [r'], tr.es + [e]) && Leads(tr'.ss, tr'.es, s, r') && Inv(r')
    ensures r'.t.truth == Stored(r.t.truth, e)
  {
    r' := Step(r, e);
    OneStep(r, e);
    LeadsOn(tr.ss, tr.es, [r, r'], [e], s, r, r');
    assert [r, r'][1..] == [r'];
    tr' := Trip(tr.ss + [r'], tr.es + [e]);
  }

  function KeysOf(blocks: seq<nat>): (keys: set<Key>) {
    set b | b in blocks :: Key(ROOTDEV, b)
  }

  lemma {:induction false} KeysOfSize(blocks: seq<nat>)
    requires Counting.Distinct(blocks)
    ensures |KeysOf(blocks)| == |blocks|
  {
    if blocks != [] {
      var n := |blocks| - 1;
      KeysOfSize(blocks[..n]);
      assert blocks == blocks[..n] + [blocks[n]];
      assert KeysOf(blocks) == KeysOf(blocks[..n]) + {Key(ROOTDEV, blocks[n])};
    }
  }

  lemma UsedBy(r: Sys, k: Key)
    requires Inv(r) && r.waiting == multiset{} && r.leaving == multiset{}
    ensures k in r.t.refs <==> k in r.held || k in r.shadows || k in KeysOf(r.log.blocks[r.log.installed..])
  {
    assert KeyOk(r, k);
  }

  lemma PinsSize(g: Journal)
    requires Counting.Distinct(g.blocks) && g.installed <= |g.blocks|
    ensures |KeysOf(g.blocks[g.installed..])| == |g.blocks| - g.installed
  {
    KeysOfSize(g.blocks[g.installed..]);
  }

  /** The blocks in use are those held, shadowed or pinned. */
  lemma FewInUse(r: Sys)
    requires Inv(r) && r.waiting == multiset{} && r.leaving == multiset{}
    ensures |InUse(r.t.refs)| <= |r.held| + |r.shadows| + |r.log.blocks| - r.log.installed
  {
    var held, shadows, pins := r.held.Keys, r.shadows.Keys, KeysOf(r.log.blocks[r.log.installed..]);
    PinsSize(r.log);
    forall k ensures k in InUse(r.t.refs) <==> k in held + shadows + pins {
      UsedBy(r, k);
    }
    assert InUse(r.t.refs) == held + shadows + pins;
    Counting.UnionSize(held, shadows, pins);
  }

  lemma FindsBuffer(r: Sys, k: Key) returns (b: nat)
    requires Inv(r) && r.waiting == multiset{} && r.leaving == multiset{} && k.dev != 0
    requires |r.held| + |r.shadows| + |r.log.blocks| < NBUF
    ensures !NoBuffer(r.t, k) && b < NBUF && if k in r.t.index then b == r.t.index[k] else r.t.bufs[b].refcnt == 0
  {
    FewInUse(r);
    AllInUse(r.t);
    if k in r.t.index {
      b := r.t.index[k];
      assert PlaceOk(r.t, k);
    } else {
      b :| b < NBUF && r.t.bufs[b].refcnt == 0;
    }
  }

  lemma GoGet(tr: Trip, s: Sys, r: Sys, k: Key, b: nat) returns (tr': Trip, r': Sys)
    requires At(tr, s, r) && k.dev != 0 && k in r.t.truth && !NoBuffer(r.t, k) && b < NBUF
    requires if k in r.t.index then b == r.t.index[k] else r.t.bufs[b].refcnt == 0
    ensures Leads(tr'.ss, tr'.es, s, r') && Inv(r') && r'.t.truth == r.t.truth && tr'.es == tr.es + [Get(k, b)]
    ensures r' == r.(t := r'.t, waiting := multiset{k})
  {
    tr', r' := Go(tr, s, r, Get(k, b));
    assert multiset{} + multiset{k} == multiset{k};
  }

  /** bread of a block that nobody holds. */
  lemma GoOpen(tr: Trip, s: Sys, r: Sys, p: nat, k: Key) returns (tr': Trip, r': Sys, b: nat)
    requires At(tr, s, r) && k !in r.held && k.dev != 0 && k in r.t.truth
    requires |r.held| + |r.shadows| + |r.log.blocks| < NBUF
    ensures At(tr', s, r') && r'.t.truth == r.t.truth && tr'.es == tr.es + [Get(k, b)] + [Lock(p, k)]
    ensures r' == r.(t := r'.t, held := r.held[k := Hold(p, false, false)])
  {
    b := FindsBuffer(r, k);
    var tr1, r1 := GoGet(tr, s, r, k, b);
    Referred(r1, k);
    tr', r' := Go(tr1, s, r1, Lock(p, k));
    assert r'.waiting == multiset{};
  }

  /** brelse of a block whose contents are settled. */
  lemma GoClose(tr: Trip, s: Sys, r: Sys, p: nat, k: Key) returns (tr': Trip, r': Sys)
    requires At(tr, s, r) && k in r.held && r.held[k].p == p && !r.held[k].edited
    ensures At(tr', s, r') && r'.t.truth == r.t.truth && tr'.es == tr.es + [Unlock(p, k)] + [Unref(k)]
    ensures r' == r.(t := r'.t, held := r.held - {k})
  {
    Referred(r, k);
    var tr1, r1 := Go(tr, s, r, Unlock(p, k));
    Referred(r1, k);
    tr', r' := Go(tr1, s, r1, Unref(k));
    assert r'.leaving == multiset{};
  }

  /** bwrite. */
  lemma GoWrite(tr: Trip, s: Sys, r: Sys, p: nat, k: Key) returns (tr': Trip, r': Sys)
    requires At(tr, s, r) && k in r.held && r.held[k].p == p
    ensures At(tr', s, r') && r'.t.truth == r.t.truth && tr'.es == tr.es + [Write(p, k)]
    ensures r' == r.(t := r'.t, held := r.held[k := Hold(p, false, true)])
  {
    Referred(r, k);
    tr', r' := Go(tr, s, r, Write(p, k));
  }

  /** A change of a held block. */
  lemma GoEdit(tr: Trip, s: Sys, r: Sys, p: nat, k: Key, v: Block) returns (tr': Trip, r': Sys)
    requires At(tr, s, r) && k in r.held && r.held[k].p == p && !IsCopy(r.log, k)
    ensures At(tr', s, r') && r'.t.truth == r.t.truth[k := v] && tr'.es == tr.es + [Edit(p, k, v)]
    ensures r' == r.(t := r'.t, held := r.held[k := Hold(p, true, false)])
  {
    Referred(r, k);
    tr', r' := Go(tr, s, r, Edit(p, k, v));
  }

  /** log_write of a held block that is not in the list, with room in the log. */
  lemma GoLog(tr: Trip, s: Sys, r: Sys, p: nat, k: Key) returns (tr': Trip, r': Sys)
    requires At(tr, s, r) && k in r.held && r.held[k].p == p && k.dev == ROOTDEV && !InLog(r.log, k)
    requires |r.log.blocks| < Log.LOGBLOCKS && k.block !in r.log.blocks && p in r.log.ops && r.log.ops[p] < Log.MAXOPBLOCKS
    ensures At(tr', s, r') && r'.t.truth == r.t.truth && tr'.es == tr.es + [LogWrite(p, k)]
    ensures r' == r.(t := r'.t, held := r.held[k := Hold(p, false, false)], log := Listed(r.log, p, k.block))
  {
    Referred(r, k);
    assert r.log.ops != map[];
    tr', r' := Go(tr, s, r, LogWrite(p, k));
  }

  /** bread, a change, log_write and brelse of a block. */
  lemma LogsOne(tr: Trip, s: Sys, r: Sys, p: nat, k: Key, v: Block) returns (tr': Trip, r': Sys)
    requires At(tr, s, r) && k !in r.held && k in r.t.truth && |r.held| + |r.shadows| + |r.log.blocks| < NBUF
    requires k.dev == ROOTDEV && !InLog(r.log, k)
    requires |r.log.blocks| < Log.LOGBLOCKS && k.block !in r.log.blocks && p in r.log.ops && r.log.ops[p] < Log.MAXOPBLOCKS
    ensures At(tr', s, r') && r'.t.truth == r.t.truth[k := v] && r' == r.(t := r'.t, log := Listed(r.log, p, k.block))
  {
    var b;
    tr', r', b := GoOpen(tr, s, r, p, k);
    tr', r' := GoEdit(tr', s, r', p, k, v);
    tr', r' := GoLog(tr', s, r', p, k);
    tr', r' := GoClose(tr', s, r', p, k);
    assert r'.held == r.held;
  }
}
