/**
 What a read finds.  install_trans copies back what write_log copied earlier, and
 nothing keeps other processes from storing into a logged block in between: a
 transaction's commit swaps its shadows in without begin_op.  Here is exactly when
 an install leaves a block's contents alone, and that reads find the latest
 contents in every run in which all installs do.
 */
module CacheReads {
  import opened Bio
  import opened CacheRuns
  import Log

  // ---- Installs ----

  /** Block k is in the log, has been copied by the commit in progress, and is not installed yet. */
  predicate Underway(g: Journal, k: Key) {
    k.dev == ROOTDEV && g.installed <= |g.copies| <= |g.blocks| && k.block in g.blocks[g.installed..|g.copies|]
  }

  /** The event stores into a block between its copy to the log and its copy home. */
  predicate Disturbs(s: Sys, e: Event) {
    (e.Edit? || e.SwapIn?) && Underway(s.log, e.k)
  }

  /** A held buffer has the latest contents of its block. */
  lemma HeldContents(s: Sys, k: Key)
    requires Inv(s) && k in s.held
    ensures Cached(s, k) && k in s.t.truth && s.t.bufs[s.t.index[k]].data == s.t.truth[k]
  {
    Referred(s, k);
    assert KeyOk(s, k) && SlotOk(s.t, s.t.index[k]);
  }

  /** An install puts back what was copied, so it leaves the latest contents alone if and only if they are what was copied. */
  lemma InstallExact(s: Sys, e: Event)
    requires Inv(s) && e.Install? && Enabled(s, e)
    ensures e.k in s.t.truth && e.v == s.log.copies[s.log.installed]
    ensures Step(s, e).t.truth == s.t.truth[e.k := s.log.copies[s.log.installed]]
    ensures Step(s, e).t.truth == s.t.truth <==> s.t.truth[e.k] == s.log.copies[s.log.installed]
  {
    HeldContents(s, e.k);
    HeldContents(s, LogKey(s.log, s.log.installed));
    assert CopyOk(s.log, s.t.truth, s.log.installed);
    EditKeeps(s, e);
    if Step(s, e).t.truth == s.t.truth { assert s.t.truth[e.k := e.v][e.k] == e.v; }
  }

  /** A step of a commit in progress keeps the list and what has been copied. */
  lemma CommitStep(s: Sys, e: Event)
    requires Inv(s) && s.log.committing && Enabled(s, e) && e != CommitDone
    ensures var g, g' := s.log, Step(s, e).log;
      g'.committing && g'.blocks == g.blocks && g'.start == g.start && g.copies <= g'.copies
  {
    assert |s.log.ops| == 0;
    if e.LogWrite? || e.Record? {
      assert Logged(s, e.p, e.k).log == s.log;
    }
  }

  lemma {:induction false} CopiesKept(ss: seq<Sys>, es: seq<Event>, c: nat, i: nat)
    requires Run(ss, es) && Careful(ss, es) && Inv(ss[0]) && c <= i < |ss| && ss[c].log.committing
    requires forall j :: c <= j < i ==> es[j] != CommitDone
    ensures var g, g' := ss[c].log, ss[i].log;
      g'.committing && g'.blocks == g.blocks && g'.start == g.start && g.copies <= g'.copies
    decreases i
  {
    if c < i {
      CopiesKept(ss, es, c, i - 1);
      RunKeepsInv(ss, es, i - 1);
      assert Follows(ss, es, i - 1);
      CommitStep(ss[i - 1], es[i - 1]);
    }
  }

  /** The contents of block k after events a .. b, v before them. */
  function Since(v: Block, es: seq<Event>, k: Key, a: nat, b: nat): (r: Block)
    requires a <= b <= |es|
    decreases b
  {
    if a == b then v
    else if Stores(es[b - 1]) && es[b - 1].k == k then es[b - 1].v
    else Since(v, es, k, a, b - 1)
  }

  lemma NextAt(s: Sys, e: Event, s': Sys, k: Key)
    requires Inv(s) && Disciplined(s, e) && Next(s, e, s') && k in s.t.truth
    ensures k in s'.t.truth && s'.t.truth[k] == if Stores(e) && e.k == k then e.v else s.t.truth[k]
  {
    NextKeeps(s, e, s');
    StoredAt(s.t.truth, e, k);
  }

  lemma StoredAt(truth: map<Key, Block>, e: Event, k: Key)
    requires k in truth
    ensures k in Stored(truth, e) && Stored(truth, e)[k] == if Stores(e) && e.k == k then e.v else truth[k]
  {
  }

  lemma {:induction false} KeysKept(ss: seq<Sys>, es: seq<Event>, k: Key, a: nat, b: nat)
    requires Run(ss, es) && Careful(ss, es) && Inv(ss[0]) && a <= b < |ss| && k in ss[a].t.truth
    ensures k in ss[b].t.truth
    decreases b
  {
    if a < b {
      KeysKept(ss, es, k, a, b - 1);
      RunKeepsInv(ss, es, b - 1);
      assert Follows(ss, es, b - 1);
      NextAt(ss[b - 1], es[b - 1], ss[b], k);
    }
  }

  function ContentsAt(s: Sys, k: Key): (v: Block) {
    if k in s.t.truth then s.t.truth[k] else []
  }

  lemma ContentsNext(ss: seq<Sys>, es: seq<Event>, k: Key, a: nat, j: nat)
    requires Run(ss, es) && Careful(ss, es) && Inv(ss[0]) && a < j < |ss| && k in ss[a].t.truth
    ensures ContentsAt(ss[j], k) == if Stores(es[j - 1]) && es[j - 1].k == k then es[j - 1].v else ContentsAt(ss[j - 1], k)
  {
    RunKeepsInv(ss, es, j - 1);
    KeysKept(ss, es, k, a, j - 1);
    assert Follows(ss, es, j - 1);
    NextAt(ss[j - 1], es[j - 1], ss[j], k);
  }

  lemma {:induction false} ContentsSince(ss: seq<Sys>, es: seq<Event>, k: Key, a: nat, b: nat)
    requires Run(ss, es) && Careful(ss, es) && Inv(ss[0]) && a <= b < |ss| && k in ss[a].t.truth
    ensures ContentsAt(ss[b], k) == Since(ContentsAt(ss[a], k), es, k, a, b)
    decreases b
  {
    if a < b {
      ContentsSince(ss, es, k, a, b - 1);
      ContentsNext(ss, es, k, a, b);
    }
  }

  lemma TruthSince(ss: seq<Sys>, es: seq<Event>, k: Key, a: nat, b: nat)
    requires Run(ss, es) && Careful(ss, es) && Inv(ss[0]) && a <= b < |ss| && k in ss[a].t.truth
    ensures k in ss[b].t.truth && ContentsAt(ss[b], k) == Since(ContentsAt(ss[a], k), es, k, a, b)
  {
    KeysKept(ss, es, k, a, b);
    ContentsSince(ss, es, k, a, b);
  }

  /** What write_log copies is the entry's contents. */
  lemma CopiesContents(s: Sys, e: Event)
    requires Inv(s) && e.CopyOut? && Enabled(s, e)
    ensures var k, s' := Entry(s.log, |s.log.copies|), Step(s, e);
      && k in s.t.truth && e.v == s.t.truth[k] && k in s'.t.truth && s'.t.truth[k] == e.v
      && s'.log.copies == s.log.copies + [e.v] && s'.log.blocks == s.log.blocks && s'.log.committing
  {
    HeldContents(s, Entry(s.log, |s.log.copies|));
    HeldContents(s, e.k);
    EditKeeps(s, e);
  }

  /**
   In every run, the install of an entry that event c copied leaves the block's latest contents alone
   if and only if nothing, or nothing but the copied contents in the end, was stored into the block
   since event c.
   */
  lemma InstallSince(ss: seq<Sys>, es: seq<Event>, c: nat, i: nat)
    requires Run(ss, es) && Careful(ss, es) && Inv(ss[0]) && c < i < |es| && es[c].CopyOut? && es[i].Install?
    requires |ss[c].log.copies| == ss[i].log.installed && forall j :: c <= j < i ==> es[j] != CommitDone
    ensures es[i].v == es[c].v && es[i].k in ss[i].t.truth
    ensures ss[i + 1].t.truth == ss[i].t.truth[es[i].k := es[c].v]
    ensures ss[i + 1].t.truth == ss[i].t.truth <==> Since(es[c].v, es, es[i].k, c + 1, i) == es[c].v
  {
    RunKeepsInv(ss, es, c);
    RunKeepsInv(ss, es, i);
    assert Follows(ss, es, c) && Follows(ss, es, i);
    CopiesContents(ss[c], es[c]);
    CopiesKept(ss, es, c + 1, i);
    InstallExact(ss[i], es[i]);
    TruthSince(ss, es, es[i].k, c + 1, i);
  }

  // ---- Reads ----

  ghost predicate FreshAt(g: Journal, truth: map<Key, Block>, j: nat)
    requires j < |g.copies| && j < |g.blocks|
  {
    Entry(g, j) in truth && truth[Entry(g, j)] == g.copies[j]
  }

  /** Nothing was stored into the blocks underway since they were copied. */
  ghost predicate Fresh(g: Journal, truth: map<Key, Block>) {
    |g.copies| <= |g.blocks| &&
    forall j: nat {:trigger FreshAt(g, truth, j)} :: g.installed <= j < |g.copies| ==> FreshAt(g, truth, j)
  }

  /** What an event is meant to store: an install is not meant to store anything new. */
  function Meant(latest: map<Key, Block>, e: Event): (r: map<Key, Block>) {
    match e
    case Edit(_, k, v) => latest[k := v]
    case SwapIn(k, v) => latest[k := v]
    case CopyOut(_, k, v) => latest[k := v]
    case _ => latest
  }

  lemma FreshEdit(g: Journal, truth: map<Key, Block>, k: Key, v: Block)
    requires Fresh(g, truth) && !Underway(g, k)
    ensures Fresh(g, truth[k := v])
  {
    var truth' := truth[k := v];
    forall j: nat | g.installed <= j < |g.copies| ensures FreshAt(g, truth', j) {
      assert FreshAt(g, truth, j);
      assert g.blocks[g.installed..|g.copies|][j - g.installed] == g.blocks[j];
    }
  }

  lemma FreshHome(g: Journal, truth: map<Key, Block>)
    requires Fresh(g, truth)
    ensures Fresh(g.(home := true), truth)
  {
    var g' := g.(home := true);
    forall j: nat | g'.installed <= j < |g'.copies| ensures FreshAt(g', truth, j) {
      assert FreshAt(g, truth, j);
    }
  }

  lemma FreshCopy(s: Sys, e: Event)
    requires Inv(s) && e.CopyOut? && Enabled(s, e) && Fresh(s.log, s.t.truth)
    ensures Fresh(Step(s, e).log, Step(s, e).t.truth)
  {
    var s' := Step(s, e);
    EditKeeps(s, e);
    CopiesContents(s, e);
    forall j: nat | s'.log.installed <= j < |s'.log.copies| ensures FreshAt(s'.log, s'.t.truth, j) {
      if j < |s.log.copies| { assert FreshAt(s.log, s.t.truth, j); }
      assert !InLog(s.log, Key(ROOTDEV, s.log.blocks[j]));
    }
  }

  lemma FreshLog(s: Sys, e: Event)
    requires Inv(s) && Enabled(s, e) && Disciplined(s, e) && !Stores(e) && Fresh(s.log, s.t.truth)
    ensures Fresh(Step(s, e).log, s.t.truth)
  {
    if e.LogWrite? || e.Record? {
      assert |s.log.ops| >= 1 ==> s.log.ops != map[];
    } else if e.Begin? || e.End? || e.CommitDone? || e.Unpin? {
      var g' := Step(s, e).log;
      forall j: nat | g'.installed <= j < |g'.copies| ensures FreshAt(g', s.t.truth, j) {
        assert FreshAt(s.log, s.t.truth, j);
      }
    } else {
      QuietKeeps(s, e);
    }
  }

  /** As long as nobody stores into a block underway, installs leave the latest contents alone. */
  lemma FreshStep(s: Sys, e: Event)
    requires Inv(s) && Enabled(s, e) && Disciplined(s, e) && Fresh(s.log, s.t.truth) && !Disturbs(s, e)
    ensures Fresh(Step(s, e).log, Step(s, e).t.truth) && Step(s, e).t.truth == Meant(s.t.truth, e)
  {
    StepKeeps(s, e);
    if e.CopyOut? {
      FreshCopy(s, e);
    } else if e.Install? {
      assert FreshAt(s.log, s.t.truth, s.log.installed);
      InstallExact(s, e);
      FreshHome(s.log, s.t.truth);
    } else if e.Edit? || e.SwapIn? {
      FreshEdit(s.log, s.t.truth, e.k, e.v);
    } else {
      FreshLog(s, e);
    }
  }

  /** The contents of every block after the first i events: what processes stored last, the log's copies into its own blocks included. */
  function Latest(disk: map<Key, Block>, es: seq<Event>, i: nat): (r: map<Key, Block>)
    requires i <= |es|
  {
    if i == 0 then disk else Meant(Latest(disk, es, i - 1), es[i - 1])
  }

  /** Nobody stores into a block between its copy to the log and its copy home. */
  ghost predicate Undisturbed(ss: seq<Sys>, es: seq<Event>)
    requires |ss| == |es| + 1
  {
    forall i {:trigger es[i]} :: 0 <= i < |es| ==> !Disturbs(ss[i], es[i])
  }

  lemma FreshNext(s: Sys, e: Event, s': Sys)
    requires Inv(s) && Disciplined(s, e) && Next(s, e, s') && !Disturbs(s, e) && Fresh(s.log, s.t.truth)
    ensures Fresh(s'.log, s'.t.truth) && s'.t.truth == Meant(s.t.truth, e)
  {
    FreshStep(s, e);
  }

  lemma {:induction false} FreshInRun(disk: map<Key, Block>, ss: seq<Sys>, es: seq<Event>, i: nat)
    requires Run(ss, es) && Careful(ss, es) && Undisturbed(ss, es) && Start(ss[0], disk) && i < |ss|
    ensures Inv(ss[i]) && Fresh(ss[i].log, ss[i].t.truth)
  {
    if i == 0 {
      StartInv(ss[0], disk);
    } else {
      FreshInRun(disk, ss, es, i - 1);
      FreshFollows(ss, es, i - 1);
    }
  }

  lemma FreshFollows(ss: seq<Sys>, es: seq<Event>, i: nat)
    requires Run(ss, es) && Careful(ss, es) && Undisturbed(ss, es) && i < |es| && Inv(ss[i]) && Fresh(ss[i].log, ss[i].t.truth)
    ensures Inv(ss[i + 1]) && Fresh(ss[i + 1].log, ss[i + 1].t.truth) && ss[i + 1].t.truth == Meant(ss[i].t.truth, es[i])
  {
    assert Follows(ss, es, i);
    FreshNext(ss[i], es[i], ss[i + 1]);
    NextKeeps(ss[i], es[i], ss[i + 1]);
  }

  lemma {:induction false} LatestFold(truths: seq<map<Key, Block>>, es: seq<Event>, i: nat)
    requires i <= |es| && |truths| == |es| + 1
    requires forall j {:trigger truths[j]} :: 0 < j <= i ==> truths[j] == Meant(truths[j - 1], es[j - 1])
    ensures truths[i] == Latest(truths[0], es, i)
  {
    if i > 0 {
      LatestFold(truths, es, i - 1);
    }
  }

  lemma TruthIsLatest(disk: map<Key, Block>, ss: seq<Sys>, es: seq<Event>, i: nat)
    requires Run(ss, es) && Careful(ss, es) && Undisturbed(ss, es) && Start(ss[0], disk) && i < |ss|
    ensures Inv(ss[i]) && ss[i].t.truth == Latest(disk, es, i)
  {
    var truths := seq(|ss|, j requires 0 <= j < |ss| => ss[j].t.truth);
    forall j | 0 < j <= i ensures truths[j] == Meant(truths[j - 1], es[j - 1]) {
      FreshInRun(disk, ss, es, j - 1);
      FreshFollows(ss, es, j - 1);
    }
    FreshInRun(disk, ss, es, i);
    LatestFold(truths, es, i);
  }

  /**
   Cache agrees with disk: in every run in which nobody stores into a block between its copy to the log
   and its copy home, however many evictions and commits it has, a process that reads a block finds
   what was stored in it last, or what the disk held at the start.
   */
  lemma ReadsLatest(disk: map<Key, Block>, ss: seq<Sys>, es: seq<Event>, i: nat)
    requires Run(ss, es) && Careful(ss, es) && Undisturbed(ss, es) && Start(ss[0], disk) && i < |es| && es[i].Lock?
    ensures var s, k := ss[i + 1], es[i].k;
      && Cached(s, k) && s.t.bufs[s.t.index[k]].valid
      && k in Latest(disk, es, i) && s.t.bufs[s.t.index[k]].data == Latest(disk, es, i)[k]
  {
    TruthIsLatest(disk, ss, es, i);
    assert Follows(ss, es, i);
    LockKeeps(ss[i], es[i]);
  }

  /** Operations cannot disturb a commit: none is open while it lasts.  What can is a store outside of them. */
  lemma OperationsDoNotDisturb(disk: map<Key, Block>, ss: seq<Sys>, es: seq<Event>, i: nat)
    requires Run(ss, es) && Careful(ss, es) && Start(ss[0], disk) && i < |es| && Disturbs(ss[i], es[i])
    ensures ss[i].log.committing && ss[i].log.ops == map[]
  {
    StartInv(ss[0], disk);
    RunKeepsInv(ss, es, i);
  }
}
