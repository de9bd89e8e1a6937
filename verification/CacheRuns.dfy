/**
 The buffer cache under the log and under user transactions: any number of
 processes that interleave bget, the buffer's sleeplock, changes, log_write,
 bwrite and brelse; begin_op and end_op; the copies of write_log and install_trans
 with the pins that log_write takes and install_trans drops; and the pins that
 bdata takes for a shadow and the transaction's commit or abort drops.
 */
module CacheRuns {
  import opened Bio
  import opened Counting
  import Log

  /** The holder of a buffer's sleeplock: has it changed the buffer without logging or writing it, has it just written it? */
  datatype Hold = Hold(p: nat, edited: bool, saved: bool)

  /** A transaction's shadow of a buffer: not committed, swapped in, or swapped in and logged. */
  datatype Shadow = Private | Swapped | Recorded

  datatype Journal = Journal(
    start: nat,                // the log's header block
    blocks: seq<nat>,          // the log's list
    copies: seq<Block>,        // what write_log has copied, entry by entry
    home: bool,                // install_trans has copied the next entry home
    installed: nat,            // entries that install_trans has unpinned
    ops: map<nat, nat>,        // open operations and how many entries each has added
    committing: bool)

  datatype Sys = Sys(
    t: Table,
    waiting: multiset<Key>,    // references taken by bget that do not have the sleeplock yet
    held: map<Key, Hold>,
    leaving: multiset<Key>,    // references whose brelse has let the sleeplock go
    shadows: map<Key, Shadow>,
    log: Journal,
    panicked: bool)

  datatype Event =
    | Begin(p: nat)
    | End(p: nat)
    | Get(k: Key, b: nat)      // bget up to acquiresleep
    | Lock(p: nat, k: Key)     // acquiresleep, and bread's read from disk
    | Edit(p: nat, k: Key, v: Block)
    | LogWrite(p: nat, k: Key)
    | Write(p: nat, k: Key)    // bwrite
    | Unlock(p: nat, k: Key)   // brelse up to releasesleep
    | Unref(k: Key)            // the rest of brelse
    | CopyOut(p: nat, k: Key, v: Block) // write_log's memmove of the next entry to its log block
    | Install(p: nat, k: Key, v: Block) // install_trans' memmove of the next entry home
    | Unpin(p: nat)            // install_trans: bunpin of the next entry
    | CommitDone
    | Shade(p: nat, k: Key)    // bdata's first access in a transaction
    | SwapIn(k: Key, v: Block) // txcommit: the shadow becomes the buffer's data
    | Record(p: nat, k: Key)   // buf_commit's log_write
    | Unshade(k: Key)          // bunpin in buf_commit or buf_abort

  /** Block k has an entry in the log whose pin has not been dropped. */
  predicate Pinned(g: Journal, k: Key) {
    k.dev == ROOTDEV && g.installed <= |g.blocks| && k.block in g.blocks[g.installed..]
  }

  predicate Cached(s: Sys, k: Key) {
    && k in s.t.index && s.t.index[k] < |s.t.bufs| && k in s.t.disk
    && KeyOf(s.t.bufs[s.t.index[k]]) == k
  }

  predicate Holds(s: Sys, p: nat, k: Key) {
    Cached(s, k) && k in s.held && s.held[k].p == p
  }

  /** The block of entry i, and the log block that write_log copies it to. */
  function Entry(g: Journal, i: nat): (k: Key)
    requires i < |g.blocks|
  {
    Key(ROOTDEV, g.blocks[i])
  }

  function LogKey(g: Journal, i: nat): (k: Key) {
    Key(ROOTDEV, g.start + 1 + i)
  }

  /** Block k is one that write_log copies to. */
  predicate IsCopy(g: Journal, k: Key) {
    k.dev == ROOTDEV && g.start < k.block <= g.start + Log.LOGBLOCKS
  }

  /** Block k is part of the log, the header included. */
  predicate InLog(g: Journal, k: Key) {
    k.dev == ROOTDEV && g.start <= k.block <= g.start + Log.LOGBLOCKS
  }

  // ---- Steps ----

  /** What the code's own guards, its locks and its control flow ask of each step. */
  ghost predicate Enabled(s: Sys, e: Event) {
    && !s.panicked
    && match e
       case Begin(p) =>
         p !in s.log.ops && !s.log.committing && |s.log.blocks| + (|s.log.ops| + 1) * Log.MAXOPBLOCKS <= Log.LOGBLOCKS
       case End(p) => p in s.log.ops
       case Get(k, b) =>
         && k.dev != 0 && k in s.t.truth
         && (NoBuffer(s.t, k) || (b < |s.t.bufs| && if k in s.t.index then b == s.t.index[k] else s.t.bufs[b].refcnt == 0))
       case Lock(p, k) => k in s.waiting && k !in s.held && Cached(s, k)
       case Edit(p, k, v) => Holds(s, p, k) && !IsCopy(s.log, k)
       case LogWrite(p, k) => Holds(s, p, k) && k.dev == ROOTDEV && !InLog(s.log, k)
       case Write(p, k) => Holds(s, p, k)
       case Unlock(p, k) => Holds(s, p, k)
       case Unref(k) => k in s.leaving && Cached(s, k) && s.t.bufs[s.t.index[k]].refcnt > 0
       case CopyOut(p, k, v) =>
         && s.log.committing && s.log.installed == 0 && |s.log.copies| < |s.log.blocks| && k == LogKey(s.log, |s.log.copies|) && Holds(s, p, k)
         && var from := Entry(s.log, |s.log.copies|);
         Holds(s, p, from) && v == s.t.bufs[s.t.index[from]].data
       case Install(p, k, v) =>
         && s.log.committing && |s.log.copies| == |s.log.blocks| && s.log.installed < |s.log.blocks| && k == Entry(s.log, s.log.installed) && Holds(s, p, k)
         && var from := LogKey(s.log, s.log.installed);
         Holds(s, p, from) && v == s.t.bufs[s.t.index[from]].data
       case Unpin(p) =>
         && s.log.committing && s.log.home && s.log.installed < |s.log.blocks|
         && var k := Entry(s.log, s.log.installed);
         Holds(s, p, k) && s.held[k].saved && s.t.bufs[s.t.index[k]].refcnt > 0
       case CommitDone => s.log.committing && s.log.installed == |s.log.blocks|
       case Shade(p, k) => Holds(s, p, k) && k !in s.shadows && !InLog(s.log, k)
       case SwapIn(k, v) => Cached(s, k) && k !in s.held && k in s.shadows && s.shadows[k].Private? && !InLog(s.log, k)
       case Record(p, k) => Cached(s, k) && k in s.shadows && s.shadows[k].Swapped? && k.dev == ROOTDEV && !InLog(s.log, k)
       case Unshade(k) =>
         k in s.shadows && !s.shadows[k].Swapped? && Cached(s, k) && s.t.bufs[s.t.index[k]].refcnt > 0
  }

  /** A new entry, added by operation p. */
  function Listed(g: Journal, p: nat, b: nat): (r: Journal) {
    g.(blocks := g.blocks + [b], ops := if p in g.ops then g.ops[p := g.ops[p] + 1] else g.ops)
  }

  /** log_write of a cached block: absorbed, or pinned and appended; a panic if the log is full or nobody is at work. */
  function Logged(s: Sys, p: nat, k: Key): (r: Sys)
    requires Cached(s, k)
    ensures r.t.truth == s.t.truth && r.t.disk == s.t.disk
  {
    if |s.log.blocks| >= Log.LOGBLOCKS || |s.log.ops| < 1 then s.(panicked := true)
    else if k.block in s.log.blocks then s
    else s.(t := Referenced(s.t, s.t.index[k]), log := Listed(s.log, p, k.block))
  }

  /** The event puts new contents into a buffer. */
  predicate Stores(e: Event) {
    e.Edit? || e.SwapIn? || e.CopyOut? || e.Install?
  }

  /** What an event makes of the blocks' contents. */
  function Stored(truth: map<Key, Block>, e: Event): (r: map<Key, Block>) {
    match e
    case Edit(_, k, v) => truth[k := v]
    case SwapIn(k, v) => truth[k := v]
    case CopyOut(_, k, v) => truth[k := v]
    case Install(_, k, v) => truth[k := v]
    case _ => truth
  }

  ghost function Step(s: Sys, e: Event): (r: Sys)
    requires Enabled(s, e)
  {
    match e
    case Begin(p) => s.(log := s.log.(ops := s.log.ops[p := 0]))
    case End(p) => s.(log := s.log.(ops := s.log.ops - {p}, committing := s.log.ops.Keys == {p}))
    case Get(k, b) =>
      if NoBuffer(s.t, k) then s.(panicked := true)
      else s.(t := if k in s.t.index then Referenced(s.t, b) else Recycled(s.t, b, k), waiting := s.waiting + multiset{k})
    case Lock(p, k) =>
      s.(t := Loaded(s.t, s.t.index[k]), waiting := s.waiting - multiset{k}, held := s.held[k := Hold(p, false, false)])
    case Edit(p, k, v) => s.(t := Edited(s.t, s.t.index[k], v), held := s.held[k := Hold(p, true, false)])
    case LogWrite(p, k) =>
      var r := Logged(s, p, k);
      if r.panicked then r else r.(held := s.held[k := Hold(p, false, false)])
    case Write(p, k) => s.(t := Saved(s.t, s.t.index[k]), held := s.held[k := Hold(p, false, true)])
    case Unlock(p, k) => s.(held := s.held - {k}, leaving := s.leaving + multiset{k})
    case Unref(k) => s.(t := Dropped(s.t, s.t.index[k]), leaving := s.leaving - multiset{k})
    case CopyOut(p, k, v) =>
      s.(t := Edited(s.t, s.t.index[k], v), held := s.held[k := Hold(p, true, false)], log := s.log.(copies := s.log.copies + [v]))
    case Install(p, k, v) =>
      s.(t := Edited(s.t, s.t.index[k], v), held := s.held[k := Hold(p, true, false)], log := s.log.(home := true))
    case Unpin(p) =>
      s.(t := Dropped(s.t, s.t.index[Entry(s.log, s.log.installed)]), log := s.log.(installed := s.log.installed + 1, home := false))
    case CommitDone => s.(log := s.log.(blocks := [], copies := [], home := false, installed := 0, committing := false))
    case Shade(p, k) => s.(t := Referenced(s.t, s.t.index[k]), shadows := s.shadows[k := Private])
    case SwapIn(k, v) => s.(t := Edited(s.t, s.t.index[k], v), shadows := s.shadows[k := Swapped])
    case Record(p, k) =>
      var r := Logged(s, p, k);
      if r.panicked then r else r.(shadows := s.shadows[k := Recorded])
    case Unshade(k) => s.(t := Dropped(s.t, s.t.index[k]), shadows := s.shadows - {k})
  }

  /** The rule for a buffer's holder: after a change, log_write or bwrite it before brelse. */
  predicate Disciplined(s: Sys, e: Event) {
    e.Unlock? && e.k in s.held ==> !s.held[e.k].edited
  }

  // ---- The invariant ----

  /** The references to block k that the steps have handed out and not taken back. */
  function Refs(s: Sys, k: Key): (n: nat) {
    s.waiting[k] + s.leaving[k] + (if k in s.held then 1 else 0) + (if k in s.shadows then 1 else 0)
    + (if Pinned(s.log, k) then 1 else 0)
  }

  /** Block k's latest contents are on disk, or the log has pinned them, or a swapped-in shadow has. */
  predicate Settled(s: Sys, k: Key) {
    || (k in s.t.truth && k in s.t.disk && s.t.truth[k] == s.t.disk[k])
    || Pinned(s.log, k) || (k in s.shadows && s.shadows[k].Swapped?)
  }

  /**
   The references counted are those handed out, one for each log entry among them;
   whoever uses the contents has them; and contents that are not settled are held by
   the process that changed them.
   */
  ghost predicate KeyOk(s: Sys, k: Key) {
    && s.t.refs[k] == Refs(s, k)
    && (k in s.held || k in s.shadows || Pinned(s.log, k) ==> Cached(s, k) && s.t.bufs[s.t.index[k]].valid)
    && (k in s.held && s.held[k].saved ==> k in s.t.truth && k in s.t.disk && s.t.truth[k] == s.t.disk[k])
    && (k in s.t.truth ==> Settled(s, k) || (k in s.held && s.held[k].edited))
  }

  /** The cache's part of the invariant. */
  ghost predicate Tidy(s: Sys) {
    && Sound(s.t) && Distinct(s.log.blocks) && s.log.installed <= |s.log.blocks| <= Log.LOGBLOCKS
    && (!s.log.committing ==> s.log.installed == 0) && (s.log.committing ==> s.log.ops == map[])
    && forall k {:trigger KeyOk(s, k)} :: KeyOk(s, k)
  }

  /** The log block of entry i has what was copied to it. */
  ghost predicate CopyOk(g: Journal, truth: map<Key, Block>, i: nat)
    requires i < |g.copies|
  {
    LogKey(g, i) in truth && truth[LogKey(g, i)] == g.copies[i]
  }

  /** The log's part: its list is of other blocks than its own, and its blocks have the copies of the commit in progress. */
  ghost predicate LogOk(g: Journal, truth: map<Key, Block>) {
    && |g.copies| <= |g.blocks| && (g.home || g.installed > 0 ==> |g.copies| == |g.blocks|)
    && (!g.committing ==> g.copies == [] && !g.home)
    && (forall i {:trigger g.blocks[i]} :: 0 <= i < |g.blocks| ==> !InLog(g, Key(ROOTDEV, g.blocks[i])))
    && (forall i: nat {:trigger CopyOk(g, truth, i)} :: i < |g.copies| ==> CopyOk(g, truth, i))
  }

  ghost predicate Inv(s: Sys) {
    Tidy(s) && LogOk(s.log, s.t.truth)
  }

  lemma TidySafe(s: Sys)
    requires Tidy(s)
    ensures Safe(s.t)
  {
    forall k ensures SafeAt(s.t, k) {
      assert KeyOk(s, k) && PlaceOk(s.t, k);
    }
  }

  /** A block that somebody refers to has its buffer, which counts the references. */
  lemma Referred(s: Sys, k: Key)
    requires Tidy(s) && Refs(s, k) > 0
    ensures Safe(s.t) && Cached(s, k) && k in s.t.truth && k.dev != 0
    ensures s.t.index[k] < NBUF && s.t.bufs[s.t.index[k]].dev != 0 && s.t.bufs[s.t.index[k]].refcnt == Refs(s, k)
  {
    TidySafe(s);
    assert KeyOk(s, k) && PlaceOk(s.t, k) && SlotOk(s.t, s.t.index[k]);
  }

  // ---- Every step keeps it ----

  lemma PanicKeeps(s: Sys)
    requires Tidy(s)
    ensures Tidy(s.(panicked := true))
  {
    forall q ensures KeyOk(s.(panicked := true), q) {
      assert KeyOk(s, q);
    }
  }

  lemma GetKey(s: Sys, e: Event, q: Key)
    requires Tidy(s) && e.Get? && Enabled(s, e) && !NoBuffer(s.t, e.k)
    ensures KeyOk(Step(s, e), q)
  {
    assert PlaceOk(s.t, e.k) && SlotOk(s.t, e.b) && KeyOk(s, q) && PlaceOk(s.t, q);
  }

  lemma GetKeeps(s: Sys, e: Event)
    requires Tidy(s) && e.Get? && Enabled(s, e)
    ensures Tidy(Step(s, e)) && Step(s, e).t.truth == s.t.truth && Step(s, e).log == s.log
  {
    if NoBuffer(s.t, e.k) {
      PanicKeeps(s);
    } else {
      TidySafe(s);
      assert PlaceOk(s.t, e.k) && SlotOk(s.t, e.b);
      if e.k in s.t.index { ReferencedSafe(s.t, e.b); } else { RecycledSafe(s.t, e.b, e.k); }
      forall q ensures KeyOk(Step(s, e), q) {
        GetKey(s, e, q);
      }
    }
  }

  /** The buffer of block k holds the block's latest contents. */
  ghost predicate Reads(s: Sys, k: Key) {
    && Cached(s, k) && k in s.t.truth
    && s.t.bufs[s.t.index[k]].valid && s.t.bufs[s.t.index[k]].data == s.t.truth[k]
  }

  lemma LockKeeps(s: Sys, e: Event)
    requires Tidy(s) && e.Lock? && Enabled(s, e)
    ensures Tidy(Step(s, e)) && Step(s, e).t.truth == s.t.truth && Step(s, e).log == s.log
    ensures Reads(Step(s, e), e.k)
  {
    var s' := Step(s, e);
    Referred(s, e.k);
    assert KeyOk(s, e.k);
    LoadedSafe(s.t, s.t.index[e.k]);
    forall q ensures KeyOk(s', q) {
      assert KeyOk(s, q) && PlaceOk(s.t, q);
    }
  }

  lemma EditKeeps(s: Sys, e: Event)
    requires Tidy(s) && Stores(e) && Enabled(s, e)
    ensures Tidy(Step(s, e)) && Step(s, e).t.truth == Stored(s.t.truth, e)
  {
    var s' := Step(s, e);
    Referred(s, e.k);
    assert KeyOk(s, e.k);
    EditedSafe(s.t, s.t.index[e.k], e.v);
    forall q ensures KeyOk(s', q) {
      assert KeyOk(s, q) && PlaceOk(s.t, q);
    }
  }

  /** log_write: a new entry brings exactly one pin, an absorbed one none. */
  lemma LoggedPins(s: Sys, p: nat, k: Key)
    requires Tidy(s) && Cached(s, k) && k.dev == ROOTDEV && !s.panicked && !Logged(s, p, k).panicked
    ensures var r := Logged(s, p, k);
      && Pinned(r.log, k) && (forall q :: q != k ==> Pinned(r.log, q) == Pinned(s.log, q))
      && r.t.refs[k] == s.t.refs[k] + (if Pinned(s.log, k) then 0 else 1)
      && r.log.installed == 0 && Distinct(r.log.blocks) && |r.log.blocks| <= Log.LOGBLOCKS && !r.log.committing
  {
    var r := Logged(s, p, k);
    assert s.log.ops != map[];
    assert s.log.blocks[0..] == s.log.blocks && r.log.blocks[0..] == r.log.blocks;
  }

  lemma LoggedSafe(s: Sys, p: nat, k: Key)
    requires Tidy(s) && Cached(s, k) && k.dev == ROOTDEV && (k in s.held || k in s.shadows)
    ensures Sound(Logged(s, p, k).t)
  {
    Referred(s, k);
    ReferencedSafe(s.t, s.t.index[k]);
  }

  lemma LoggedKey(s: Sys, p: nat, k: Key, q: Key)
    requires Tidy(s) && Cached(s, k) && k.dev == ROOTDEV && !s.panicked && !Logged(s, p, k).panicked
    requires k in s.held || k in s.shadows
    ensures KeyOk(Logged(s, p, k), q)
  {
    LoggedPins(s, p, k);
    assert KeyOk(s, q) && KeyOk(s, k);
  }

  lemma LogWriteKeeps(s: Sys, e: Event)
    requires Tidy(s) && e.LogWrite? && Enabled(s, e)
    ensures Tidy(Step(s, e)) && Step(s, e).t.truth == Stored(s.t.truth, e)
  {
    var s', r := Step(s, e), Logged(s, e.p, e.k);
    LoggedSafe(s, e.p, e.k);
    if r.panicked {
      PanicKeeps(s);
    } else {
      LoggedPins(s, e.p, e.k);
      forall q ensures KeyOk(s', q) {
        LoggedKey(s, e.p, e.k, q);
      }
    }
  }

  lemma RecordKeeps(s: Sys, e: Event)
    requires Tidy(s) && e.Record? && Enabled(s, e)
    ensures Tidy(Step(s, e)) && Step(s, e).t.truth == Stored(s.t.truth, e)
  {
    var s', r := Step(s, e), Logged(s, e.p, e.k);
    LoggedSafe(s, e.p, e.k);
    if r.panicked {
      PanicKeeps(s);
    } else {
      LoggedPins(s, e.p, e.k);
      forall q ensures KeyOk(s', q) {
        LoggedKey(s, e.p, e.k, q);
      }
    }
  }

  lemma WriteKeeps(s: Sys, e: Event)
    requires Tidy(s) && e.Write? && Enabled(s, e)
    ensures Tidy(Step(s, e)) && Step(s, e).t.truth == s.t.truth && Step(s, e).log == s.log
  {
    var s' := Step(s, e);
    Referred(s, e.k);
    assert KeyOk(s, e.k);
    SavedSafe(s.t, s.t.index[e.k]);
    forall q ensures KeyOk(s', q) {
      assert KeyOk(s, q) && PlaceOk(s.t, q);
    }
  }

  /** The exact condition on a release: letting a buffer go keeps the invariant if and only if its contents are settled. */
  lemma UnlockExact(s: Sys, e: Event)
    requires Inv(s) && e.Unlock? && Enabled(s, e)
    ensures Step(s, e).t.truth == s.t.truth && Step(s, e).log == s.log
    ensures Inv(Step(s, e)) <==> Settled(s, e.k)
    ensures Disciplined(s, e) ==> Settled(s, e.k)
  {
    var s' := Step(s, e);
    Referred(s, e.k);
    assert KeyOk(s, e.k);
    forall q ensures KeyOk(s', q) <==> q != e.k || Settled(s, e.k) {
      assert KeyOk(s, q);
    }
    assert KeyOk(s', e.k) <==> Settled(s, e.k);
  }

  /** The last reference to a block is given back only when the block's latest contents are on disk. */
  lemma MayDrop(s: Sys, k: Key)
    requires Tidy(s)
    requires k in s.leaving || (k in s.held && s.held[k].saved) || (k in s.shadows && !s.shadows[k].Swapped?)
    ensures Cached(s, k) && s.t.bufs[s.t.index[k]].refcnt > 0 && Spare(s.t, k)
  {
    assert KeyOk(s, k) && PlaceOk(s.t, k) && SlotOk(s.t, s.t.index[k]);
  }

  lemma DroppedKeeps(s: Sys, k: Key)
    requires Tidy(s) && Cached(s, k) && s.t.bufs[s.t.index[k]].refcnt > 0 && Spare(s.t, k)
    ensures Safe(Dropped(s.t, s.t.index[k]))
  {
    TidySafe(s);
    DroppedSafe(s.t, s.t.index[k]);
  }

  lemma UnrefKeeps(s: Sys, e: Event)
    requires Tidy(s) && e.Unref? && Enabled(s, e)
    ensures Tidy(Step(s, e)) && Step(s, e).t.truth == s.t.truth && Step(s, e).log == s.log
  {
    MayDrop(s, e.k);
    DroppedKeeps(s, e.k);
    forall q ensures KeyOk(Step(s, e), q) {
      assert KeyOk(s, q);
    }
  }

  lemma UnshadeKeeps(s: Sys, e: Event)
    requires Tidy(s) && e.Unshade? && Enabled(s, e)
    ensures Tidy(Step(s, e)) && Step(s, e).t.truth == s.t.truth && Step(s, e).log == s.log
  {
    MayDrop(s, e.k);
    DroppedKeeps(s, e.k);
    forall q ensures KeyOk(Step(s, e), q) {
      assert KeyOk(s, q);
    }
  }

  lemma NextEntry(g: Journal, g': Journal, k: Key)
    requires Distinct(g.blocks) && g.installed < |g.blocks| && g'.blocks == g.blocks && g'.installed == g.installed + 1
    ensures Pinned(g', k) <==> Pinned(g, k) && k.block != g.blocks[g.installed]
  {
    assert g.blocks[g.installed..] == [g.blocks[g.installed]] + g.blocks[g.installed + 1..];
  }

  lemma UnpinKeeps(s: Sys, e: Event)
    requires Tidy(s) && e.Unpin? && Enabled(s, e)
    ensures Tidy(Step(s, e)) && Step(s, e).t.truth == Stored(s.t.truth, e)
  {
    var s', k := Step(s, e), Entry(s.log, s.log.installed);
    MayDrop(s, k);
    DroppedKeeps(s, k);
    forall q ensures KeyOk(s', q) {
      assert KeyOk(s, q);
      NextEntry(s.log, s'.log, q);
    }
  }

  lemma ShadeKeeps(s: Sys, e: Event)
    requires Tidy(s) && e.Shade? && Enabled(s, e)
    ensures Tidy(Step(s, e)) && Step(s, e).t.truth == s.t.truth && Step(s, e).log == s.log
  {
    var s' := Step(s, e);
    Referred(s, e.k);
    assert KeyOk(s, e.k);
    ReferencedSafe(s.t, s.t.index[e.k]);
    forall q ensures KeyOk(s', q) {
      assert KeyOk(s, q);
    }
  }

  lemma LogStateKeeps(s: Sys, e: Event)
    requires Tidy(s) && (e.Begin? || e.End? || e.CommitDone?) && Enabled(s, e)
    ensures Tidy(Step(s, e)) && Step(s, e).t.truth == Stored(s.t.truth, e)
  {
    var s' := Step(s, e);
    forall q ensures KeyOk(s', q) {
      assert KeyOk(s, q);
    }
  }

  // ---- The log's copies ----

  lemma EditKeepsLog(g: Journal, truth: map<Key, Block>, k: Key, v: Block)
    requires LogOk(g, truth) && !IsCopy(g, k) && |g.blocks| <= Log.LOGBLOCKS
    ensures LogOk(g, truth[k := v])
  {
    var truth' := truth[k := v];
    forall i: nat | i < |g.copies| ensures CopyOk(g, truth', i) {
      assert CopyOk(g, truth, i);
    }
  }

  lemma CopyKeepsLog(g: Journal, truth: map<Key, Block>, v: Block)
    requires LogOk(g, truth) && g.committing && |g.copies| < |g.blocks| && !g.home && g.installed == 0
    ensures LogOk(g.(copies := g.copies + [v]), truth[LogKey(g, |g.copies|) := v])
  {
    var g', truth' := g.(copies := g.copies + [v]), truth[LogKey(g, |g.copies|) := v];
    forall i: nat | i < |g'.copies| ensures CopyOk(g', truth', i) {
      if i < |g.copies| { assert CopyOk(g, truth, i); }
    }
  }

  lemma ChangeKeepsLog(g: Journal, g': Journal, truth: map<Key, Block>)
    requires LogOk(g, truth) && g'.start == g.start && g'.copies == g.copies
    requires |g.blocks| <= |g'.blocks| && g'.blocks[..|g.blocks|] == g.blocks
    requires |g'.blocks| == |g.blocks| || (|g'.blocks| == |g.blocks| + 1 && !InLog(g, Key(ROOTDEV, g'.blocks[|g.blocks|])))
    requires (g'.home || g'.installed > 0 ==> |g'.copies| == |g'.blocks|) && (!g'.committing ==> g'.copies == [] && !g'.home)
    ensures LogOk(g', truth)
  {
    forall i: nat | i < |g'.copies| ensures CopyOk(g', truth, i) {
      assert CopyOk(g, truth, i);
    }
    forall i | 0 <= i < |g'.blocks| ensures !InLog(g', Key(ROOTDEV, g'.blocks[i])) {
      if i < |g.blocks| { assert g'.blocks[..|g.blocks|][i] == g.blocks[i]; }
    }
  }

  /** Contents put into a buffer: the log's blocks change by write_log alone. */
  lemma StoresKeepLog(s: Sys, e: Event)
    requires Inv(s) && Stores(e) && Enabled(s, e)
    ensures LogOk(Step(s, e).log, s.t.truth[e.k := e.v])
  {
    if e.CopyOut? {
      CopyKeepsLog(s.log, s.t.truth, e.v);
    } else if e.Install? {
      EditKeepsLog(s.log, s.t.truth, e.k, e.v);
      ChangeKeepsLog(s.log, s.log.(home := true), s.t.truth[e.k := e.v]);
    } else {
      EditKeepsLog(s.log, s.t.truth, e.k, e.v);
    }
  }

  lemma LoggedLog(s: Sys, p: nat, k: Key)
    requires Inv(s) && Cached(s, k) && k.dev == ROOTDEV && !InLog(s.log, k)
    ensures LogOk(Logged(s, p, k).log, s.t.truth)
  {
    if |s.log.ops| >= 1 {
      assert s.log.ops != map[];
      ChangeKeepsLog(s.log, Listed(s.log, p, k.block), s.t.truth);
    }
  }

  lemma CommitKeeps(s: Sys, e: Event)
    requires Inv(s) && (e.Begin? || e.End? || e.CommitDone? || e.Unpin?) && Enabled(s, e)
    ensures Inv(Step(s, e)) && Step(s, e).t.truth == s.t.truth
  {
    if e.Unpin? { UnpinKeeps(s, e); } else { LogStateKeeps(s, e); }
    if !e.CommitDone? {
      assert e.End? ==> s.log.ops != map[];
      ChangeKeepsLog(s.log, Step(s, e).log, s.t.truth);
    }
  }

  /** The steps that leave the log alone. */
  lemma QuietKeeps(s: Sys, e: Event)
    requires Inv(s) && Enabled(s, e) && Disciplined(s, e)
    requires e.Get? || e.Lock? || e.Write? || e.Unlock? || e.Unref? || e.Unshade? || e.Shade?
    ensures Tidy(Step(s, e)) && Step(s, e).t.truth == s.t.truth && Step(s, e).log == s.log
  {
    match e
    case Get(_, _) => GetKeeps(s, e);
    case Lock(_, _) => LockKeeps(s, e);
    case Write(_, _) => WriteKeeps(s, e);
    case Unlock(_, _) => UnlockExact(s, e);
    case Unref(_) => UnrefKeeps(s, e);
    case Unshade(_) => UnshadeKeeps(s, e);
    case Shade(_, _) => ShadeKeeps(s, e);
  }

  /** log_write, by a holder or by the commit of a transaction. */
  lemma ListKeeps(s: Sys, e: Event)
    requires Inv(s) && Enabled(s, e) && (e.LogWrite? || e.Record?)
    ensures Inv(Step(s, e)) && Step(s, e).t.truth == s.t.truth
  {
    if e.LogWrite? { LogWriteKeeps(s, e); } else { RecordKeeps(s, e); }
    LoggedLog(s, e.p, e.k);
  }

  /** Every step of a disciplined holder keeps the invariant. */
  lemma StepKeeps(s: Sys, e: Event)
    requires Inv(s) && Enabled(s, e) && Disciplined(s, e)
    ensures Inv(Step(s, e)) && Step(s, e).t.truth == Stored(s.t.truth, e)
  {
    if Stores(e) {
      EditKeeps(s, e);
      StoresKeepLog(s, e);
    } else if e.LogWrite? || e.Record? {
      ListKeeps(s, e);
    } else if e.Begin? || e.End? || e.CommitDone? || e.Unpin? {
      CommitKeeps(s, e);
    } else {
      QuietKeeps(s, e);
    }
  }

  // ---- Whole runs ----

  /** A booted machine: binit's empty cache over a disk. */
  ghost predicate Start(s: Sys, disk: map<Key, Block>) {
    s == Sys(Table(seq(NBUF, _ => Buf(0, 0, false, 0, [])), disk, map[], disk, multiset{}),
             multiset{}, map[], multiset{}, map[], Journal(s.log.start, [], [], false, 0, map[], false), false)
  }

  ghost predicate Next(s: Sys, e: Event, s': Sys) {
    Enabled(s, e) && s' == Step(s, e)
  }

  /** Event i leads from state i to the next one. */
  ghost predicate Follows(ss: seq<Sys>, es: seq<Event>, i: nat)
    requires i < |es| && |ss| == |es| + 1
  {
    Next(ss[i], es[i], ss[i + 1])
  }

  ghost predicate Run(ss: seq<Sys>, es: seq<Event>) {
    |ss| == |es| + 1 && forall i: nat {:trigger Follows(ss, es, i)} :: i < |es| ==> Follows(ss, es, i)
  }

  /** Holders follow the rule throughout. */
  ghost predicate Careful(ss: seq<Sys>, es: seq<Event>)
    requires |ss| == |es| + 1
  {
    forall i {:trigger es[i]} :: 0 <= i < |es| ==> Disciplined(ss[i], es[i])
  }

  lemma StartInv(s: Sys, disk: map<Key, Block>)
    requires Start(s, disk)
    ensures Inv(s)
  {
    forall k ensures KeyOk(s, k) {
    }
  }

  lemma NextKeeps(s: Sys, e: Event, s': Sys)
    requires Inv(s) && Disciplined(s, e) && Next(s, e, s')
    ensures Inv(s') && s'.t.truth == Stored(s.t.truth, e)
  {
    StepKeeps(s, e);
  }

  lemma {:induction false} RunKeepsInv(ss: seq<Sys>, es: seq<Event>, i: nat)
    requires Run(ss, es) && Careful(ss, es) && Inv(ss[0]) && i < |ss|
    ensures Inv(ss[i])
  {
    if i > 0 {
      RunKeepsInv(ss, es, i - 1);
      assert Follows(ss, es, i - 1);
      NextKeeps(ss[i - 1], es[i - 1], ss[i]);
    }
  }

  /** In every run each reference that brelse or bunpin gives back may go: they never leave unsaved contents unpinned. */
  lemma DropsAreSafe(disk: map<Key, Block>, ss: seq<Sys>, es: seq<Event>, i: nat)
    requires Run(ss, es) && Careful(ss, es) && Start(ss[0], disk) && i < |es|
    requires es[i].Unref? || es[i].Unshade? || (es[i].Unpin? && ss[i].log.installed < |ss[i].log.blocks|)
    ensures var s, e := ss[i], es[i];
      Spare(s.t, if e.Unpin? then Entry(s.log, s.log.installed) else e.k) && Safe(ss[i + 1].t)
  {
    StartInv(ss[0], disk);
    RunKeepsInv(ss, es, i);
    RunKeepsInv(ss, es, i + 1);
    var s, e := ss[i], es[i];
    assert Follows(ss, es, i);
    MayDrop(s, if e.Unpin? then Entry(s.log, s.log.installed) else e.k);
    TidySafe(ss[i + 1]);
  }

  /** In every run a buffer counts the processes that use its block, its shadow, and one pin if the log has it. */
  lemma CountsInEveryRun(disk: map<Key, Block>, ss: seq<Sys>, es: seq<Event>, i: nat, b: nat)
    requires Run(ss, es) && Careful(ss, es) && Start(ss[0], disk) && i < |ss|
    requires b < |ss[i].t.bufs| && ss[i].t.bufs[b].dev != 0
    ensures ss[i].t.bufs[b].refcnt == Refs(ss[i], KeyOf(ss[i].t.bufs[b]))
  {
    StartInv(ss[0], disk);
    RunKeepsInv(ss, es, i);
    assert SlotOk(ss[i].t, b) && KeyOk(ss[i], KeyOf(ss[i].t.bufs[b]));
  }
}
