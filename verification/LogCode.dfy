/**
 The code of kernel/log.c on the buffer cache of kernel/bio.c: log_write and its
 pin, the loops of commit and recovery with their breads, writes, unpins and
 releases, begin_op and end_op.  A bread that finds no buffer panics, so the
 operations that read report whether they got through.
 */
module LogCode {
  import opened Counting
  import opened Log
  import opened Bio

  // ---- One round of a copying loop ----

  /** Buffer b has block k and its latest contents. */
  ghost predicate Has(cache: Cache, b: nat, k: Key)
    reads cache
  {
    && b < |cache.bufs| && KeyOf(cache.bufs[b]) == k && k in cache.truth && k in cache.refs
    && cache.bufs[b].valid && cache.bufs[b].refcnt > 0 && cache.bufs[b].data == cache.truth[k]
  }

  /** bread; whoever holds other buffers keeps them. */
  method Fetch(cache: Cache, k: Key) returns (ok: bool, b: nat)
    requires cache.Ok() && k.dev != 0 && k in cache.truth
    modifies cache
    ensures cache.Ok() && cache.truth == old(cache.truth) && cache.disk == old(cache.disk)
    ensures ok <==> k in old(cache.refs) || |InUse(old(cache.refs))| < NBUF
    ensures !ok ==> cache.Value() == old(cache.Value())
    ensures ok ==> cache.refs == old(cache.refs) + multiset{k} && Has(cache, b, k)
    ensures ok ==> forall c, q :: old(Has(cache, c, q)) && q != k ==> Has(cache, c, q) && c != b
  {
    AllInUse(cache.Value());
    ok, b := cache.Bread(k);
  }

  /** bread of two blocks, one after the other. */
  method FetchBoth(cache: Cache, k: Key, q: Key) returns (ok: bool, b: nat, c: nat)
    requires cache.Ok() && k.dev != 0 && q.dev != 0 && k in cache.truth && q in cache.truth && k != q
    requires k !in cache.refs && (q in cache.refs || cache.refs == multiset{})
    modifies cache
    ensures cache.Ok() && cache.truth == old(cache.truth) && cache.disk == old(cache.disk)
    ensures ok <==> |InUse(old(cache.refs))| < NBUF
    ensures !ok ==> cache.Value() == old(cache.Value())
    ensures ok ==> cache.refs == old(cache.refs) + multiset{k, q} && b != c && Has(cache, b, k) && Has(cache, c, q)
  {
    c := 0;
    ok, b := Fetch(cache, k);
    if ok {
      assert old(cache.refs) == multiset{} ==> InUse(cache.refs) == {k};
      ok, c := Fetch(cache, q);
    }
  }

  /** The contents of buffer c become those of buffer b, in the cache and on disk. */
  method CopyAndWrite(cache: Cache, b: nat, k: Key, c: nat, q: Key)
    requires cache.Ok() && b != c && Has(cache, b, k) && Has(cache, c, q)
    modifies cache
    ensures cache.Ok() && cache.refs == old(cache.refs) && Has(cache, b, k) && Has(cache, c, q)
    ensures cache.truth == old(cache.truth)[k := old(cache.truth)[q]]
    ensures cache.disk == old(cache.disk)[k := old(cache.truth)[q]]
  {
    assert SlotOk(cache.Value(), b) && SlotOk(cache.Value(), c);
    cache.Modify(b, cache.bufs[c].data);
    cache.Bwrite(b);
  }

  /** brelse of a buffer whose reference may go. */
  method Release(cache: Cache, b: nat, k: Key)
    requires cache.Ok() && Has(cache, b, k) && Spare(cache.Value(), k)
    modifies cache
    ensures cache.Ok() && cache.refs == old(cache.refs) - multiset{k}
    ensures cache.truth == old(cache.truth) && cache.disk == old(cache.disk)
    ensures forall c, q :: c != b && old(Has(cache, c, q)) && q != k ==> Has(cache, c, q)
  {
    cache.Brelse(b);
  }

  /**
   write_log's round: the block src, which the log has pinned, is copied to the log block dst.  It
   gets through exactly if some buffer is unused.
   */
  method CopyOut(cache: Cache, dst: Key, src: Key) returns (ok: bool)
    requires cache.Ok() && src.dev != 0 && dst.dev != 0 && src in cache.truth && dst in cache.truth
    requires src in cache.refs && dst !in cache.refs
    modifies cache
    ensures cache.Ok() && (ok <==> |InUse(old(cache.refs))| < NBUF)
    ensures !ok ==> cache.Value() == old(cache.Value())
    ensures ok ==> cache.refs == old(cache.refs)
    ensures ok ==> cache.truth == old(cache.truth)[dst := old(cache.truth)[src]]
    ensures ok ==> cache.disk == old(cache.disk)[dst := old(cache.truth)[src]]
  {
    var to, from;
    ok, to, from := FetchBoth(cache, dst, src);
    if ok {
      CopyAndWrite(cache, to, dst, from, src);
      Release(cache, from, src);
      Release(cache, to, dst);
    }
  }

  /**
   install_trans' round: the log block src is copied to its home dst, which loses its pin unless
   this is recovery.
   */
  method CopyHome(cache: Cache, src: Key, dst: Key, recovering: bool) returns (ok: bool)
    requires cache.Ok() && src.dev != 0 && dst.dev != 0 && src in cache.truth && dst in cache.truth && src != dst
    requires src !in cache.refs && if recovering then cache.refs == multiset{} else dst in cache.refs
    requires src in cache.disk && cache.truth[src] == cache.disk[src]
    modifies cache
    ensures cache.Ok() && (ok <==> |InUse(old(cache.refs))| < NBUF)
    ensures !ok ==> cache.Value() == old(cache.Value())
    ensures ok ==> cache.refs == if recovering then old(cache.refs) else old(cache.refs) - multiset{dst}
    ensures ok ==> cache.truth == old(cache.truth)[dst := old(cache.truth)[src]]
    ensures ok ==> cache.disk == old(cache.disk)[dst := old(cache.truth)[src]]
  {
    var lbuf, dbuf;
    ok, lbuf, dbuf := FetchBoth(cache, src, dst);
    if ok {
      CopyAndWrite(cache, dbuf, dst, lbuf, src);
      LetGo(cache, lbuf, src, dbuf, dst, recovering);
    }
  }

  /** bunpin of the home block, unless this is recovery, and brelse of both. */
  method LetGo(cache: Cache, lbuf: nat, src: Key, dbuf: nat, dst: Key, recovering: bool)
    requires cache.Ok() && Has(cache, lbuf, src) && Has(cache, dbuf, dst) && lbuf != dbuf && src != dst
    requires src in cache.disk && cache.disk[src] == cache.truth[src] && dst in cache.disk && cache.disk[dst] == cache.truth[dst]
    requires !recovering ==> cache.refs[dst] > 1
    modifies cache
    ensures cache.Ok() && cache.truth == old(cache.truth) && cache.disk == old(cache.disk)
    ensures cache.refs == old(cache.refs) - multiset{src, dst} - if recovering then multiset{} else multiset{dst}
  {
    if !recovering {
      Unpin(cache, dbuf, dst);
    }
    Release(cache, lbuf, src);
    Release(cache, dbuf, dst);
  }

  /** bunpin of a buffer that has another reference. */
  method Unpin(cache: Cache, b: nat, k: Key)
    requires cache.Ok() && Has(cache, b, k) && cache.refs[k] > 1
    modifies cache
    ensures cache.Ok() && cache.refs == old(cache.refs) - multiset{k}
    ensures cache.truth == old(cache.truth) && cache.disk == old(cache.disk)
    ensures forall c, q :: old(Has(cache, c, q)) ==> Has(cache, c, q)
  {
    assert SlotOk(cache.Value(), b);
    cache.Bunpin(b);
    forall c, q | old(Has(cache, c, q)) ensures Has(cache, c, q) { }
  }

  /** New contents for the block of buffer b, in the cache and on disk, and brelse. */
  method Overwrite(cache: Cache, b: nat, k: Key, v: Bio.Block)
    requires cache.Ok() && Has(cache, b, k)
    modifies cache
    ensures cache.Ok() && cache.refs == old(cache.refs) - multiset{k}
    ensures cache.truth == old(cache.truth)[k := v] && cache.disk == old(cache.disk)[k := v]
  {
    assert SlotOk(cache.Value(), b);
    cache.Modify(b, v);
    cache.Bwrite(b);
    Release(cache, b, k);
  }

  // ---- The log's device ----

  /** Block b of the device that has the log. */
  function On(b: nat): (k: Key) {
    Key(ROOTDEV, b)
  }

  ghost predicate Covers(m: map<Key, Bio.Block>, size: nat) {
    forall b: nat {:trigger On(b)} :: b < size ==> On(b) in m
  }

  /** The device's blocks in order. */
  ghost function ImageOf(m: map<Key, Bio.Block>, size: nat): (d: Image)
    requires Covers(m, size)
    ensures |d| == size && forall b: nat {:trigger d[b]} :: b < size ==> d[b] == m[On(b)]
  {
    seq(size, (b: nat) requires b < size => m[On(b)])
  }

  lemma ImagePut(m: map<Key, Bio.Block>, size: nat, b: nat, v: Bio.Block)
    requires Covers(m, size) && b < size
    ensures Covers(m[On(b) := v], size) && ImageOf(m[On(b) := v], size) == ImageOf(m, size)[b := v]
  {
  }

  /** Two images with the same log blocks. */
  ghost predicate SameLog(lay: Layout, d: Image, m: Image)
    requires lay.Valid() && |d| == |m| == lay.size
  {
    forall b :: lay.start <= b <= lay.start + LOGBLOCKS ==> m[b] == d[b]
  }

  /** Nobody refers to the log's own blocks. */
  ghost predicate LogUnused(lay: Layout, refs: multiset<Key>) {
    forall k {:trigger refs[k]} :: k in refs ==> k.dev != ROOTDEV || !(lay.start <= k.block <= lay.start + LOGBLOCKS)
  }

  /**
   The device's blocks are all there and of the right size, and nobody but the log uses the log's
   own: they are not referred to between its steps, and what is cached of them is on disk.
   */
  ghost predicate DeviceOk(lay: Layout, truth: map<Key, Bio.Block>, disk: map<Key, Bio.Block>, refs: multiset<Key>) {
    && lay.Valid() && Covers(truth, lay.size) && Covers(disk, lay.size)
    && ValidImage(lay, ImageOf(truth, lay.size)) && ValidImage(lay, ImageOf(disk, lay.size))
    && SameLog(lay, ImageOf(disk, lay.size), ImageOf(truth, lay.size)) && LogUnused(lay, refs)
  }

  /** New contents for a block in the cache and on disk, while references only go. */
  lemma Put(lay: Layout, truth: map<Key, Bio.Block>, disk: map<Key, Bio.Block>, refs: multiset<Key>,
            refs': multiset<Key>, b: nat, v: Bio.Block)
    requires DeviceOk(lay, truth, disk, refs) && refs' <= refs && b < lay.size && |v| == WORDS
    ensures var truth', disk' := truth[On(b) := v], disk[On(b) := v];
      && DeviceOk(lay, truth', disk', refs')
      && ImageOf(truth', lay.size) == ImageOf(truth, lay.size)[b := v]
      && ImageOf(disk', lay.size) == ImageOf(disk, lay.size)[b := v]
  {
    ImagePut(truth, lay.size, b, v);
    ImagePut(disk, lay.size, b, v);
  }

  /** The logged blocks installed and the header emptied. */
  function Cleared(lay: Layout, d: Image, blocks: seq<int>): (r: Image)
    requires lay.Valid() && |d| == lay.size && ValidList(lay, blocks) && |d[lay.start]| == WORDS
  {
    var inst := Installs(lay, d, d, blocks, |blocks|);
    if |inst[lay.start]| == WORDS then inst[lay.start := PutHeader(inst[lay.start], [])] else inst
  }

  /** The two halves of commit make the last CommitImage and all of CommitTrace. */
  lemma CommitPieces(lay: Layout, d: Image, m: Image, blocks: seq<int>, t: seq<Image>)
    requires ValidImage(lay, d) && ValidImage(lay, m) && ValidList(lay, blocks) && blocks != []
    ensures var c := Committed(lay, d, m, blocks);
      && |c[lay.start]| == WORDS && Cleared(lay, c, blocks) == CommitImage(lay, d, m, blocks, 2 * |blocks| + 2)
      && t + LogCopyTrace(lay, d, m, blocks, |blocks|) + [c] + InstallTrace(lay, c, blocks, |blocks|) + [Cleared(lay, c, blocks)]
         == t + CommitTrace(lay, d, m, blocks)
  {
    CommitAssembles(lay, d, m, blocks);
  }

  lemma RecoverPieces(lay: Layout, d: Image, t: seq<Image>)
    requires ValidDisk(lay, d)
    ensures var blocks := HeaderList(lay, d[lay.start]);
      && Cleared(lay, d, blocks) == Recover(lay, d)
      && t + InstallTrace(lay, d, blocks, |blocks|) + [Recover(lay, d)] == t + RecoverTrace(lay, d)
  {
    var blocks := HeaderList(lay, d[lay.start]);
    InstallsKeepLog(lay, d, d, blocks, |blocks|);
  }

  /** A reference to each of the first k listed blocks: the pins that log_write takes. */
  ghost function FirstPins(blocks: seq<int>, k: nat): (pins: multiset<Key>)
    requires k <= |blocks|
  {
    if k == 0 then multiset{}
    else FirstPins(blocks, k - 1) + if blocks[k - 1] < 0 then multiset{} else multiset{On(blocks[k - 1])}
  }

  ghost function Pins(blocks: seq<int>): (pins: multiset<Key>) {
    FirstPins(blocks, |blocks|)
  }

  lemma {:induction false} PinsWithin(blocks: seq<int>, i: nat, j: nat)
    requires i <= j <= |blocks|
    ensures FirstPins(blocks, i) <= FirstPins(blocks, j)
  {
    if i < j {
      PinsWithin(blocks, i, j - 1);
    }
  }

  /** Dropping the pins of a list in order: the next one is still there. */
  lemma NextPin(blocks: seq<int>, refs: multiset<Key>, i: nat)
    requires i < |blocks| && blocks[i] >= 0 && Pins(blocks) <= refs
    ensures On(blocks[i]) in refs && On(blocks[i]) in refs - FirstPins(blocks, i)
    ensures refs - FirstPins(blocks, i) - multiset{On(blocks[i])} == refs - FirstPins(blocks, i + 1)
  {
    PinsWithin(blocks, i + 1, |blocks|);
  }

  lemma {:induction false} PinsAppend(blocks: seq<int>, b: nat, k: nat)
    requires k <= |blocks|
    ensures FirstPins(blocks + [b], k) == FirstPins(blocks, k)
    ensures k == |blocks| ==> Pins(blocks + [b]) == Pins(blocks) + multiset{On(b)}
  {
    if k > 0 {
      PinsAppend(blocks, b, k - 1);
    }
  }

  /** write_log's next round, with the listed block as the cache has it. */
  lemma LogCopiesNext(lay: Layout, d: Image, m: Image, blocks: seq<int>, k: nat, t: seq<Image>)
    requires lay.Valid() && |d| == |m| == lay.size && ValidList(lay, blocks) && k < |blocks| && lay.Home(blocks[k])
    ensures var v := LogCopies(lay, m, m, blocks, k)[blocks[k]];
      && LogCopies(lay, d, m, blocks, k)[lay.start + k + 1 := v] == LogCopies(lay, d, m, blocks, k + 1)
      && LogCopies(lay, m, m, blocks, k)[lay.start + k + 1 := v] == LogCopies(lay, m, m, blocks, k + 1)
    ensures t + LogCopyTrace(lay, d, m, blocks, k) + [LogCopies(lay, d, m, blocks, k + 1)] == t + LogCopyTrace(lay, d, m, blocks, k + 1)
  {
    LogCopiesAt(lay, m, m, blocks, k);
  }

  /** install_trans' next round, with the log blocks as the cache has them. */
  lemma InstallsNext(lay: Layout, d: Image, m: Image, blocks: seq<int>, k: nat, t: seq<Image>)
    requires lay.Valid() && |d| == |m| == lay.size && ValidList(lay, blocks) && k < |blocks|
    requires SameLog(lay, d, m)
    ensures var v := Installs(lay, m, m, blocks, k)[lay.start + k + 1];
      && Installs(lay, d, d, blocks, k)[blocks[k] := v] == Installs(lay, d, d, blocks, k + 1)
      && Installs(lay, m, m, blocks, k)[blocks[k] := v] == Installs(lay, m, m, blocks, k + 1)
    ensures t + InstallTrace(lay, d, blocks, k) + [Installs(lay, d, d, blocks, k + 1)] == t + InstallTrace(lay, d, blocks, k + 1)
  {
    InstallsKeepLog(lay, m, m, blocks, k);
    InstallsKeepLog(lay, d, d, blocks, k);
  }

  lemma {:induction false} PinsHas(blocks: seq<int>, k: nat, b: nat)
    requires k <= |blocks| && b !in blocks[..k]
    ensures On(b) !in FirstPins(blocks, k)
  {
    if k > 0 {
      assert blocks[..k] == blocks[..k - 1] + [blocks[k - 1]];
      PinsHas(blocks, k - 1, b);
    }
  }

  /** Distinct listed blocks use a buffer each. */
  lemma {:induction false} PinsSize(blocks: seq<int>, k: nat)
    requires Distinct(blocks) && k <= |blocks| && forall i :: 0 <= i < |blocks| ==> blocks[i] >= 0
    ensures |InUse(FirstPins(blocks, k))| == k
  {
    if k > 0 {
      PinsSize(blocks, k - 1);
      var b := blocks[k - 1];
      assert b !in blocks[..k - 1];
      PinsHas(blocks, k - 1, b);
      assert InUse(FirstPins(blocks, k)) == InUse(FirstPins(blocks, k - 1)) + {On(b)};
    }
  }

  lemma FewerInUse(refs: multiset<Key>, refs': multiset<Key>)
    requires refs' <= refs
    ensures |InUse(refs')| <= |InUse(refs)|
  {
    SubsetSize(InUse(refs'), InUse(refs));
  }

  /** The references while install_trans drops the pins of r0 in order, unless this is recovery. */
  ghost predicate Dropping(blocks: seq<int>, r0: multiset<Key>, refs: multiset<Key>, k: nat, recovering: bool)
    requires k <= |blocks|
  {
    if recovering then r0 == multiset{} && refs == r0 else Pins(blocks) <= r0 && refs == r0 - FirstPins(blocks, k)
  }

  lemma DropNext(blocks: seq<int>, r0: multiset<Key>, refs: multiset<Key>, k: nat, recovering: bool)
    requires k < |blocks| && blocks[k] >= 0 && Dropping(blocks, r0, refs, k, recovering)
    ensures if recovering then refs == multiset{} else On(blocks[k]) in refs
    ensures |InUse(refs)| <= |InUse(r0)|
    ensures Dropping(blocks, r0, if recovering then refs else refs - multiset{On(blocks[k])}, k + 1, recovering)
  {
    FewerInUse(r0, refs);
    if !recovering { NextPin(blocks, r0, k); }
  }

  /** struct log; `block[..n]` is the in-memory header. */
  class Logger {
    const lay: Layout
    const cache: Cache
    const block: array<int>
    var n: nat
    var outstanding: int
    var committing: bool
    ghost var trace: seq<Image> // the disk after each of the log's writes

    ghost predicate Valid()
      reads this, cache, block
    {
      && cache.Ok() && DeviceOk(lay, cache.truth, cache.disk, cache.refs)
      && block.Length == LOGBLOCKS && n <= LOGBLOCKS
    }

    ghost function Blocks(): (s: seq<int>)
      reads this, block
      requires n <= block.Length
    {
      block[..n]
    }

    /** The latest contents of the device: what bread returns. */
    ghost function Mem(): (d: Image)
      reads this, cache
      requires Covers(cache.truth, lay.size)
    {
      ImageOf(cache.truth, lay.size)
    }

    ghost function Disk(): (d: Image)
      reads this, cache
      requires Covers(cache.disk, lay.size)
    {
      ImageOf(cache.disk, lay.size)
    }

    /** The log can be committed or recovered from: its list is of home blocks. */
    ghost predicate Ready()
      reads this, cache, block
    {
      Valid() && ValidList(lay, Blocks())
    }

    /** Some buffer is unused. */
    ghost predicate Room()
      reads cache
    {
      |InUse(cache.refs)| < NBUF
    }

    /** initlog: recover, then start empty. */
    constructor (lay: Layout, cache: Cache)
      requires cache.Ok() && cache.refs == multiset{} && cache.truth == cache.disk
      requires DeviceOk(lay, cache.truth, cache.disk, cache.refs) && ValidHeader(lay, ImageOf(cache.disk, lay.size)[lay.start])
      modifies cache
      ensures this.lay == lay && this.cache == cache && fresh(block)
      ensures Valid() && cache.refs == multiset{} && n == 0 && outstanding == 0 && !committing
      ensures Disk() == Recover(lay, old(ImageOf(cache.disk, lay.size))) && Mem() == Disk()
      ensures trace == RecoverTrace(lay, old(ImageOf(cache.disk, lay.size)))
    {
      this.lay, this.cache := lay, cache;
      block := new int[LOGBLOCKS](_ => 0);
      n, outstanding, committing, trace := 0, 0, false, [];
      new;
      RecoverFromLog();
    }

    /** write_log's round number tail. */
    method WriteLogRound(tail: nat) returns (ok: bool)
      requires Ready() && tail < n && block[tail] >= 0 && On(block[tail]) in cache.refs
      modifies cache, `trace
      ensures Ready() && ok == old(Room())
      ensures !ok ==> cache.Value() == old(cache.Value()) && trace == old(trace)
      ensures ok ==> cache.refs == old(cache.refs) && trace == old(trace) + [Disk()]
      ensures ok ==> Mem() == old(Mem())[lay.start + tail + 1 := old(Mem())[block[tail]]]
      ensures ok ==> Disk() == old(Disk())[lay.start + tail + 1 := old(Mem())[block[tail]]]
    {
      assert lay.Home(Blocks()[tail]);
      var src, dst := On(block[tail]), On(lay.start + tail + 1);
      Put(lay, cache.truth, cache.disk, cache.refs, cache.refs, lay.start + tail + 1, Mem()[block[tail]]);
      ok := CopyOut(cache, dst, src);
      if ok {
        trace := trace + [Disk()];
      }
    }

    /** The device after the first k rounds of write_log from d0 and m0. */
    ghost predicate LogCopied(d0: Image, m0: Image, t0: seq<Image>, k: nat)
      reads this, cache, block
    {
      && Ready() && ValidImage(lay, m0) && |d0| == lay.size && k <= n
      && Disk() == LogCopies(lay, d0, m0, Blocks(), k) && Mem() == LogCopies(lay, m0, m0, Blocks(), k)
      && trace == t0 + LogCopyTrace(lay, d0, m0, Blocks(), k)
    }

    method WriteLogNext(tail: nat, ghost d0: Image, ghost m0: Image, ghost t0: seq<Image>) returns (ok: bool)
      requires LogCopied(d0, m0, t0, tail) && tail < n && lay.Home(block[tail]) && On(block[tail]) in cache.refs
      modifies cache, `trace
      ensures ok == old(Room())
      ensures !ok ==> Ready() && cache.Value() == old(cache.Value()) && trace == old(trace)
      ensures ok ==> LogCopied(d0, m0, t0, tail + 1) && cache.refs == old(cache.refs)
    {
      ghost var blocks := Blocks();
      LogCopiesNext(lay, d0, m0, blocks, tail, t0);
      ok := WriteLogRound(tail);
      assert Blocks() == blocks;
    }

    /** Copy the cached contents of every listed block into the log. */
    method WriteLog() returns (ok: bool)
      requires Ready() && Pins(Blocks()) <= cache.refs
      modifies cache, `trace
      ensures ok == (n == 0 || old(Room()))
      ensures !ok ==> Ready() && cache.Value() == old(cache.Value()) && trace == old(trace)
      ensures ok ==> LogCopied(old(Disk()), old(Mem()), old(trace), n) && cache.refs == old(cache.refs)
    {
      ghost var d0, m0, t0 := Disk(), Mem(), trace;
      for tail := 0 to n
        invariant LogCopied(d0, m0, t0, tail) && cache.refs == old(cache.refs)
        invariant tail > 0 ==> old(Room())
        invariant tail == 0 ==> cache.Value() == old(cache.Value()) && trace == t0
      {
        assert lay.Home(Blocks()[tail]);
        NextPin(Blocks(), cache.refs, tail);
        ok := WriteLogNext(tail, d0, m0, t0);
        if !ok {
          return;
        }
      }
      ok := true;
    }

    /** install_trans' round number tail. */
    method InstallRound(tail: nat, recovering: bool) returns (ok: bool)
      requires Ready() && tail < n
      requires block[tail] >= 0 && if recovering then cache.refs == multiset{} else On(block[tail]) in cache.refs
      modifies cache, `trace
      ensures Ready() && ok == old(Room())
      ensures !ok ==> cache.Value() == old(cache.Value()) && trace == old(trace)
      ensures ok ==> cache.refs == if recovering then old(cache.refs) else old(cache.refs) - multiset{On(block[tail])}
      ensures ok ==> Mem() == old(Mem())[block[tail] := old(Mem())[lay.start + tail + 1]]
      ensures ok ==> Disk() == old(Disk())[block[tail] := old(Mem())[lay.start + tail + 1]]
      ensures ok ==> trace == old(trace) + [Disk()]
    {
      assert lay.Home(Blocks()[tail]);
      var src, dst := On(lay.start + tail + 1), On(block[tail]);
      Put(lay, cache.truth, cache.disk, cache.refs, if recovering then cache.refs else cache.refs - multiset{dst},
          block[tail], Mem()[lay.start + tail + 1]);
      ok := CopyHome(cache, src, dst, recovering);
      if ok {
        trace := trace + [Disk()];
      }
    }

    /** The device after the first k rounds of install_trans from d0 and m0. */
    ghost predicate Installed(d0: Image, m0: Image, t0: seq<Image>, k: nat)
      reads this, cache, block
    {
      && Ready() && |d0| == |m0| == lay.size && k <= n
      && Disk() == Installs(lay, d0, d0, Blocks(), k) && Mem() == Installs(lay, m0, m0, Blocks(), k)
      && trace == t0 + InstallTrace(lay, d0, Blocks(), k)
    }

    method InstallNext(tail: nat, recovering: bool, ghost d0: Image, ghost m0: Image, ghost t0: seq<Image>) returns (ok: bool)
      requires Installed(d0, m0, t0, tail) && tail < n && SameLog(lay, d0, m0)
      requires block[tail] >= 0 && if recovering then cache.refs == multiset{} else On(block[tail]) in cache.refs
      modifies cache, `trace
      ensures ok == old(Room())
      ensures !ok ==> Ready() && cache.Value() == old(cache.Value()) && trace == old(trace)
      ensures ok ==> Installed(d0, m0, t0, tail + 1)
      ensures ok ==> cache.refs == if recovering then old(cache.refs) else old(cache.refs) - multiset{On(block[tail])}
    {
      ghost var blocks := Blocks();
      InstallsNext(lay, d0, m0, blocks, tail, t0);
      ok := InstallRound(tail, recovering);
      assert Blocks() == blocks;
    }

    /** The same with the references: r0 at the start, and a pin less for each round that is not part of recovery. */
    ghost predicate Installing(d0: Image, m0: Image, t0: seq<Image>, r0: multiset<Key>, k: nat, recovering: bool)
      reads this, cache, block
    {
      && Installed(d0, m0, t0, k) && SameLog(lay, d0, m0)
      && Dropping(Blocks(), r0, cache.refs, k, recovering)
    }

    method InstallStep(tail: nat, recovering: bool, ghost d0: Image, ghost m0: Image, ghost t0: seq<Image>, ghost r0: multiset<Key>)
      returns (ok: bool)
      requires Installing(d0, m0, t0, r0, tail, recovering) && tail < n
      modifies cache, `trace
      ensures ok == old(Room()) && (|InUse(r0)| < NBUF ==> ok)
      ensures !ok ==> Ready() && cache.Value() == old(cache.Value()) && trace == old(trace)
      ensures ok ==> Installing(d0, m0, t0, r0, tail + 1, recovering)
    {
      ghost var blocks := Blocks();
      assert lay.Home(blocks[tail]);
      DropNext(blocks, r0, cache.refs, tail, recovering);
      ok := InstallNext(tail, recovering, d0, m0, t0);
      assert Blocks() == blocks;
    }

    /** Copy every listed log block to its home location, dropping the pins that log_write took. */
    method InstallTrans(recovering: bool) returns (ok: bool)
      requires Ready() && if recovering then cache.refs == multiset{} else Pins(Blocks()) <= cache.refs
      modifies cache, `trace
      ensures ok == (n == 0 || old(Room()))
      ensures !ok ==> Ready() && cache.Value() == old(cache.Value()) && trace == old(trace)
      ensures ok ==> Installing(old(Disk()), old(Mem()), old(trace), old(cache.refs), n, recovering)
    {
      ghost var d0, m0, t0, r0 := Disk(), Mem(), trace, cache.refs;
      for tail := 0 to n
        invariant Installing(d0, m0, t0, r0, tail, recovering)
        invariant tail > 0 ==> |InUse(r0)| < NBUF
        invariant tail == 0 ==> cache.Value() == old(cache.Value()) && trace == t0
      {
        ok := InstallStep(tail, recovering, d0, m0, t0, r0);
        if !ok {
          return;
        }
      }
      ok := true;
    }

    /** The header words with the list filled in. */
    method FillHeader(h: Bio.Block) returns (hb: Bio.Block)
      requires |h| == WORDS && block.Length == LOGBLOCKS && n <= LOGBLOCKS
      ensures hb == PutHeader(h, Blocks())
    {
      hb := h[0 := n];
      for i := 0 to n
        invariant |hb| == WORDS && hb[0] == n
        invariant forall j :: 0 <= j < i ==> hb[1 + j] == block[j]
        invariant forall j :: 1 + i <= j < WORDS ==> hb[j] == h[j]
      {
        hb := hb[1 + i := block[i]];
      }
      forall j | 0 <= j < WORDS ensures hb[j] == PutHeader(h, Blocks())[j] {
        if 1 <= j <= n { assert hb[1 + (j - 1)] == block[j - 1]; }
      }
    }

    /** Write the in-memory header to disk: the commit point. */
    method WriteHead() returns (ok: bool)
      requires Valid()
      modifies cache, `trace
      ensures Valid() && ok == old(Room())
      ensures !ok ==> cache.Value() == old(cache.Value()) && trace == old(trace)
      ensures ok ==> cache.refs == old(cache.refs) && trace == old(trace) + [Disk()]
      ensures ok ==> Mem() == old(Mem())[lay.start := PutHeader(old(Mem())[lay.start], Blocks())]
      ensures ok ==> Disk() == old(Disk())[lay.start := PutHeader(old(Disk())[lay.start], Blocks())]
    {
      var k := On(lay.start);
      ghost var truth, disk, refs, h := cache.truth, cache.disk, cache.refs, Mem()[lay.start];
      var b;
      ok, b := Fetch(cache, k);
      if ok {
        var hb := FillHeader(cache.bufs[b].data);
        Put(lay, truth, disk, refs, refs, lay.start, hb);
        Overwrite(cache, b, k, hb);
        assert cache.refs == refs;
        trace := trace + [Disk()];
      }
    }

    /** Read the header from disk into memory. */
    method ReadHead() returns (ok: bool)
      requires Valid() && ValidHeader(lay, Mem()[lay.start])
      modifies cache, `n, block
      ensures Valid() && ok == old(Room())
      ensures !ok ==> cache.Value() == old(cache.Value()) && n == old(n)
      ensures ok ==> cache.truth == old(cache.truth) && cache.disk == old(cache.disk) && cache.refs == old(cache.refs)
      ensures ok ==> Blocks() == HeaderList(lay, Mem()[lay.start])
    {
      var k := On(lay.start);
      ghost var refs := cache.refs;
      assert Disk()[lay.start] == Mem()[lay.start];
      var b;
      ok, b := Fetch(cache, k);
      if ok {
        var h := cache.bufs[b].data;
        assert h == Mem()[lay.start];
        Release(cache, b, k);
        assert cache.refs == refs;
        CopyList(h);
      }
    }

    /** The list that header h has. */
    method CopyList(h: Bio.Block)
      requires ValidHeader(lay, h) && block.Length == LOGBLOCKS
      modifies `n, block
      ensures n <= LOGBLOCKS && Blocks() == HeaderList(lay, h)
    {
      n := h[0];
      for i := 0 to n
        invariant n == h[0] && forall j :: 0 <= j < i ==> block[j] == h[1 + j]
      {
        block[i] := h[1 + i];
      }
    }

    /** How commit and recovery end: the logged blocks go home, and the header is cleared. */
    method InstallAndClear(recovering: bool)
      requires Ready() && Room() && if recovering then cache.refs == multiset{} else Pins(Blocks()) <= cache.refs
      modifies cache, `n, `trace
      ensures Valid() && n == 0 && cache.refs == if recovering then old(cache.refs) else old(cache.refs) - Pins(old(Blocks()))
      ensures Disk() == Cleared(lay, old(Disk()), old(Blocks())) && Mem() == Cleared(lay, old(Mem()), old(Blocks()))
      ensures trace == old(trace) + InstallTrace(lay, old(Disk()), old(Blocks()), old(n)) + [Disk()]
    {
      ghost var r0 := cache.refs;
      var ok := InstallTrans(recovering);
      FewerInUse(r0, cache.refs);
      n := 0;
      ok := WriteHead();
    }

    /** On a machine that has just come up. */
    method RecoverFromLog()
      requires Valid() && cache.refs == multiset{} && Mem() == Disk() && ValidHeader(lay, Disk()[lay.start])
      modifies cache, `n, `trace, block
      ensures Valid() && n == 0 && cache.refs == multiset{}
      ensures Disk() == Recover(lay, old(Disk())) && Mem() == Disk()
      ensures trace == old(trace) + RecoverTrace(lay, old(Disk()))
    {
      assert InUse(cache.refs) == {};
      RecoverPieces(lay, Disk(), trace);
      var ok := ReadHead();
      InstallAndClear(true);
    }

    /** The first half of commit: the listed blocks go to the log, then the header. */
    method WriteToLog() returns (ok: bool)
      requires Ready() && Pins(Blocks()) <= cache.refs && n > 0
      modifies cache, `trace
      ensures Ready() && ok == old(Room())
      ensures !ok ==> cache.Value() == old(cache.Value()) && trace == old(trace)
      ensures ok ==> cache.refs == old(cache.refs)
      ensures ok ==> Disk() == Committed(lay, old(Disk()), old(Mem()), Blocks())
      ensures ok ==> Mem() == Committed(lay, old(Mem()), old(Mem()), Blocks())
      ensures ok ==> trace == old(trace) + LogCopyTrace(lay, old(Disk()), old(Mem()), Blocks(), n) + [Disk()]
    {
      ghost var d0, m0, blocks := Disk(), Mem(), Blocks();
      ok := WriteLog();
      if ok {
        LogCopiesAt(lay, d0, m0, blocks, n);
        LogCopiesAt(lay, m0, m0, blocks, n);
        ok := WriteHead();
        assert Blocks() == blocks;
      }
    }

    /** What a completed commit makes of the device, the log and the references. */
    ghost predicate AfterCommit(d0: Image, m0: Image, t0: seq<Image>, r0: multiset<Key>, blocks: seq<int>)
      reads this, cache, block
      requires Valid() && |d0| == |m0| == lay.size && ValidList(lay, blocks) && |d0[lay.start]| == WORDS
    {
      && n == 0 && cache.refs == r0 - Pins(blocks) && HomeOf(lay, Mem()) == HomeOf(lay, m0)
      && trace == t0 + CommitTrace(lay, d0, m0, blocks)
      && Disk() == if blocks == [] then d0 else CommitImage(lay, d0, m0, blocks, 2 * |blocks| + 2)
    }

    /**
     commit(): the disk writes are CommitTrace, the cached home blocks do not change, and the pins of
     the listed blocks are dropped.  It gets through exactly if some buffer is unused at the start;
     otherwise its first bread, of a log block, panics.
     */
    method Commit() returns (ok: bool)
      requires Ready() && Pins(Blocks()) <= cache.refs
      modifies cache, `n, `trace
      ensures Valid() && ok == (old(n) == 0 || old(Room()))
      ensures !ok ==> cache.Value() == old(cache.Value()) && trace == old(trace) && n == old(n)
      ensures ok ==> AfterCommit(old(Disk()), old(Mem()), old(trace), old(cache.refs), old(Blocks()))
    {
      if n == 0 {
        assert Blocks() == [];
        return true;
      }
      ghost var d0, m0, blocks := Disk(), Mem(), Blocks();
      CommitPieces(lay, d0, m0, blocks, trace);
      CommitPieces(lay, m0, m0, blocks, trace);
      CommitKeepsCache(lay, m0, blocks);
      ok := WriteToLog();
      if ok {
        InstallAndClear(false);
      }
    }

    /** One pass of begin_op's loop: admitted, or asleep until the next wakeup. */
    method TryBeginOp(txActive: bool) returns (admitted: bool)
      modifies `outstanding
      ensures txActive ==> admitted && outstanding == old(outstanding)
      ensures !txActive ==>
        && admitted == (!committing && n + (old(outstanding) + 1) * MAXOPBLOCKS <= LOGBLOCKS)
        && outstanding == old(outstanding) + if admitted then 1 else 0
    {
      if txActive {
        return true;
      }
      if committing {
        return false;
      } else if n + (outstanding + 1) * MAXOPBLOCKS > LOGBLOCKS {
        return false;
      } else {
        outstanding := outstanding + 1;
        return true;
      }
    }

    /** The entry that has block b, or n. */
    method FindEntry(b: int) returns (i: nat)
      requires n <= block.Length
      ensures i <= n && (i < n ==> block[i] == b) && (i == n ==> b !in Blocks()) && (i < n ==> b in Blocks())
    {
      i := 0;
      while i < n && block[i] != b
        invariant 0 <= i <= n && b !in block[..i]
      {
        i := i + 1;
      }
      assert i < n ==> Blocks()[i] == b;
    }

    /**
     log_write of a buffer that its caller holds; `ok` is false where the kernel panics.  A new entry
     takes exactly one pin on its block, an absorbed one takes none.
     */
    method LogWrite(b: nat, txActive: bool) returns (ok: bool)
      requires Valid() && b < NBUF && cache.bufs[b].refcnt > 0 && cache.bufs[b].dev == ROOTDEV
      modifies cache, `n, block
      ensures Valid() && cache.truth == old(cache.truth) && cache.disk == old(cache.disk)
      ensures txActive ==> ok && Blocks() == old(Blocks())
      ensures !txActive ==> ok == (old(n) < LOGBLOCKS && outstanding >= 1)
      ensures Blocks() == if ok && !txActive then Logged(old(Blocks()), old(cache.bufs[b].block)) else old(Blocks())
      ensures Pins(old(Blocks())) <= Pins(Blocks())
      ensures cache.refs == old(cache.refs) + (Pins(Blocks()) - Pins(old(Blocks())))
    {
      if txActive {
        return true;
      }
      if n >= LOGBLOCKS || outstanding < 1 {
        return false;
      }
      ghost var s0 := Blocks();
      var blockno := cache.bufs[b].block;
      var i := FindEntry(blockno);
      block[i] := blockno;
      if i == n {
        assert SlotOk(cache.Value(), b);
        PinsAppend(s0, blockno, n);
        cache.Bpin(b);
        n := n + 1;
        assert Blocks() == s0 + [blockno];
      } else {
        assert Blocks() == s0;
      }
      return true;
    }

    /** end_op; `ok` is false where the kernel panics.  The last operation out commits. */
    method EndOp(txActive: bool) returns (ok: bool)
      requires Ready() && Pins(Blocks()) <= cache.refs
      modifies cache, `n, `outstanding, `committing, `trace
      ensures Valid() && outstanding == old(outstanding) - (if txActive then 0 else 1)
      ensures ok == (txActive || (!old(committing) && (outstanding != 0 || old(n) == 0 || old(Room()))))
      ensures ok ==> committing == old(committing)
      ensures ok && !txActive && outstanding == 0 ==>
        AfterCommit(old(Disk()), old(Mem()), old(trace), old(cache.refs), old(Blocks()))
      ensures !ok || txActive || outstanding != 0 ==>
        cache.Value() == old(cache.Value()) && trace == old(trace) && n == old(n)
    {
      if txActive {
        return true;
      }
      outstanding := outstanding - 1;
      if committing {
        return false;
      }
      if outstanding == 0 {
        committing := true;
        ok := Commit();
        if !ok {
          return;
        }
        committing := false;
      }
      return true;
    }

    /** With nothing but the log's pins in the cache, a commit of n entries gets through exactly if n < NBUF. */
    lemma CommitNeedsABuffer()
      requires n <= block.Length && ValidList(lay, Blocks()) && Distinct(Blocks()) && cache.refs == Pins(Blocks())
      ensures n == 0 || Room() <==> n < NBUF
    {
      PinsSize(Blocks(), n);
    }
  }
}
