/**
 The write-ahead log of kernel/log.c on values: what commit and recovery write,
 disk write by disk write, and what a crash after any of them leaves.

 The disk is a sequence of blocks.  `mem` is what `bread` returns (the buffer
 cache laid over the disk) and `disk` is what survives a crash.  Every `bwrite`
 is one atomic step, so "the machine may stop between any two disk writes" reads
 "it may stop at any element of the trace of disk images".
 */
module Log {

  const MAXOPBLOCKS: nat := 10
  const LOGBLOCKS: nat := MAXOPBLOCKS * 3
  const WORDS: nat := 256 // 32-bit words in a block of BSIZE bytes

  type Block = seq<int>
  type Image = seq<Block>

  /** Where the log lives: a header block at `start`, then LOGBLOCKS log blocks. */
  datatype Layout = Layout(start: nat, size: nat) {
    predicate Valid() {
      start + LOGBLOCKS < size
    }

    /** Block b is outside the log area. */
    predicate Home(b: int) {
      0 <= b < size && !(start <= b <= start + LOGBLOCKS)
    }
  }

  ghost predicate ValidImage(lay: Layout, d: Image) {
    && lay.Valid()
    && |d| == lay.size
    && forall b :: 0 <= b < |d| ==> |d[b]| == WORDS
  }

  /** A list of block numbers that the log may hold. */
  predicate ValidList(lay: Layout, blocks: seq<int>) {
    && |blocks| <= LOGBLOCKS
    && forall i :: 0 <= i < |blocks| ==> lay.Home(blocks[i])
  }

  // ---- The header block ----

  /** Header block h describes the list: h->n, then h->block[0..n]. */
  predicate ValidHeader(lay: Layout, h: Block) {
    && |h| == WORDS
    && 0 <= h[0] <= LOGBLOCKS
    && ValidList(lay, h[1..1 + h[0]])
  }

  function HeaderList(lay: Layout, h: Block): (blocks: seq<int>)
    requires ValidHeader(lay, h)
    ensures ValidList(lay, blocks)
  {
    h[1..1 + h[0]]
  }

  /** write_head overwrites h->n and the first n entries; the rest stays stale. */
  function PutHeader(h: Block, blocks: seq<int>): (h': Block)
    requires |h| == WORDS && |blocks| <= LOGBLOCKS
    ensures |h'| == WORDS
  {
    [|blocks|] + blocks + h[1 + |blocks|..]
  }

  lemma HeaderRoundTrip(lay: Layout, h: Block, blocks: seq<int>)
    requires |h| == WORDS && ValidList(lay, blocks)
    ensures ValidHeader(lay, PutHeader(h, blocks))
    ensures HeaderList(lay, PutHeader(h, blocks)) == blocks
  {
    var h' := PutHeader(h, blocks);
    assert h'[1..1 + h'[0]] == blocks;
  }

  /** A disk on which recovery is meaningful: mkfs leaves one, commits keep it. */
  ghost predicate ValidDisk(lay: Layout, d: Image) {
    ValidImage(lay, d) && ValidHeader(lay, d[lay.start])
  }

  // ---- What the loops of commit and recovery write ----

  /** The disk after the first k iterations of write_log. */
  function LogCopies(lay: Layout, d: Image, mem: Image, blocks: seq<int>, k: nat): (r: Image)
    requires lay.Valid() && |d| == |mem| == lay.size && ValidList(lay, blocks) && k <= |blocks|
    ensures |r| == |d|
  {
    if k == 0 then d
    else LogCopies(lay, d, mem, blocks, k - 1)[lay.start + k := mem[blocks[k - 1]]]
  }

  /** The disk `d` after the first k iterations of install_trans, with the log blocks of `src`. */
  function Installs(lay: Layout, d: Image, src: Image, blocks: seq<int>, k: nat): (r: Image)
    requires lay.Valid() && |d| == |src| == lay.size && ValidList(lay, blocks) && k <= |blocks|
    ensures |r| == |d|
  {
    if k == 0 then d
    else Installs(lay, d, src, blocks, k - 1)[blocks[k - 1] := src[lay.start + k]]
  }

  /** The disks write_log leaves, write by write. */
  function LogCopyTrace(lay: Layout, d: Image, mem: Image, blocks: seq<int>, k: nat): (t: seq<Image>)
    requires lay.Valid() && |d| == |mem| == lay.size && ValidList(lay, blocks) && k <= |blocks|
    ensures |t| == k
  {
    if k == 0 then []
    else LogCopyTrace(lay, d, mem, blocks, k - 1) + [LogCopies(lay, d, mem, blocks, k)]
  }

  /** The disks install_trans leaves, write by write. */
  function InstallTrace(lay: Layout, d: Image, blocks: seq<int>, k: nat): (t: seq<Image>)
    requires lay.Valid() && |d| == lay.size && ValidList(lay, blocks) && k <= |blocks|
    ensures |t| == k
  {
    if k == 0 then []
    else InstallTrace(lay, d, blocks, k - 1) + [Installs(lay, d, d, blocks, k)]
  }

  /** What recover_from_log leaves on disk. */
  function Recover(lay: Layout, d: Image): (r: Image)
    requires lay.Valid() && |d| == lay.size && ValidHeader(lay, d[lay.start])
    ensures |r| == |d|
  {
    var blocks := HeaderList(lay, d[lay.start]);
    Installs(lay, d, d, blocks, |blocks|)[lay.start := PutHeader(d[lay.start], [])]
  }

  /** The disk after k of the 2n+2 disk writes of commit(). */
  function CommitImage(lay: Layout, d: Image, mem: Image, blocks: seq<int>, k: nat): (r: Image)
    requires lay.Valid() && |d| == |mem| == lay.size && ValidList(lay, blocks)
    requires |d[lay.start]| == WORDS
    requires k <= 2 * |blocks| + 2
    ensures |r| == |d|
  {
    var n := |blocks|;
    if k <= n then LogCopies(lay, d, mem, blocks, k)
    else
      var committed := Committed(lay, d, mem, blocks);
      if k <= 2 * n + 1 then Installs(lay, committed, committed, blocks, k - n - 1)
      else Installs(lay, committed, committed, blocks, n)
           [lay.start := PutHeader(PutHeader(d[lay.start], blocks), [])]
  }

  /** The disk after k of the n+1 disk writes of recover_from_log(). */
  function RecoverImage(lay: Layout, d: Image, k: nat): (r: Image)
    requires lay.Valid() && |d| == lay.size && ValidHeader(lay, d[lay.start])
    requires k <= |HeaderList(lay, d[lay.start])| + 1
    ensures |r| == |d|
  {
    var blocks := HeaderList(lay, d[lay.start]);
    if k <= |blocks| then Installs(lay, d, d, blocks, k) else Recover(lay, d)
  }

  /** The disk at the commit point: log blocks and header written. */
  function Committed(lay: Layout, d: Image, mem: Image, blocks: seq<int>): (r: Image)
    requires lay.Valid() && |d| == |mem| == lay.size && ValidList(lay, blocks)
    requires |d[lay.start]| == WORDS
    ensures |r| == |d|
  {
    LogCopies(lay, d, mem, blocks, |blocks|)[lay.start := PutHeader(d[lay.start], blocks)]
  }

  /** All the disk writes of commit(). */
  function CommitTrace(lay: Layout, d: Image, mem: Image, blocks: seq<int>): (t: seq<Image>)
    requires lay.Valid() && |d| == |mem| == lay.size && ValidList(lay, blocks)
    requires |d[lay.start]| == WORDS
    ensures |t| == if blocks == [] then 0 else 2 * |blocks| + 2
  {
    if blocks == [] then []
    else
      var committed := Committed(lay, d, mem, blocks);
      LogCopyTrace(lay, d, mem, blocks, |blocks|) + [committed]
      + InstallTrace(lay, committed, blocks, |blocks|)
      + [CommitImage(lay, d, mem, blocks, 2 * |blocks| + 2)]
  }

  /** All the disk writes of recover_from_log(). */
  function RecoverTrace(lay: Layout, d: Image): (t: seq<Image>)
    requires lay.Valid() && |d| == lay.size && ValidHeader(lay, d[lay.start])
    ensures |t| == |HeaderList(lay, d[lay.start])| + 1
  {
    var blocks := HeaderList(lay, d[lay.start]);
    InstallTrace(lay, d, blocks, |blocks|) + [Recover(lay, d)]
  }

  lemma {:induction false} LogCopyTraceAt(lay: Layout, d: Image, mem: Image, blocks: seq<int>, k: nat, i: nat)
    requires lay.Valid() && |d| == |mem| == lay.size && ValidList(lay, blocks) && i < k <= |blocks|
    ensures LogCopyTrace(lay, d, mem, blocks, k)[i] == LogCopies(lay, d, mem, blocks, i + 1)
  {
    if i < k - 1 {
      LogCopyTraceAt(lay, d, mem, blocks, k - 1, i);
    }
  }

  lemma {:induction false} InstallTraceAt(lay: Layout, d: Image, blocks: seq<int>, k: nat, i: nat)
    requires lay.Valid() && |d| == lay.size && ValidList(lay, blocks) && i < k <= |blocks|
    ensures InstallTrace(lay, d, blocks, k)[i] == Installs(lay, d, d, blocks, i + 1)
  {
    if i < k - 1 {
      InstallTraceAt(lay, d, blocks, k - 1, i);
    }
  }

  /** Disk write number i of commit() leaves CommitImage(i + 1). */
  lemma CommitTraceAt(lay: Layout, d: Image, mem: Image, blocks: seq<int>, i: nat)
    requires lay.Valid() && |d| == |mem| == lay.size && ValidList(lay, blocks)
    requires |d[lay.start]| == WORDS
    requires i < |CommitTrace(lay, d, mem, blocks)|
    ensures CommitTrace(lay, d, mem, blocks)[i] == CommitImage(lay, d, mem, blocks, i + 1)
  {
    var n := |blocks|;
    if i < n {
      LogCopyTraceAt(lay, d, mem, blocks, n, i);
    } else if n < i < 2 * n + 1 {
      InstallTraceAt(lay, Committed(lay, d, mem, blocks), blocks, n, i - n - 1);
    }
  }

  /** Disk write number i of recovery leaves RecoverImage(i + 1). */
  lemma RecoverTraceAt(lay: Layout, d: Image, i: nat)
    requires ValidDisk(lay, d) && i < |RecoverTrace(lay, d)|
    ensures RecoverTrace(lay, d)[i] == RecoverImage(lay, d, i + 1)
  {
    var blocks := HeaderList(lay, d[lay.start]);
    if i < |blocks| {
      InstallTraceAt(lay, d, blocks, |blocks|, i);
    }
  }

  // ---- Facts about the log copies and the installs ----

  lemma {:induction false} LogCopiesAt(lay: Layout, d: Image, mem: Image, blocks: seq<int>, k: nat)
    requires lay.Valid() && |d| == |mem| == lay.size && ValidList(lay, blocks) && k <= |blocks|
    ensures forall i :: 0 <= i < k ==> LogCopies(lay, d, mem, blocks, k)[lay.start + 1 + i] == mem[blocks[i]]
    ensures forall b :: 0 <= b < |d| && !(lay.start < b <= lay.start + k) ==>
      LogCopies(lay, d, mem, blocks, k)[b] == d[b]
  {
    if k > 0 {
      LogCopiesAt(lay, d, mem, blocks, k - 1);
    }
  }

  lemma {:induction false} InstallsElsewhere(lay: Layout, d: Image, src: Image, blocks: seq<int>, k: nat, b: int)
    requires lay.Valid() && |d| == |src| == lay.size && ValidList(lay, blocks) && k <= |blocks|
    requires 0 <= b < |d| && b !in blocks[..k]
    ensures Installs(lay, d, src, blocks, k)[b] == d[b]
  {
    if k > 0 {
      assert blocks[..k] == blocks[..k - 1] + [blocks[k - 1]];
      InstallsElsewhere(lay, d, src, blocks, k - 1, b);
    }
  }

  /** What an install leaves in a logged block does not depend on what was there. */
  lemma {:induction false} InstallsForget(lay: Layout, d: Image, e: Image, src: Image, blocks: seq<int>, k: nat, b: int)
    requires lay.Valid() && |d| == |e| == |src| == lay.size && ValidList(lay, blocks) && k <= |blocks|
    requires b in blocks[..k]
    ensures Installs(lay, d, src, blocks, k)[b] == Installs(lay, e, src, blocks, k)[b]
  {
    if b != blocks[k - 1] {
      assert blocks[..k] == blocks[..k - 1] + [blocks[k - 1]];
      InstallsForget(lay, d, e, src, blocks, k - 1, b);
    }
  }

  /** If every log block holds the cached contents, a logged home block ends up with them. */
  lemma {:induction false} InstallsValue(lay: Layout, d: Image, src: Image, mem: Image, blocks: seq<int>, k: nat, b: int)
    requires lay.Valid() && |d| == |src| == |mem| == lay.size && ValidList(lay, blocks) && k <= |blocks|
    requires forall i :: 0 <= i < |blocks| ==> src[lay.start + 1 + i] == mem[blocks[i]]
    requires b in blocks[..k]
    ensures Installs(lay, d, src, blocks, k)[b] == mem[b]
  {
    if b != blocks[k - 1] {
      assert blocks[..k] == blocks[..k - 1] + [blocks[k - 1]];
      InstallsValue(lay, d, src, mem, blocks, k - 1, b);
    } else {
      assert src[lay.start + 1 + (k - 1)] == mem[blocks[k - 1]];
    }
  }

  /** Redo is idempotent: a full install repairs a partial one. */
  lemma InstallsAgain(lay: Layout, d: Image, src: Image, blocks: seq<int>, j: nat)
    requires lay.Valid() && |d| == |src| == lay.size && ValidList(lay, blocks) && j <= |blocks|
    ensures var n := |blocks|;
      Installs(lay, Installs(lay, d, src, blocks, j), src, blocks, n) == Installs(lay, d, src, blocks, n)
  {
    var n := |blocks|;
    var e := Installs(lay, d, src, blocks, j);
    assert blocks[..n] == blocks;
    forall b | 0 <= b < |d|
      ensures Installs(lay, e, src, blocks, n)[b] == Installs(lay, d, src, blocks, n)[b]
    {
      if b in blocks {
        InstallsForget(lay, d, e, src, blocks, n, b);
      } else {
        assert b !in blocks[..j];
        InstallsElsewhere(lay, d, src, blocks, j, b);
        InstallsElsewhere(lay, d, src, blocks, n, b);
        InstallsElsewhere(lay, e, src, blocks, n, b);
      }
    }
  }

  /** The log blocks may be read from any image that agrees on them. */
  lemma {:induction false} InstallsSource(lay: Layout, d: Image, src: Image, src': Image, blocks: seq<int>, k: nat)
    requires lay.Valid() && |d| == |src| == |src'| == lay.size && ValidList(lay, blocks) && k <= |blocks|
    requires forall i :: lay.start < i <= lay.start + LOGBLOCKS ==> src[i] == src'[i]
    ensures Installs(lay, d, src, blocks, k) == Installs(lay, d, src', blocks, k)
  {
    if k > 0 {
      InstallsSource(lay, d, src, src', blocks, k - 1);
    }
  }

  /** Installing never touches the log area. */
  lemma {:induction false} InstallsKeepLog(lay: Layout, d: Image, src: Image, blocks: seq<int>, k: nat)
    requires lay.Valid() && |d| == |src| == lay.size && ValidList(lay, blocks) && k <= |blocks|
    ensures forall b :: lay.start <= b <= lay.start + LOGBLOCKS ==>
      Installs(lay, d, src, blocks, k)[b] == d[b]
  {
    if k > 0 {
      assert lay.Home(blocks[k - 1]);
      InstallsKeepLog(lay, d, src, blocks, k - 1);
    }
  }

  lemma {:induction false} InstallsLengths(lay: Layout, d: Image, src: Image, blocks: seq<int>, k: nat)
    requires ValidImage(lay, d) && ValidImage(lay, src) && ValidList(lay, blocks) && k <= |blocks|
    ensures ValidImage(lay, Installs(lay, d, src, blocks, k))
  {
    if k > 0 {
      InstallsLengths(lay, d, src, blocks, k - 1);
    }
  }

  // ---- Crash atomicity ----

  /** The home blocks of an image: the file system without its log. */
  function HomeOf(lay: Layout, d: Image): (m: map<int, Block>)
    requires |d| == lay.size
    ensures forall b :: b in m <==> lay.Home(b)
    ensures forall b :: lay.Home(b) ==> m[b] == d[b]
  {
    map b | 0 <= b < |d| && lay.Home(b) :: d[b]
  }

  /** The home blocks of d with the logged ones taken from the cache. */
  function Updated(lay: Layout, d: Image, mem: Image, blocks: seq<int>): (m: map<int, Block>)
    requires |d| == |mem| == lay.size
    ensures forall b :: b in m <==> lay.Home(b)
    ensures forall b :: lay.Home(b) ==> m[b] == if b in blocks then mem[b] else d[b]
  {
    map b | 0 <= b < |d| && lay.Home(b) :: if b in blocks then mem[b] else d[b]
  }

  /** recover_from_log always leaves an empty header. */
  lemma RecoverEmptiesHeader(lay: Layout, d: Image)
    requires ValidDisk(lay, d)
    ensures ValidDisk(lay, Recover(lay, d))
    ensures HeaderList(lay, Recover(lay, d)[lay.start]) == []
  {
    var blocks := HeaderList(lay, d[lay.start]);
    InstallsLengths(lay, d, d, blocks, |blocks|);
    HeaderRoundTrip(lay, d[lay.start], []);
  }

  /** On an empty header recovery changes no home block. */
  lemma RecoverEmpty(lay: Layout, d: Image)
    requires ValidDisk(lay, d) && HeaderList(lay, d[lay.start]) == []
    ensures HomeOf(lay, Recover(lay, d)) == HomeOf(lay, d)
  {
    forall b | lay.Home(b)
      ensures Recover(lay, d)[b] == d[b]
    {
    }
  }

  /** If the listed log blocks hold mem, a full install yields exactly the updated home blocks. */
  lemma InstallsHome(lay: Layout, d: Image, src: Image, mem: Image, blocks: seq<int>)
    requires lay.Valid() && |d| == |src| == |mem| == lay.size && ValidList(lay, blocks)
    requires forall i :: 0 <= i < |blocks| ==> src[lay.start + 1 + i] == mem[blocks[i]]
    ensures HomeOf(lay, Installs(lay, d, src, blocks, |blocks|)) == Updated(lay, d, mem, blocks)
  {
    var n := |blocks|;
    assert blocks[..n] == blocks;
    forall b | lay.Home(b)
      ensures Installs(lay, d, src, blocks, n)[b] == if b in blocks then mem[b] else d[b]
    {
      if b in blocks {
        InstallsValue(lay, d, src, mem, blocks, n, b);
      } else {
        InstallsElsewhere(lay, d, src, blocks, n, b);
      }
    }
  }

  /** On a header that lists blocks whose log blocks hold mem, recovery applies exactly those. */
  lemma RecoverFull(lay: Layout, d: Image, mem: Image, blocks: seq<int>)
    requires ValidDisk(lay, d) && |mem| == lay.size && HeaderList(lay, d[lay.start]) == blocks
    requires forall i :: 0 <= i < |blocks| ==> d[lay.start + 1 + i] == mem[blocks[i]]
    ensures HomeOf(lay, Recover(lay, d)) == Updated(lay, d, mem, blocks)
  {
    InstallsHome(lay, d, d, mem, blocks);
    forall b | lay.Home(b)
      ensures Recover(lay, d)[b] == HomeOf(lay, Installs(lay, d, d, blocks, |blocks|))[b]
    {
    }
  }

  /** The commit point: old home blocks, the list in the header, its contents in the log. */
  lemma CommittedIs(lay: Layout, d: Image, mem: Image, blocks: seq<int>)
    requires ValidImage(lay, d) && ValidImage(lay, mem) && ValidList(lay, blocks)
    ensures var c := Committed(lay, d, mem, blocks);
      && ValidDisk(lay, c) && HeaderList(lay, c[lay.start]) == blocks
      && (forall i :: 0 <= i < |blocks| ==> c[lay.start + 1 + i] == mem[blocks[i]])
      && (forall b :: lay.Home(b) ==> c[b] == d[b])
  {
    var n := |blocks|;
    var c := Committed(lay, d, mem, blocks);
    LogCopiesAt(lay, d, mem, blocks, n);
    HeaderRoundTrip(lay, d[lay.start], blocks);
    forall b | 0 <= b < |c|
      ensures |c[b]| == WORDS
    {
      if lay.start < b <= lay.start + n {
        assert c[lay.start + 1 + (b - lay.start - 1)] == mem[blocks[b - lay.start - 1]];
      }
    }
  }

  /** Blocks installed early differ from the old disk only where the log will rewrite them. */
  lemma PartlyInstalled(lay: Layout, d: Image, mem: Image, c: Image, blocks: seq<int>, j: nat)
    requires lay.Valid() && |d| == |mem| == |c| == lay.size && ValidList(lay, blocks) && j <= |blocks|
    requires forall b :: lay.Home(b) ==> c[b] == d[b]
    ensures Updated(lay, Installs(lay, c, c, blocks, j), mem, blocks) == Updated(lay, d, mem, blocks)
  {
    forall b | lay.Home(b) && b !in blocks
      ensures Installs(lay, c, c, blocks, j)[b] == d[b]
    {
      assert b !in blocks[..j];
      InstallsElsewhere(lay, c, c, blocks, j, b);
    }
  }

  /** A crash before the header is written loses the whole transaction. */
  lemma CrashBeforeHeader(lay: Layout, d: Image, mem: Image, blocks: seq<int>, k: nat)
    requires ValidDisk(lay, d) && ValidImage(lay, mem) && ValidList(lay, blocks)
    requires HeaderList(lay, d[lay.start]) == [] && k <= |blocks|
    ensures var img := CommitImage(lay, d, mem, blocks, k);
      && ValidDisk(lay, img) && HeaderList(lay, img[lay.start]) == []
      && HomeOf(lay, Recover(lay, img)) == HomeOf(lay, d)
  {
    var img := CommitImage(lay, d, mem, blocks, k);
    LogCopiesAt(lay, d, mem, blocks, k);
    forall b | 0 <= b < |img|
      ensures |img[b]| == WORDS
    {
      if lay.start < b <= lay.start + k {
        assert img[lay.start + 1 + (b - lay.start - 1)] == mem[blocks[b - lay.start - 1]];
      }
    }
    RecoverEmpty(lay, img);
  }

  /** A crash while installing keeps the whole transaction: recovery finishes it. */
  lemma CrashWhileInstalling(lay: Layout, d: Image, mem: Image, blocks: seq<int>, j: nat)
    requires ValidImage(lay, d) && ValidImage(lay, mem) && ValidList(lay, blocks) && j <= |blocks|
    ensures var c := Committed(lay, d, mem, blocks);
      var img := Installs(lay, c, c, blocks, j);
      && ValidDisk(lay, img) && HeaderList(lay, img[lay.start]) == blocks
      && HomeOf(lay, Recover(lay, img)) == Updated(lay, d, mem, blocks)
  {
    var c := Committed(lay, d, mem, blocks);
    var img := Installs(lay, c, c, blocks, j);
    CommittedIs(lay, d, mem, blocks);
    InstallsLengths(lay, c, c, blocks, j);
    InstallsKeepLog(lay, c, c, blocks, j);
    RecoverFull(lay, img, mem, blocks);
    PartlyInstalled(lay, d, mem, c, blocks, j);
  }

  /** After the last write the log is empty and the home blocks are the new ones. */
  lemma CrashAfterCommit(lay: Layout, d: Image, mem: Image, blocks: seq<int>)
    requires ValidImage(lay, d) && ValidImage(lay, mem) && ValidList(lay, blocks)
    ensures var img := CommitImage(lay, d, mem, blocks, 2 * |blocks| + 2);
      && ValidDisk(lay, img) && HeaderList(lay, img[lay.start]) == []
      && HomeOf(lay, img) == HomeOf(lay, Recover(lay, img)) == Updated(lay, d, mem, blocks)
  {
    var n := |blocks|;
    var c := Committed(lay, d, mem, blocks);
    var inst := Installs(lay, c, c, blocks, n);
    var img := CommitImage(lay, d, mem, blocks, 2 * n + 2);
    CommittedIs(lay, d, mem, blocks);
    InstallsLengths(lay, c, c, blocks, n);
    HeaderRoundTrip(lay, PutHeader(d[lay.start], blocks), []);
    InstallsHome(lay, c, c, mem, blocks);
    forall b | lay.Home(b)
      ensures img[b] == HomeOf(lay, inst)[b]
    {
    }
    assert HomeOf(lay, img) == HomeOf(lay, inst);
    PartlyInstalled(lay, d, mem, c, blocks, 0);
    RecoverEmpty(lay, img);
  }

  /**
   Crash atomicity of commit(): after any number k of its disk writes, recovery
   yields the old home blocks if the header is not yet written and otherwise the
   old ones with every logged block replaced by its cached contents.
   */
  lemma CommitCrashAtomic(lay: Layout, d: Image, mem: Image, blocks: seq<int>, k: nat)
    requires ValidDisk(lay, d) && ValidImage(lay, mem) && ValidList(lay, blocks)
    requires HeaderList(lay, d[lay.start]) == []
    requires k <= 2 * |blocks| + 2
    ensures var img := CommitImage(lay, d, mem, blocks, k);
      && ValidDisk(lay, img)
      && HomeOf(lay, Recover(lay, img)) ==
         if k <= |blocks| then HomeOf(lay, d) else Updated(lay, d, mem, blocks)
  {
    var n := |blocks|;
    if k <= n {
      CrashBeforeHeader(lay, d, mem, blocks, k);
    } else if k <= 2 * n + 1 {
      CrashWhileInstalling(lay, d, mem, blocks, k - n - 1);
    } else {
      CrashAfterCommit(lay, d, mem, blocks);
    }
  }

  /** A crash after any number of recovery's own disk writes does not change what recovery yields. */
  lemma RecoverCrash(lay: Layout, d: Image, k: nat)
    requires ValidDisk(lay, d) && k <= |HeaderList(lay, d[lay.start])| + 1
    ensures ValidDisk(lay, RecoverImage(lay, d, k))
    ensures Recover(lay, RecoverImage(lay, d, k)) == Recover(lay, d)
  {
    var blocks := HeaderList(lay, d[lay.start]);
    var n := |blocks|;
    var img := RecoverImage(lay, d, k);
    if k <= n {
      InstallsLengths(lay, d, d, blocks, k);
      InstallsKeepLog(lay, d, d, blocks, k);
      InstallsSource(lay, img, img, d, blocks, n);
      InstallsAgain(lay, d, d, blocks, k);
    } else {
      RecoverEmptiesHeader(lay, d);
      assert PutHeader(img[lay.start], []) == img[lay.start];
      assert Recover(lay, img) == img;
    }
  }

  /** Each image is what some prefix of recovery's writes makes of the one before it. */
  ghost predicate CrashChain(lay: Layout, ds: seq<Image>, ks: seq<nat>) {
    && |ds| == |ks| + 1
    && ValidDisk(lay, ds[0])
    && forall i :: 0 <= i < |ks| ==>
         && ValidDisk(lay, ds[i])
         && ks[i] <= |HeaderList(lay, ds[i][lay.start])| + 1
         && ds[i + 1] == RecoverImage(lay, ds[i], ks[i])
  }

  /** Recovery may itself crash any number of times, after any of its writes. */
  lemma {:induction false} RecoverManyCrashes(lay: Layout, ds: seq<Image>, ks: seq<nat>)
    requires CrashChain(lay, ds, ks)
    ensures ValidDisk(lay, ds[|ks|])
    ensures Recover(lay, ds[|ks|]) == Recover(lay, ds[0])
  {
    if |ks| > 0 {
      var m := |ks| - 1;
      assert CrashChain(lay, ds[..|ks|], ks[..m]);
      RecoverManyCrashes(lay, ds[..|ks|], ks[..m]);
      RecoverCrash(lay, ds[m], ks[m]);
    }
  }

  /** write_log, write_head, install_trans and write_head again make the last CommitImage. */
  lemma CommitAssembles(lay: Layout, d: Image, mem: Image, blocks: seq<int>)
    requires ValidImage(lay, d) && ValidImage(lay, mem) && ValidList(lay, blocks)
    ensures var c := Committed(lay, d, mem, blocks);
      var inst := Installs(lay, c, c, blocks, |blocks|);
      && LogCopies(lay, d, mem, blocks, |blocks|)[lay.start] == d[lay.start]
      && |inst[lay.start]| == WORDS
      && inst[lay.start := PutHeader(inst[lay.start], [])] == CommitImage(lay, d, mem, blocks, 2 * |blocks| + 2)
  {
    var c := Committed(lay, d, mem, blocks);
    LogCopiesAt(lay, d, mem, blocks, |blocks|);
    InstallsKeepLog(lay, c, c, blocks, |blocks|);
  }

  /** Committing the cache to itself leaves its home blocks alone. */
  lemma CommitKeepsCache(lay: Layout, mem: Image, blocks: seq<int>)
    requires ValidImage(lay, mem) && ValidList(lay, blocks)
    ensures HomeOf(lay, CommitImage(lay, mem, mem, blocks, 2 * |blocks| + 2)) == HomeOf(lay, mem)
  {
    CrashAfterCommit(lay, mem, mem, blocks);
  }

  // ---- The in-memory header ----

  /** The list after log_write(b): absorbed if present, else appended. */
  function Logged(blocks: seq<int>, b: int): (r: seq<int>)
    ensures forall x :: x in r <==> x in blocks || x == b
  {
    if b in blocks then blocks else blocks + [b]
  }
}
